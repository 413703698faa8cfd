/**
 * Validation and normalisation of the configured secp256k1 private key
 * (`mustPK`). The key is the value of the environment variable GALA_PK_HEX,
 * read once at start-up; an unset variable reads as the empty string.
 */
module PrivateKey {
  import opened Wrappers

  /** The message thrown for a missing or malformed key. */
  const KeyErrorMessage: string :=
    "Private key missing or malformed. Set env GALA_PK_HEX to 0x..64 hex chars."

  /** The character class `[0-9a-fA-F]`. */
  predicate IsHexDigit(c: char) {
    '0' <= c <= '9' || 'a' <= c <= 'f' || 'A' <= c <= 'F'
  }

  predicate AllHex(t: string) {
    forall i :: 0 <= i < |t| ==> IsHexDigit(t[i])
  }

  /** The regular-expression tail `[0-9a-fA-F]{k}$`, matched one token at a time. */
  predicate HexRunToEnd(t: string, k: nat)
    decreases k
  {
    if k == 0 then t == [] else t != [] && IsHexDigit(t[0]) && HexRunToEnd(t[1..], k - 1)
  }

  /** The test `/^0x?[0-9a-fA-F]{64}$/`: a literal `0`, then an optional `x` (taken
      first, skipped on backtracking), then 64 hex digits and the end of input. */
  predicate MatchesKeyRegex(s: string) {
    s != [] && s[0] == '0' &&
    var t := s[1..];
    (t != [] && t[0] == 'x' && HexRunToEnd(t[1..], 64)) || HexRunToEnd(t, 64)
  }

  /** "0x" followed by 64 hex digits (66 characters). */
  predicate IsPrefixedKey(s: string) {
    |s| == 66 && s[0] == '0' && s[1] == 'x' && AllHex(s[2..])
  }

  /** "0" followed by 64 hex digits (65 characters). */
  predicate IsZeroLedKey(s: string) {
    |s| == 65 && s[0] == '0' && AllHex(s[1..])
  }

  lemma {:induction false} HexRunToEndExactly(t: string, k: nat)
    ensures HexRunToEnd(t, k) <==> |t| == k && AllHex(t)
    decreases k
  {
    if k > 0 && t != [] {
      HexRunToEndExactly(t[1..], k - 1);
      assert AllHex(t) <==> IsHexDigit(t[0]) && AllHex(t[1..]) by {
        if IsHexDigit(t[0]) && AllHex(t[1..]) {
          forall i | 0 <= i < |t| ensures IsHexDigit(t[i]) {
            if i > 0 { assert t[i] == t[1..][i - 1]; }
          }
        }
      }
    }
  }

  /** The regular expression accepts exactly the two key shapes. */
  lemma KeyRegexAcceptsExactly(s: string)
    ensures MatchesKeyRegex(s) <==> IsPrefixedKey(s) || IsZeroLedKey(s)
  {
    if s != [] {
      var t := s[1..];
      HexRunToEndExactly(t, 64);
      if t != [] {
        HexRunToEndExactly(t[1..], 64);
        assert t[1..] == s[2..];
      }
    }
  }

  /** `PK.replace(/^0x/, '')`: drops one leading "0x", if there is one. */
  function StripHexPrefix(s: string): string {
    if |s| >= 2 && s[0] == '0' && s[1] == 'x' then s[2..] else s
  }

  /** `mustPK()`: the key with a leading "0x" removed, or the key error. A bare
      64-digit key has no leading `0` for the pattern and is refused. */
  function MustPK(pk: string): (r: Result<string, string>)
    ensures r.Ok? <==> IsPrefixedKey(pk) || IsZeroLedKey(pk)
    ensures IsPrefixedKey(pk) ==> r == Ok(pk[2..])
    ensures IsZeroLedKey(pk) ==> r == Ok(pk)
    ensures r.Ok? ==> AllHex(r.value) || (r.value[0] == '0' && AllHex(r.value[1..]))
    ensures r.Err? ==> r.error == KeyErrorMessage
  {
    KeyRegexAcceptsExactly(pk);
    if pk == "" || !MatchesKeyRegex(pk) then Err(KeyErrorMessage) else Ok(StripHexPrefix(pk))
  }

  /** For 64 hex digits `h`: "0x"+h yields h, "0"+h is kept whole, and h alone is refused. */
  lemma MustPKOnHexDigits(h: string)
    requires |h| == 64 && AllHex(h)
    ensures MustPK("0x" + h) == Ok(h)
    ensures MustPK("0" + h) == Ok("0" + h)
    ensures MustPK(h) == Err(KeyErrorMessage)
  {
  }
}
