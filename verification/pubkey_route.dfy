/**
 * The `GET /pubkey` handler: check the wallet address, ask the GalaSwap API for
 * the address's public key, and pick the key out of the reply text.
 */
module PubkeyRoute {
  import opened Wrappers
  import opened JsValues

  const AddressErrorMessage: string := "Expected a GalaChain wallet address like client|\U{2026}"

  /** The text of the lookup's reply, or what `fetch` or `text()` threw. */
  datatype FetchOutcome = Rejected(error: Thrown) | Body(text: string)

  /** `JSON.parse(txt)`: a value, or a SyntaxError. */
  datatype ParseOutcome = SyntaxError | Parsed(json: Value)

  /** The reply: 200 with `{publicKey}`, or 400 with the error. */
  datatype PubkeyResponse = PublicKey200(publicKey: Value) | BadRequest400(error: Thrown)

  /** ECMAScript WhiteSpace and LineTerminator code points, which `trim` removes. */
  predicate IsJsWhitespace(c: char) {
    c == '\t' || c == '\n' || c == '\U{000B}' || c == '\U{000C}' || c == '\r' || c == ' ' ||
    c == '\U{00A0}' || c == '\U{1680}' || ('\U{2000}' <= c <= '\U{200A}') ||
    c == '\U{2028}' || c == '\U{2029}' || c == '\U{202F}' || c == '\U{205F}' ||
    c == '\U{3000}' || c == '\U{FEFF}'
  }

  /** The number of leading whitespace characters of `s`. */
  function LeadingSpace(s: string): (i: nat)
    ensures i <= |s|
    ensures forall k :: 0 <= k < i ==> IsJsWhitespace(s[k])
    ensures i < |s| ==> !IsJsWhitespace(s[i])
  {
    if s != [] && IsJsWhitespace(s[0]) then 1 + LeadingSpace(s[1..]) else 0
  }

  /** The number of trailing whitespace characters of `s`. */
  function TrailingSpace(s: string): (j: nat)
    ensures j <= |s|
    ensures forall k :: |s| - j <= k < |s| ==> IsJsWhitespace(s[k])
    ensures j < |s| ==> !IsJsWhitespace(s[|s| - 1 - j])
  {
    if s != [] && IsJsWhitespace(s[|s| - 1]) then 1 + TrailingSpace(s[..|s| - 1]) else 0
  }

  /** `s.trim()`: `s` without its leading and trailing whitespace. */
  function Trim(s: string): (t: string)
    ensures t == [] || (!IsJsWhitespace(t[0]) && !IsJsWhitespace(t[|t| - 1]))
    ensures (forall k :: 0 <= k < |s| ==> IsJsWhitespace(s[k])) <==> t == []
    ensures s != [] && !IsJsWhitespace(s[0]) && !IsJsWhitespace(s[|s| - 1]) ==> t == s
    ensures LeadingSpace(s) + |t| <= |s| && t == s[LeadingSpace(s)..LeadingSpace(s) + |t|]
    ensures forall k :: LeadingSpace(s) + |t| <= k < |s| ==> IsJsWhitespace(s[k])
  {
    var i := LeadingSpace(s);
    var rest := s[i..];
    var j := TrailingSpace(rest);
    var t := rest[..|rest| - j];
    assert |t| == |rest| - j && i + |t| == |s| - j;
    assert t == s[i..i + |t|];
    t
  }

  predicate StartsWith(s: string, prefix: string) {
    |prefix| <= |s| && s[..|prefix|] == prefix
  }

  /** A GalaChain wallet address: one of the two recognised namespace tags first. */
  predicate IsWalletAddress(a: string) {
    StartsWith(a, "client|") || StartsWith(a, "eth|")
  }

  /** `(req.query.address || '').trim()` followed by the prefix check. */
  function CheckAddress(query: JsValue): (r: Result<string, Thrown>)
    ensures r.Ok? ==> query.Def? && query.v.Str? && r.value == Trim(query.v.s) && IsWalletAddress(r.value)
    ensures query.Def? && query.v.Str? ==> (r.Ok? <==> IsWalletAddress(Trim(query.v.s)))
    ensures query.Def? && query.v.Str? && r.Err? ==> r.error == Error(AddressErrorMessage)
    ensures !Truthy(query) ==> r == Err(Error(AddressErrorMessage))
    ensures Truthy(query) && !(query.Def? && query.v.Str?) ==> r == Err(TypeError)
  {
    var operand := Or(query, Def(Str("")));
    if operand.Def? && operand.v.Str? then
      var address := Trim(operand.v.s);
      if !IsWalletAddress(address) then Err(Error(AddressErrorMessage)) else Ok(address)
    else
      Err(TypeError)  // a repeated or nested query parameter has no `trim`
  }

  /** The characters of the class `[\r\n"]`. */
  predicate IsStrippedChar(c: char) {
    c == '\r' || c == '\n' || c == '"'
  }

  /** `txt.replace(/[\r\n"]/g, '')` */
  function StripCrLfQuote(txt: string): (out: string)
    ensures |out| <= |txt|
    ensures forall k :: 0 <= k < |out| ==> !IsStrippedChar(out[k])
    ensures (forall k :: 0 <= k < |txt| ==> !IsStrippedChar(txt[k])) ==> out == txt
  {
    if txt == [] then []
    else
      var rest := StripCrLfQuote(txt[1..]);
      if IsStrippedChar(txt[0]) then rest else [txt[0]] + rest
  }

  /** Stripping works character by character: it distributes over concatenation,
      so the kept characters stay in their original order. */
  lemma {:induction false} StripDistributes(a: string, b: string)
    ensures StripCrLfQuote(a + b) == StripCrLfQuote(a) + StripCrLfQuote(b)
  {
    if a != [] {
      assert (a + b)[1..] == a[1..] + b;
      StripDistributes(a[1..], b);
    } else {
      assert a + b == b;
    }
  }

  /** Every other character survives, as often as it occurs. */
  lemma {:induction false} StripKeepsOtherCharacters(txt: string, c: char)
    requires !IsStrippedChar(c)
    ensures multiset(StripCrLfQuote(txt))[c] == multiset(txt)[c]
  {
    if txt != [] {
      StripKeepsOtherCharacters(txt[1..], c);
      assert txt == [txt[0]] + txt[1..];
      assert multiset(txt) == multiset([txt[0]]) + multiset(txt[1..]);
    }
  }

  /** The key the handler answers with, given the reply text and its parse. */
  function SelectPublicKey(txt: string, parsed: ParseOutcome): (key: Value)
    ensures parsed.SyntaxError? ==> key == Str(StripCrLfQuote(txt))
    ensures parsed.Parsed? && parsed.json.Str? ==>
              key == if parsed.json.s != "" then parsed.json else Str(StripCrLfQuote(txt))
    ensures (parsed.Parsed? && parsed.json.Obj? && "publicKey" in parsed.json.props &&
             Truthy(Def(parsed.json.props["publicKey"]))) ==> key == parsed.json.props["publicKey"]
    ensures (parsed.Parsed? && parsed.json.Obj? &&
             !("publicKey" in parsed.json.props && Truthy(Def(parsed.json.props["publicKey"]))) &&
             "data" in parsed.json.props && Truthy(Def(parsed.json.props["data"]))) ==> key == parsed.json.props["data"]
    ensures (parsed.Parsed? && parsed.json.Obj? &&
             !("publicKey" in parsed.json.props && Truthy(Def(parsed.json.props["publicKey"]))) &&
             !("data" in parsed.json.props && Truthy(Def(parsed.json.props["data"])))) ==> key == Str(StripCrLfQuote(txt))
    ensures parsed.Parsed? && !parsed.json.Obj? && !parsed.json.Str? ==> key == Str(StripCrLfQuote(txt))
    ensures key == Str(StripCrLfQuote(txt)) || Truthy(Def(key))
  {
    var fallback := Str(StripCrLfQuote(txt));
    match parsed
    case SyntaxError => fallback
    case Parsed(j) =>
      // a JSON string is taken as it is; otherwise the first truthy of the
      // `publicKey` and `data` properties, else the empty string
      var value: Result<JsValue, Thrown> :=
        if TypeOf(Def(j)) == "string" then Ok(Def(j))
        else
          match Member(Def(j), "publicKey")
          case Err(e) => Err(e)
          case Ok(pk) =>
            match Member(Def(j), "data")
            case Err(e) => Err(e)
            case Ok(data) => Ok(Or(Or(pk, data), Def(Str(""))));
      // a falsy value throws, and the catch answers with the cleaned text
      if value.Ok? && Truthy(value.value) then value.value.v else fallback
  }

  /** The whole handler; `lookup(address)` stands for posting `{"user": address}` to
      the GalaSwap GetPublicKey endpoint and reading the reply as text, `jsonParse`
      for `JSON.parse`. */
  function HandlePubkey(query: JsValue, lookup: string -> FetchOutcome, jsonParse: string -> ParseOutcome): (resp: PubkeyResponse)
    ensures CheckAddress(query).Err? ==> resp == BadRequest400(CheckAddress(query).error)
    ensures CheckAddress(query).Ok? && lookup(CheckAddress(query).value).Rejected? ==>
              resp == BadRequest400(lookup(CheckAddress(query).value).error)
    ensures CheckAddress(query).Ok? && lookup(CheckAddress(query).value).Body? ==>
              var txt := lookup(CheckAddress(query).value).text;
              resp == PublicKey200(SelectPublicKey(txt, jsonParse(txt)))
    ensures resp.PublicKey200? ==>
              CheckAddress(query).Ok? && lookup(CheckAddress(query).value).Body? &&
              var txt := lookup(CheckAddress(query).value).text;
              resp.publicKey == SelectPublicKey(txt, jsonParse(txt))
  {
    match CheckAddress(query)
    case Err(e) => BadRequest400(e)
    case Ok(address) =>
      match lookup(address)
      case Rejected(e) => BadRequest400(e)
      case Body(txt) => PublicKey200(SelectPublicKey(txt, jsonParse(txt)))
  }
}
