/**
 * Low-s normalisation of a secp256k1 signature. A signature (r, s) and its twin
 * (r, n - s) both verify; the server always emits the one whose s is at most
 * floor(n / 2), flipping the recovery parameter when it swaps s.
 */
module LowS {
  import opened Wrappers

  /** The order n of the secp256k1 group (SEC 2, section 2.4.1). */
  const CurveOrder: nat := 0xFFFFFFFF_FFFFFFFF_FFFFFFFF_FFFFFFFE_BAAEDCE6_AF48A03B_BFD25E8C_D0364141

  /** A signature as the elliptic-curve library returns it. */
  datatype Signature = Signature(r: int, s: int, recoveryParam: Option<int>)

  /** `n.shrn(1)`: n shifted right by one bit. */
  function HalfOrder(n: nat): nat {
    n / 2
  }

  /** The low-s form of `sig` for group order `n`. */
  function Normalize(sig: Signature, n: nat): (out: Signature)
    ensures out.r == sig.r
    ensures out.s == sig.s || out.s == n - sig.s
    ensures out.s != sig.s <==> sig.s > HalfOrder(n)
    ensures 0 < sig.s < n ==> 0 < out.s <= HalfOrder(n)
    ensures out.recoveryParam.Some? <==> sig.recoveryParam.Some?
    ensures sig.recoveryParam.Some? && 0 <= sig.recoveryParam.value <= 1 ==>
              0 <= out.recoveryParam.value <= 1 &&
              (out.recoveryParam != sig.recoveryParam <==> out.s != sig.s)
    ensures out.recoveryParam ==
              if sig.s > HalfOrder(n) && sig.recoveryParam.Some? then Some(1 - sig.recoveryParam.value)
              else sig.recoveryParam
  {
    if sig.s > HalfOrder(n) then
      var p := if sig.recoveryParam.Some? then Some(1 - sig.recoveryParam.value) else None;
      Signature(sig.r, n - sig.s, p)
    else
      sig
  }

  /** Normalising twice is normalising once. */
  lemma NormalizeIdempotent(sig: Signature, n: nat)
    ensures Normalize(Normalize(sig, n), n) == Normalize(sig, n)
  {
  }

  /** A signature and its malleable twin (r, n - s) normalise to the same s, so
      exactly one of the two is ever emitted. */
  lemma NormalizeMergesTwins(r: int, s: int, p: Option<int>, q: Option<int>, n: nat)
    ensures Normalize(Signature(r, s, p), n).s == Normalize(Signature(r, n - s, q), n).s
  {
  }

  /** The signature object the library hands back, whose fields the server overwrites. */
  class EcSignature {
    var r: int
    var s: int
    var recoveryParam: Option<int>

    function View(): Signature
      reads this
    {
      Signature(r, s, recoveryParam)
    }

    constructor (sig: Signature)
      ensures View() == sig
    {
      r, s, recoveryParam := sig.r, sig.s, sig.recoveryParam;
    }

    /** The in-place low-s step of `signObject`. */
    method NormalizeLowS(n: nat)
      modifies this
      ensures View() == Normalize(old(View()), n)
    {
      if s > HalfOrder(n) {
        s := n - s;
        if recoveryParam.Some? {
          recoveryParam := Some(1 - recoveryParam.value);
        }
      }
    }
  }
}
