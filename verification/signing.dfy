/**
 * `signObject`: copy the payload without its "signature" field, serialise it
 * deterministically, hash it with Keccak-256, sign the digest with the
 * configured key, normalise to low-s, DER-encode and base64 the result. The
 * library steps are parameters whose code is not part of this model.
 */
module Signing {
  import opened Wrappers
  import opened JsValues
  import opened PrivateKey
  import opened LowS

  type Bytes = seq<bv8>

  /** The library functions `signObject` calls. */
  datatype Library = Library(
    // json-stringify-deterministic; it may throw
    stringify: map<string, Value> -> Result<string, Thrown>,
    // keccak256.digest of the string's bytes (Buffer.from(str))
    keccak256: string -> Bytes,
    // Buffer.from(hex, 'hex')
    hexToBytes: string -> Bytes,
    // secp256k1 signing of a digest with a private key
    ecSign: (Bytes, Bytes) -> Signature,
    // sig.toDER(): encodes r and s only
    toDER: (int, int) -> Bytes,
    // Buffer.toString('base64')
    base64: Bytes -> string)

  /** What `signObject` returns. */
  datatype Signed = Signed(signature: string, stringToSign: string)

  /** One step `signObject` takes: a library call or the key check. */
  datatype Call =
    | StringifyCall(clean: map<string, Value>)
    | KeccakCall(input: string)
    | CheckKeyCall(pk: string)
    | EcSignCall(digest: Bytes, keyHex: string)
    | ToDERCall(r: int, s: int)
    | Base64Call(der: Bytes)

  /** The library never returns s outside 1 .. n - 1. */
  ghost predicate SignsInRange(lib: Library) {
    forall digest, key :: 0 < lib.ecSign(digest, key).s < CurveOrder
  }

  /** The object that is serialised: a shallow copy of `obj` with no top-level
      "signature" property; every other property, nested values included, as in `obj`. */
  function CleanCopy(obj: JsValue): (clean: map<string, Value>)
    ensures "signature" !in clean
    ensures forall k :: k != "signature" && k in OwnProps(obj) ==> k in clean && clean[k] == OwnProps(obj)[k]
    ensures forall k :: k in clean ==> k in OwnProps(obj)
    ensures obj.Def? && obj.v.Obj? ==> clean == obj.v.props - {"signature"}
    ensures !(obj.Def? && obj.v.Obj?) ==> clean == OwnProps(obj)
  {
    assert !IsIndexKey("signature") by { assert "signature"[0] == 's'; }
    OwnProps(obj) - {"signature"}
  }

  /** The low-s signature of the string `str` under the key `keyHex`. */
  function LowSSignature(lib: Library, str: string, keyHex: string): Signature {
    Normalize(lib.ecSign(lib.keccak256(str), lib.hexToBytes(keyHex)), CurveOrder)
  }

  /** The transport form of a signature: base64 of its DER encoding. */
  function Encode(lib: Library, sig: Signature): string {
    lib.base64(lib.toDER(sig.r, sig.s))
  }

  /** The outcome of `signObject(obj)` with the configured key `pk`. */
  function Sign(obj: JsValue, pk: string, lib: Library): (r: Result<Signed, Thrown>)
    ensures r.Ok? <==> lib.stringify(CleanCopy(obj)).Ok? && MustPK(pk).Ok?
    ensures r.Ok? ==> r.value.stringToSign == lib.stringify(CleanCopy(obj)).value
    ensures r.Err? && lib.stringify(CleanCopy(obj)).Ok? ==> r.error == Error(KeyErrorMessage)
  {
    match lib.stringify(CleanCopy(obj))
    case Err(e) => Err(e)
    case Ok(str) =>
      match MustPK(pk)
      case Err(msg) => Err(Error(msg))
      case Ok(keyHex) => Ok(Signed(Encode(lib, LowSSignature(lib, str, keyHex)), str))
  }

  /** An object whose own properties the server copies and deletes. */
  class JsObject {
    var props: map<string, Value>

    /** `{ ...source }` */
    constructor Spread(source: JsValue)
      ensures props == OwnProps(source)
    {
      props := OwnProps(source);
    }

    /** `key in this` (a plain object inherits no "signature"). */
    predicate Has(key: string)
      reads this
    {
      key in props
    }

    /** `delete this[key]` */
    method Delete(key: string)
      modifies this
      ensures props == old(props) - {key}
    {
      props := props - {key};
    }
  }

  // Each library call is made through a method that returns the record of the
  // steps so far with its own step appended, so a record follows the order in
  // which the caller makes the calls.

  method CallStringify(lib: Library, clean: map<string, Value>, ghost log: seq<Call>)
    returns (r: Result<string, Thrown>, ghost log': seq<Call>)
    ensures r == lib.stringify(clean) && log' == log + [StringifyCall(clean)]
  {
    r, log' := lib.stringify(clean), log + [StringifyCall(clean)];
  }

  method CallKeccak(lib: Library, str: string, ghost log: seq<Call>) returns (h: Bytes, ghost log': seq<Call>)
    ensures h == lib.keccak256(str) && log' == log + [KeccakCall(str)]
  {
    h, log' := lib.keccak256(str), log + [KeccakCall(str)];
  }

  method CallMustPK(pk: string, ghost log: seq<Call>) returns (r: Result<string, string>, ghost log': seq<Call>)
    ensures r == MustPK(pk) && log' == log + [CheckKeyCall(pk)]
  {
    r, log' := MustPK(pk), log + [CheckKeyCall(pk)];
  }

  /** `ec.sign(hash, Buffer.from(keyHex, 'hex'))` */
  method CallEcSign(lib: Library, digest: Bytes, keyHex: string, ghost log: seq<Call>)
    returns (sig: Signature, ghost log': seq<Call>)
    ensures sig == lib.ecSign(digest, lib.hexToBytes(keyHex)) && log' == log + [EcSignCall(digest, keyHex)]
  {
    sig, log' := lib.ecSign(digest, lib.hexToBytes(keyHex)), log + [EcSignCall(digest, keyHex)];
  }

  method CallToDER(lib: Library, r: int, s: int, ghost log: seq<Call>) returns (der: Bytes, ghost log': seq<Call>)
    ensures der == lib.toDER(r, s) && log' == log + [ToDERCall(r, s)]
  {
    der, log' := lib.toDER(r, s), log + [ToDERCall(r, s)];
  }

  method CallBase64(lib: Library, der: Bytes, ghost log: seq<Call>) returns (text: string, ghost log': seq<Call>)
    ensures text == lib.base64(der) && log' == log + [Base64Call(der)]
  {
    text, log' := lib.base64(der), log + [Base64Call(der)];
  }

  /** The steps `signObject(obj)` takes with the key `pk`, in order: serialise,
      hash, check the key, then sign, DER-encode and base64 only if the key is good. */
  function SignCalls(obj: JsValue, pk: string, lib: Library): (calls: seq<Call>)
    ensures |calls| > 0 && calls[0] == StringifyCall(CleanCopy(obj))
    ensures lib.stringify(CleanCopy(obj)).Err? ==> |calls| == 1
    ensures lib.stringify(CleanCopy(obj)).Ok? ==>
              |calls| >= 3 && calls[1] == KeccakCall(lib.stringify(CleanCopy(obj)).value) && calls[2] == CheckKeyCall(pk)
    ensures Sign(obj, pk, lib).Ok? <==> |calls| == 6
  {
    match lib.stringify(CleanCopy(obj))
    case Err(_) => [StringifyCall(CleanCopy(obj))]
    case Ok(str) =>
      var checked := [StringifyCall(CleanCopy(obj)), KeccakCall(str), CheckKeyCall(pk)];
      match MustPK(pk)
      case Err(_) => checked
      case Ok(keyHex) =>
        var sig := LowSSignature(lib, str, keyHex);
        var der := lib.toDER(sig.r, sig.s);
        checked + [EcSignCall(lib.keccak256(str), keyHex), ToDERCall(sig.r, sig.s), Base64Call(der)]
  }

  /** Lines 32-39 of `signObject`: sign the digest, normalise the signature object
      in place, DER-encode and base64 it. */
  method SignDigest(lib: Library, str: string, hash: Bytes, keyHex: string, ghost log: seq<Call>)
    returns (derB64: string, ghost log': seq<Call>)
    requires hash == lib.keccak256(str)
    ensures derB64 == Encode(lib, LowSSignature(lib, str, keyHex))
    ensures var sig := LowSSignature(lib, str, keyHex);
            log' == log + [EcSignCall(hash, keyHex), ToDERCall(sig.r, sig.s), Base64Call(lib.toDER(sig.r, sig.s))]
  {
    var raw;
    raw, log' := CallEcSign(lib, hash, keyHex, log);
    var sig := new EcSignature(raw);
    sig.NormalizeLowS(CurveOrder);
    var der;
    der, log' := CallToDER(lib, sig.r, sig.s, log');
    derB64, log' := CallBase64(lib, der, log');
  }

  /** Lines 26-27 of `signObject`: a fresh shallow copy, without "signature". */
  method CopyWithoutSignature(obj: JsValue) returns (props: map<string, Value>)
    ensures props == CleanCopy(obj)
  {
    var clean := new JsObject.Spread(obj);
    if clean.Has("signature") {
      clean.Delete("signature");
    }
    props := clean.props;
  }

  /** `signObject`, step by step, returning the record of its steps. It modifies
      no object that existed before the call: the delete acts on a fresh copy. The
      hash is computed before the key is checked. */
  method SignObject(obj: JsValue, pk: string, lib: Library) returns (res: Result<Signed, Thrown>, ghost calls: seq<Call>)
    ensures res == Sign(obj, pk, lib)
    ensures calls == SignCalls(obj, pk, lib)
  {
    var props := CopyWithoutSignature(obj);
    var str;
    str, calls := CallStringify(lib, props, []);
    if str.Err? {
      res := Err(str.error);
      assert calls == SignCalls(obj, pk, lib);
      return;
    }
    var hash;
    hash, calls := CallKeccak(lib, str.value, calls);
    var key;
    key, calls := CallMustPK(pk, calls);
    ghost var checked := [StringifyCall(props), KeccakCall(str.value), CheckKeyCall(pk)];
    assert calls == checked;
    if key.Err? {
      res := Err(Error(key.error));
      assert calls == SignCalls(obj, pk, lib);
      return;
    }
    var derB64;
    derB64, calls := SignDigest(lib, str.value, hash, key.value, calls);
    res := Ok(Signed(derB64, str.value));
    assert res == Sign(obj, pk, lib);
  }

  /** The returned `stringToSign` is the serialisation of the cleaned object, and
      the signature is the encoded low-s signature of exactly that string's hash. */
  lemma SignedStringIsHashedString(obj: JsValue, pk: string, lib: Library)
    requires Sign(obj, pk, lib).Ok?
    ensures lib.stringify(CleanCopy(obj)) == Ok(Sign(obj, pk, lib).value.stringToSign)
    ensures MustPK(pk).Ok?
    ensures Sign(obj, pk, lib).value.signature ==
              Encode(lib, LowSSignature(lib, Sign(obj, pk, lib).value.stringToSign, MustPK(pk).value))
  {
  }

  /** A serialisation failure surfaces unchanged, whatever the key. */
  lemma StringifyFailureComesFirst(obj: JsValue, pk: string, lib: Library)
    requires lib.stringify(CleanCopy(obj)).Err?
    ensures Sign(obj, pk, lib) == Err(lib.stringify(CleanCopy(obj)).error)
  {
  }

  /** With a serialisable payload, a malformed key yields the key error and no signature. */
  lemma MalformedKeyFails(obj: JsValue, pk: string, lib: Library)
    requires lib.stringify(CleanCopy(obj)).Ok?
    requires !IsPrefixedKey(pk) && !IsZeroLedKey(pk)
    ensures Sign(obj, pk, lib) == Err(Error(KeyErrorMessage))
  {
  }

  /** The signature the server emits always carries a low s. */
  lemma EmittedSignatureIsLowS(obj: JsValue, pk: string, lib: Library)
    requires SignsInRange(lib)
    requires Sign(obj, pk, lib).Ok?
    ensures var out := Sign(obj, pk, lib).value;
            var sig := LowSSignature(lib, out.stringToSign, MustPK(pk).value);
            out.signature == Encode(lib, sig) && 0 < sig.s <= HalfOrder(CurveOrder)
  {
  }

  /** A "signature" property of the payload has no effect on the result. */
  lemma SignIgnoresSignatureField(m: map<string, Value>, v: Value, pk: string, lib: Library)
    ensures Sign(Def(Obj(m["signature" := v])), pk, lib) == Sign(Def(Obj(m)), pk, lib)
  {
    assert CleanCopy(Def(Obj(m["signature" := v]))) == CleanCopy(Def(Obj(m)));
  }

  /** Two payloads that differ only in their top-level "signature" property
      produce the same signature and the same string to sign. */
  lemma SignDependsOnlyOnCleanCopy(a: JsValue, b: JsValue, pk: string, lib: Library)
    requires OwnProps(a) - {"signature"} == OwnProps(b) - {"signature"}
    ensures Sign(a, pk, lib) == Sign(b, pk, lib)
  {
  }
}
