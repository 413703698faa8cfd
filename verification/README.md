# Gala signer: a Dafny model of the signing server's core

`sign-server.js` is a small local HTTP service. It signs JSON payloads for the
GalaChain/GalaSwap API and looks up wallet public keys. This project models the
logic the file writes itself. The libraries it calls are kept as parameters.

- **Key validation** (`mustPK`). The configured key must match
  `^0x?[0-9a-fA-F]{64}$`. That pattern accepts exactly `"0"` + 64 hex digits or
  `"0x"` + 64 hex digits. A leading `0x` is then stripped.
- **Signing** (`signObject`). A shallow copy of the payload is made and its
  top-level `signature` property is deleted. The copy is serialised
  deterministically and hashed with Keccak-256. The key is checked next, then the
  digest is signed on secp256k1. The signature is normalised to low-s: an s
  above floor(n/2) becomes n − s and the recovery parameter p becomes 1 − p.
  Finally it is DER-encoded and base64'd.
- **`POST /sign`**. The payload must be truthy and of `typeof` "object". That
  means a JSON object or an array; an array is spread into the keys "0", "1", ….
- **`GET /pubkey`**. The trimmed `address` query parameter must start with
  `client|` or `eth|`. The reply text of the lookup is parsed. A non-empty JSON
  string is the key. Otherwise the key is the truthy `publicKey`, else the
  truthy `data`. In every other case, a parse failure included, the key is the
  raw text with `\r`, `\n` and `"` removed.

Modules, leaf first:

| file | module | contents |
|---|---|---|
| wrappers.dfy | Wrappers | `Option`, `Result` |
| js_values.dfy | JsValues | JSON values, `undefined`, truthiness, `typeof`, `\|\|`, property reads, the properties object spread copies |
| private_key.dfy | PrivateKey | the key pattern as a token matcher, `MustPK` |
| low_s.dfy | LowS | the secp256k1 order, `Normalize`, the mutable `EcSignature` object |
| signing.dfy | Signing | the `Library` of foreign calls, the mutable `JsObject` copy, the `Sign` and `SignCalls` specifications and the step-by-step `SignObject` method |
| sign_route.dfy | SignRoute | the `/sign` handler |
| pubkey_route.dfy | PubkeyRoute | the `/pubkey` handler: `trim`, the address check, the key selection |

Three behaviours of the code are worth knowing:

- **Bare keys are refused.** The key pattern requires a literal leading `0`. So a
  bare 64-digit key is refused, and `"0"` + 64 digits (65 characters) is accepted
  and passed on whole (`MustPKOnHexDigits`).
- **Serialisation failures come first.** The payload is serialised and hashed
  before `mustPK()` is called. So a serialisation failure is reported even when
  the key is also bad (`StringifyFailureComesFirst`, `SignCalls`).
- **No range check on the key.** Only the pattern is checked, not whether the key
  is a valid scalar (non-zero, below n).

## Model

| member | source | states |
|---|---|---|
| JsValues.Decimal | sign-server.js:26 | an array index's property key is a non-empty string of decimal digits with no leading zero (one digit exactly for indices below 10) |
| JsValues.DecimalDenotes | sign-server.js:26 | the digits of `Decimal(n)` denote n, so the key is n's shortest decimal numeral |
| JsValues.DecimalInjective | sign-server.js:26 | distinct array indices give distinct property keys, so spreading an array loses no element |
| JsValues.IndexedProps | sign-server.js:26 | spreading an array or string yields key `Decimal(i)` holding element i for every index, and every key is digits only (so never `signature`) |
| JsValues.IndexedPropsHasOnlyIndices | sign-server.js:26 | every key of the spread copy is the key of some index below the length |
| PrivateKey.HexRunToEndExactly | sign-server.js:16 | the pattern tail `[0-9a-fA-F]{k}$` matches exactly the strings of length k made of hex digits |
| PrivateKey.KeyRegexAcceptsExactly | sign-server.js:16 | `^0x?[0-9a-fA-F]{64}$` accepts exactly `"0x"`+64 hex (66 chars) and `"0"`+64 hex (65 chars) |
| PrivateKey.MustPK | sign-server.js:15-20 | succeeds exactly for the two key shapes; a `0x` key yields its 64 digits, a `0`-led key is returned unchanged; every other key, the empty one included, gives the fixed key error message |
| PrivateKey.MustPKOnHexDigits | sign-server.js:16-19 | for any 64 hex digits h: `"0x"+h` gives h, `"0"+h` gives itself, bare h is refused |
| LowS.Normalize | sign-server.js:33-38 | r unchanged; s is kept or replaced by n − s, and replaced exactly when s > floor(n/2); for 0 < s < n the result satisfies 0 < s ≤ floor(n/2); a present recovery parameter p becomes 1 − p exactly when s is replaced and is otherwise kept, an absent one stays absent; so one in {0,1} stays in {0,1} and flips exactly when s is replaced |
| LowS.NormalizeIdempotent | sign-server.js:34-38 | normalising a normalised signature changes nothing |
| LowS.NormalizeMergesTwins | sign-server.js:34-36 | (r, s) and its malleable twin (r, n − s) normalise to the same s |
| LowS.EcSignature.constructor | sign-server.js:32 | the library's signature object holds the r, s and recovery parameter it was made from |
| LowS.EcSignature.NormalizeLowS | sign-server.js:34-38 | the in-place overwrite of `sig.s` and `sig.recoveryParam` leaves the object holding `Normalize` of its old value |
| JsValues.OwnProps | sign-server.js:26 | the properties `{...obj}` copies: exactly an object's own properties; an array's element i and a string's character i under the key of i and no key besides those of indices below the length, and nothing for undefined, null, booleans and numbers |
| Signing.CleanCopy | sign-server.js:26-27 | for an object payload the copy is exactly its own properties without `signature`; in general the copy has no `signature` key; it agrees with the payload's own properties on every other key, nested values untouched, and has no others; a non-object payload is copied whole |
| Signing.JsObject.Spread | sign-server.js:26 | `{...obj}` holds exactly the properties spread copies |
| Signing.JsObject.Delete | sign-server.js:27 | `delete` removes exactly that key and nothing else |
| Signing.Sign | sign-server.js:25-41 | the specification of `signObject`: it succeeds exactly when the cleaned copy serialises and the key is well-formed; on success `stringToSign` is that serialisation; with a serialisable payload the only failure is the key error |
| Signing.SignObject | sign-server.js:25-41 | the result equals the `Sign` specification and the steps it takes are exactly `SignCalls`; the payload is a value, and only the fresh copy is mutated |
| Signing.SignCalls | sign-server.js:29-39 | the steps start with serialising the cleaned copy; a serialisation failure stops there; otherwise the second step hashes exactly the serialised string and the third checks the key; all six steps are taken exactly when signing succeeds |
| Signing.CopyWithoutSignature | sign-server.js:26-27 | the spread copy with `signature` deleted equals `CleanCopy` of the payload |
| Signing.SignDigest | sign-server.js:32-39 | the base64 text is the encoded low-s signature of the string's hash under the key, after the steps sign, DER, base64 in that order |
| Signing.CallStringify | sign-server.js:29 | trace plumbing for `SignObject`, no promise of its own: returns the serialisation of the copy and records that step |
| Signing.CallKeccak | sign-server.js:30 | trace plumbing for `SignObject`, no promise of its own: returns the Keccak-256 digest of the string and records that step |
| Signing.CallMustPK | sign-server.js:32 | trace plumbing for `SignObject`, no promise of its own: returns `MustPK` of the key and records the key check |
| Signing.CallEcSign | sign-server.js:32 | trace plumbing for `SignObject`, no promise of its own: returns the library signature of the digest under the decoded key and records that step |
| Signing.CallToDER | sign-server.js:39 | trace plumbing for `SignObject`, no promise of its own: returns the DER encoding of (r, s) and records that step |
| Signing.CallBase64 | sign-server.js:39 | trace plumbing for `SignObject`, no promise of its own: returns the base64 text of the DER bytes and records that step |
| Signing.SignedStringIsHashedString | sign-server.js:29-40 | on success `stringToSign` is the serialisation of the cleaned copy, and `signature` is the encoded low-s signature of exactly that string's Keccak-256 hash under the stripped key |
| Signing.StringifyFailureComesFirst | sign-server.js:29-32 | a serialisation failure is the result whatever the key |
| Signing.MalformedKeyFails | sign-server.js:16-17 | with a serialisable payload and a key of neither shape, the result is the key error, never a signature |
| Signing.EmittedSignatureIsLowS | sign-server.js:32-39 | if the library's s lies in 1..n−1, the encoded signature carries 0 < s ≤ floor(n/2) |
| Signing.SignIgnoresSignatureField | sign-server.js:26-27 | adding or replacing a top-level `signature` property does not change the result |
| Signing.SignDependsOnlyOnCleanCopy | sign-server.js:26-29 | two payloads whose own properties agree except on `signature` sign identically |
| SignRoute.PayloadOf | sign-server.js:49 | the payload is the body's `payload` property, or undefined when the body is missing, not an object, or lacks it |
| SignRoute.AcceptsPayload | sign-server.js:50 | the payload passes exactly when it is a JSON object or an array |
| SignRoute.HandleSign | sign-server.js:47-56 | a rejected payload gives 400 with the payload message; an accepted payload that signs gives 200 with exactly the signing result; one whose signing throws gives 400 with what was thrown |
| PubkeyRoute.LeadingSpace | sign-server.js:61 | counts the whitespace prefix: all of it is whitespace and the next character is not |
| PubkeyRoute.TrailingSpace | sign-server.js:61 | counts the whitespace suffix: all of it is whitespace and the character before is not |
| PubkeyRoute.Trim | sign-server.js:61 | the result is the input from its first non-whitespace character on, with only whitespace after it; it neither starts nor ends with whitespace; it is empty exactly when the input is all whitespace; an already trimmed string is unchanged |
| PubkeyRoute.CheckAddress | sign-server.js:61-63 | succeeds exactly when the trimmed string starts with `client|` or `eth|`, returning the trimmed address; a missing or falsy parameter gives the address error; a truthy non-string parameter gives a TypeError |
| PubkeyRoute.StripCrLfQuote | sign-server.js:76 | the result is no longer than the text, has no `\r`, `\n` or `"`, and equals a text that has none of the three |
| PubkeyRoute.StripDistributes | sign-server.js:76 | stripping a concatenation is the concatenation of the stripped parts, so the kept characters stay in order |
| PubkeyRoute.StripKeepsOtherCharacters | sign-server.js:76 | every other character occurs in the result as often as in the text |
| PubkeyRoute.SelectPublicKey | sign-server.js:70-77 | a non-empty JSON string is the key; for an object a truthy `publicKey` wins, then a truthy `data`, and with neither the stripped text; a parse failure, null, a number, a boolean, an array or an empty string also gives the stripped text |
| PubkeyRoute.HandlePubkey | sign-server.js:59-81 | a bad address or a failed lookup gives 400 with that error; a lookup that returns text always answers 200 with the key selected from that text for the trimmed address |

## Left out

- HTTP plumbing is not modelled (sign-server.js:9-11, 44, 83-87): Express setup, CORS, the 1 MB body limit, `/health`, `app.listen` and console logging.
- The lookup's network call (sign-server.js:64-69) is the `lookup` parameter of `HandlePubkey`. It maps the trimmed address to the reply text or to what was thrown. `JSON.parse` is the `jsonParse` parameter.
- The foreign library calls are fields of `Signing.Library`, left uninterpreted: json-stringify-deterministic, `keccak256.digest(Buffer.from(str))`, `Buffer.from(hex, 'hex')`, secp256k1 `ec.sign`, `sig.toDER()` and base64. Keccak, curve arithmetic, RFC 6979 nonces, DER and base64 are not modelled. So key-order invariance and type-distinguishing serialisation are not proved here. Holding payloads as maps only makes insertion order irrelevant by construction.
- Buffer decoding of the 65-character `0`-led key is part of `hexToBytes`. Node reads it as 32 bytes from the first 64 digits, so the key used is not the one the user meant. That is library behaviour and is not modelled.
- `process.env.GALA_PK_HEX` (sign-server.js:14) is read once into an immutable parameter `pk`. An unset variable is the empty string.
- Error responses carry the thrown value (`Thrown`). The text `String(e.message || e)` is not computed, and a TypeError's message is the engine's.
- LowS.Normalize: the recovery parameter becomes `1 - p` as written, so p = 2 or 3 gives −1 or −2, outside {0..3}. `Normalize` states this exact value. The "stays in {0,1}" property holds only for p in {0, 1}. `toDER` never encodes p, so the output is unaffected.
- JavaScript strings are UTF-16. Here a string is a sequence of Unicode scalar values. So spreading a string with astral characters, and `trim`, are modelled per code point, not per code unit.
- JSON numbers are exact reals. The model never computes with them and reads them only for truthiness. NaN cannot come from JSON.
- A parameter parsed by the query-string library as an array or object is the `Arr`/`Obj` case of `JsValue`. Either one makes `trim` throw a TypeError.
