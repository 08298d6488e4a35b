# Signed, selectively encrypted key attributes — a Dafny model

This project models `addAttributes` and `addMutableAttributes` of the Ionic
JavaScript SDK (`sdk/common/AddAttributes.js`). Given a key-attribute object,
a key reference, a secure enrollment profile (SEP), a caller nonce and a
conversation id, the pipeline:

1. treats an absent or falsy argument as `{}` and refuses anything that is not
   a plain object;
2. imports the SEP's hex-encoded AES key;
3. draws one 16-byte IV per protected attribute (a name starting with
   `ionic-protected-`, or exactly `ionic-integrity-hash`);
4. encrypts each protected value's JSON text under its IV, with the
   attribute's own name as AES-GCM additional data;
5. rebuilds the object: plaintext values unchanged, each protected value
   replaced by `[base64(IV ‖ ciphertext)]`;
6. serialises that object once to `attrs` and hashes exactly that string;
7. encrypts the digest under the nonce with additional data `cid:keyRef` and
   returns `sig = base64(nonce ‖ ciphertext)` beside `attrs`;
8. answers every failure with one uniform UNKNOWN error response.

`addMutableAttributes` is `addAttributes` with the key reference behind a
fixed marker.

## Structure

- `results.dfy` (`Results`): `Option`, `Result`, and `All`, the
  all-or-nothing wait that `Promise.all` performs.
- `octets.dfy` (`Octets`): bytes.
- `js_value.dfy` (`JsValue`): the JavaScript values a caller can pass. A
  plain object is a sequence of fields in enumeration order.
- `crypto_provider.dfy` (`CryptoProvider`): the injected services. These are
  key import, random bytes, AES-GCM encryption, SHA-256, hex, UTF-8, base64
  and `JSON.stringify`. Each is an uninterpreted function. The model states
  only which arguments each receives. The random source is a tape: the k-th
  request of a run reads entry k. The key type is a type parameter.
- `classification.dfy` (`Classification`): the protected-name test, the
  ordered list of protected attributes, and `Rank`. `Rank` is the value the
  source's counter `i` has when a pass reaches a given position.
- `pipeline.dfy` (`Pipeline`): the reference pipeline. It computes the
  protected list once and pairs IVs and ciphertexts with it by index. It
  keeps the failing stage internally (`Stage`). `Respond` collapses every
  stage to the one UNKNOWN code.
- `attribute_signing.dfy` (`AttributeSigning`): the entry points written as
  the source writes them. There are three separate enumerations, each with
  its own counter. Each pass is proved equal to its reference counterpart.
  So, for an attribute object that does not change during the run, the i-th
  IV and the i-th ciphertext land on the i-th protected attribute.
- `properties.dfy` (`Properties`): the properties the pipeline promises.

## Model

| member | source | states |
|---|---|---|
| `Results.All` | sdk/common/AddAttributes.js:79 | Waiting for all pending results succeeds exactly when each one succeeded, with the values in issue order. |
| `Classification.ProtectedFields` | sdk/common/AddAttributes.js:73-77 | The protected list holds only attributes whose name has the `ionic-protected-` prefix or is `ionic-integrity-hash`. |
| `Classification.ProtectedFieldsMembers` | sdk/common/AddAttributes.js:74 | An attribute is in the protected list iff it is one of the attributes and its name passes the protected test. |
| `Classification.RankNext` | sdk/common/AddAttributes.js:87-98 | The per-pass counter advances by one at a protected attribute and stays put at any other. |
| `Classification.RankPairing` | sdk/common/AddAttributes.js:107-113 | The protected attribute at position j is entry `Rank(j)` of the protected list, and that index is within the list. |
| `Classification.RankStrictlyIncreasing` | sdk/common/AddAttributes.js:88-98 | A later attribute is given a strictly larger counter value than any earlier protected one. |
| `Classification.RankOnto` | sdk/common/AddAttributes.js:107-113 | Every index below the number of protected attributes is the counter value of some protected attribute. |
| `Classification.ProtectedNamesDistinct` | sdk/common/AddAttributes.js:95 | Distinct attribute names give a protected list with distinct names, so distinct additional data. |
| `Pipeline.DrawIvs` | sdk/common/AddAttributes.js:73-79 | The IV stage succeeds iff each of the n 16-byte draws succeeds. The k-th IV is then the k-th draw, and a failure is a random-source failure. |
| `Pipeline.Seal` | sdk/common/AddAttributes.js:86-100 | Ciphertext k is the encryption under IV k of protected value k's JSON text, with protected name k as additional data. A serialisation failure wins over an encryption failure. |
| `Pipeline.SealSerializationFailure` | sdk/common/AddAttributes.js:93 | A protected value that cannot be serialised fails the stage as a serialisation failure. |
| `Pipeline.SealOfPending` | sdk/common/AddAttributes.js:100 | Once every value serialises, sealing is waiting for the encryptions issued in protected order. |
| `AttributeSigning.GenerateIvs` | sdk/common/AddAttributes.js:67-80 | The first enumeration issues exactly one 16-byte request per protected attribute and equals the reference IV stage. |
| `AttributeSigning.EncryptProtected` | sdk/common/AddAttributes.js:82-101 | The second enumeration, with its own counter, equals the index-zip sealing of the protected list with the IVs. |
| `AttributeSigning.AssembleAttributes` | sdk/common/AddAttributes.js:103-118 | The third enumeration, with its own counter, builds exactly the reference object: names in order, protected values replaced by the token of their index. |
| `AttributeSigning.BuildSignedAttributes` | sdk/common/AddAttributes.js:48-145 | The whole promise chain yields the reference pipeline's result, failing stage included. |
| `AttributeSigning.AddAttributes` | sdk/common/AddAttributes.js:44-151 | The response is an error iff the pipeline fails, its code is then UNKNOWN, and a signed response carries exactly the pipeline's bundle. |
| `AttributeSigning.AddMutableAttributes` | sdk/common/AddAttributes.js:30-32 | The mutable entry point answers as the reference pipeline does for the marker-prefixed key reference. |
| `Properties.FieldsOfArgument` | sdk/common/AddAttributes.js:50-52 | A successful run works on the argument's own fields, or on none when the argument is falsy. |
| `Properties.IvPerProtectedAttribute` | sdk/common/AddAttributes.js:73-79 | There are as many IVs and ciphertexts as protected attributes, and IV k is 16-byte draw k. |
| `Properties.IndexPairing` | sdk/common/AddAttributes.js:87-113 | After successful IV and sealing stages, the protected attribute at position j uses IV `Rank(j)`. Its ciphertext `Rank(j)` encrypts its own JSON value with its own name as additional data. Its assembled value is `[base64(IV ‖ ciphertext)]` of that index. |
| `Properties.IvsNotShared` | sdk/common/AddAttributes.js:87-97 | Two different protected attributes never use the same IV draw. |
| `Properties.EveryIvUsed` | sdk/common/AddAttributes.js:107-113 | Every IV drawn ends up, with its ciphertext, on some protected attribute of the assembled object. |
| `Properties.AssemblyShape` | sdk/common/AddAttributes.js:105-118 | The assembled object has the input's names in the input's order, and every non-protected attribute is copied unchanged. |
| `Properties.AadsDistinct` | sdk/common/AddAttributes.js:90-96 | With distinct attribute names, as an object's are, ciphertexts a and b are bound to the names of protected attributes a and b, and those names differ. |
| `Properties.TransmittedIsHashed` | sdk/common/AddAttributes.js:120-143 | `attrs` is the serialisation of the assembled object, and its UTF-8 bytes are what is hashed. `sig` is base64(nonce ‖ encryption of that digest under the nonce with additional data `cid:keyRef`). |
| `Properties.MutableOnlyChangesSignatureAad` | sdk/common/AddAttributes.js:30-32 | The mutable run fails alike before signing and transmits the same `attrs`. For a non-empty marker it signs under different additional data. |
| `Properties.ColonIndexOfAad` | sdk/common/AddAttributes.js:135 | In `cid:keyRef` with a colon-free `cid`, the first colon sits right after `cid`. |
| `Properties.SignatureAadUnambiguous` | sdk/common/AddAttributes.js:135 | With colon-free conversation ids, equal signature data means equal conversation id and equal key reference. |
| `Properties.SignatureAadAmbiguousWithColon` | sdk/common/AddAttributes.js:135 | A colon inside the conversation id lets two different (cid, keyRef) pairs share signature data. |
| `Properties.AbsentIsEmpty` | sdk/common/AddAttributes.js:50-52 | An absent or falsy argument behaves exactly as the empty object. |
| `Properties.InvalidAttributesRefused` | sdk/common/AddAttributes.js:54-56 | A truthy non-plain-object argument is refused before key import, and the caller sees only UNKNOWN. So is a plain object whose own `constructor` property is not loosely equal to `Object`. |
| `Properties.ShadowingConstructorAccepted` | sdk/common/AddAttributes.js:54 | An own `constructor` property holding the text of `Object` passes the loose `!=` test and travels unchanged as a plaintext attribute. |

Points where the code's behaviour is narrower or looser than its JSDoc
(lines 20-43 and 160-169) suggests:

- The JSDoc describes a response that may carry an `error` message. Every
  failure, whatever its cause, gets the same UNKNOWN code. The model keeps
  the failing stage only internally, as `Stage`.
- The JSDoc calls the nonce an initialization vector. The code never checks
  its length, and neither does the model.
- The attribute test is `objKeyAttributes.constructor != Object`, a loose
  comparison. An own `constructor` property shadows `Object`. Such an object
  passes only when the property is loosely equal to `Object`. Among the
  modelled values, that holds only for the string V8 gives for `Object`,
  `"function Object() { [native code] }"`. The model accepts exactly that.

## Left out

- `sdk/wrapper/IonicAssertion.js`: the enrollment HTTP exchange is network plumbing with no pipeline logic.
- AES-GCM, SHA-256, random bytes, key import, hex, UTF-8, base64 and `JSON.stringify` are uninterpreted. Decryption, tag checks and ciphertext lengths are therefore not stated.
- The random source is a tape. Freshness of the draws, and so IV and nonce uniqueness across runs, are outside the model.
- Key-length checks happen inside key import and appear only as a possible `KeyImport` failure.
- A `ka_aes_key` that is not a string is treated as missing, so the run fails. Node would accept an array or buffer there.
- `Buffer.from(hash, 'hex')`: the digest is handed to the signer as the bytes the provider returns. The hex round trip belongs to the provider, which is not part of this model.
- `AttributeSigning.AddMutableAttributes`: the marker `STRINGS.MUTABLE_PREFIX` is a parameter, because the constants file is not part of this model.
- The `objAttrs ? … : ''` fallback is not modelled, because `objAttrs` is always an object.
- Promise timing is not modelled. The run is sequential. When a value fails to serialise, earlier encryptions still in flight are ignored. `Promise.all` is reduced to "all succeed, in issue order".
- Numbers are integers. NaN and BigInt `0n` are not modelled as falsy. A `__proto__` attribute name is treated as an ordinary field.
- `cid` and `keyRef` are strings. Array `join` would turn `undefined` or `null` into an empty string.
- `console.error` logging and the body of `customErrorResponse` are not modelled. Only the UNKNOWN code is.
- The attribute object is assumed unchanged across the three passes. In the code, each pass runs in its own `.then` callback after an await and enumerates the caller's object again. If the caller adds or deletes protected attributes in between, ciphertexts can land on attributes other than the ones whose names they were sealed with. The model reads one snapshot.
- The nonce is assumed to be a `Buffer` or `Uint8Array`. The JSDoc allows any `BufferSource`, but `Buffer.concat` throws for an `ArrayBuffer`, a `DataView` or any other typed array. The code then answers UNKNOWN after the signature was computed. The model signs instead.
- `Properties.InvalidAttributesRefused`: an own `constructor` property holding a function value, `Object` itself included, has no representation, because values are data only. So the case where such an object passes the test is not covered.
- The string form of `Object` is engine-specific. The model uses V8's.
