/** The cryptographic and encoding services the pipeline calls but does not
    implement. Each one is an uninterpreted function supplied by the caller;
    the model reasons only about the arguments each receives. `None` stands
    for a call that throws or whose promise rejects. */
module CryptoProvider {
  import opened Results
  import opened Octets
  import opened JsValue

  /** `K` is the type of an imported, non-extractable AES-GCM key. */
  datatype Provider<!K> = Provider(
    /** Import raw key bytes as an AES-GCM key for encrypt and decrypt. */
    importKey: Bytes -> Option<K>,
    /** The random source as a tape: the bytes returned by the `draw`-th
        request for `length` random bytes. */
    getRandomValues: (nat, nat) -> Option<Bytes>,
    /** AES-GCM encryption of (key, iv, data, additional data), giving the
        ciphertext followed by its tag. */
    encrypt: (K, Bytes, Bytes, Bytes) -> Option<Bytes>,
    /** SHA-256 of the given bytes. */
    digest: Bytes -> Option<Bytes>,
    /** Decoding of a hexadecimal string (lenient, as Node's `Buffer` is). */
    hexDecode: string -> Bytes,
    /** UTF-8 encoding of a string. */
    utf8: string -> Bytes,
    /** Base64 encoding of bytes. */
    base64: Bytes -> string,
    /** `JSON.stringify`; `None` when it throws or yields no string. */
    stringify: Value -> Option<string>
  )
}
