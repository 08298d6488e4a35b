/** The attribute-protection pipeline stated once, functionally: the
    protected attributes are listed once, in enumeration order, and zipped by
    index with the IVs and the ciphertexts. The stages run in sequence and the
    first failure ends the run. */
module Pipeline {
  import opened Results
  import opened Octets
  import opened JsValue
  import opened CryptoProvider
  import opened Classification

  /** Random bytes requested for the IV of each protected attribute. */
  const IvLength: nat := 16

  /** The stage at which a run failed; callers never see which one. */
  datatype Stage =
    | InvalidAttributes
    | KeyImport
    | RandomSource
    | Serialization
    | Encryption
    | Digest

  /** The secure enrollment profile; only its hex-encoded AES key is read.
      `None` stands for a missing profile or key field. */
  datatype Profile = Profile(kaAesKey: Option<string>)

  /** A successful run: the transmitted attribute string and its signature. */
  datatype Bundle = Bundle(attrs: string, sig: string)

  datatype ErrorCode = Unknown

  /** What the entry points resolve with. */
  datatype Response = Signed(attrs: string, sig: string) | ErrorResponse(code: ErrorCode)

  /** Everything a run computes before it signs. */
  datatype Prepared<K> = Prepared(
    key: K,
    fields: seq<Field>,
    ivs: seq<Bytes>,
    cts: seq<Bytes>,
    assembled: seq<Field>,
    attrs: string,
    digest: Bytes)

  /** The attribute argument as a list of fields: an absent or falsy argument
      is the empty object, a plain object is its fields, and anything whose
      `constructor` is not `Object` is refused. A plain object with an own
      `constructor` property is judged by that property instead, under the
      loose `!=` of the test. */
  function AttributeFields(attributes: Value): (r: Result<seq<Field>, Stage>)
    ensures r.Success? <==> Falsy(attributes) || (attributes.Obj? && ConstructorIsObject(attributes.fields))
    ensures r.Success? ==> r.value == if attributes.Obj? then attributes.fields else []
    ensures r.Failure? ==> r.error == InvalidAttributes
  {
    if Falsy(attributes) then Success([])
    else if attributes.Obj? && ConstructorIsObject(attributes.fields) then Success(attributes.fields)
    else Failure(InvalidAttributes)
  }

  function ImportKey<K>(p: Provider<K>, sep: Profile): Result<K, Stage> {
    match sep.kaAesKey
    case None => Failure(KeyImport)
    case Some(hex) =>
      match p.importKey(p.hexDecode(hex))
      case None => Failure(KeyImport)
      case Some(key) => Success(key)
  }

  /** One 16-byte draw per protected attribute, the k-th draw for the k-th. */
  function DrawIvs<K>(p: Provider<K>, n: nat): (r: Result<seq<Bytes>, Stage>)
    ensures r.Success? <==> forall k :: 0 <= k < n ==> p.getRandomValues(k, IvLength).Some?
    ensures r.Success? ==> |r.value| == n
    ensures r.Success? ==> forall k :: 0 <= k < n ==> p.getRandomValues(k, IvLength) == Some(r.value[k])
    ensures r.Failure? ==> r.error == RandomSource
  {
    var draws := seq(n, k requires 0 <= k => p.getRandomValues(k, IvLength));
    assert forall k :: 0 <= k < n ==> draws[k] == p.getRandomValues(k, IvLength);
    match All(draws)
    case None => Failure(RandomSource)
    case Some(ivs) => Success(ivs)
  }

  /** The bytes encrypted for an attribute value: its JSON text as UTF-8. */
  function EncodeValue<K>(p: Provider<K>, v: Value): Option<Bytes> {
    match p.stringify(v)
    case None => None
    case Some(s) => Some(p.utf8(s))
  }

  /** Encrypts the k-th protected value under the k-th IV, with the k-th
      protected name as additional data. A value that cannot be serialised
      fails the stage before any ciphertext is awaited. */
  function Seal<K>(p: Provider<K>, key: K, prot: seq<Field>, ivs: seq<Bytes>): (r: Result<seq<Bytes>, Stage>)
    requires |ivs| == |prot|
    ensures r.Success? ==> |r.value| == |prot|
    ensures r.Success? ==> forall k :: 0 <= k < |prot| ==>
      EncodeValue(p, prot[k].1).Some? &&
      p.encrypt(key, ivs[k], EncodeValue(p, prot[k].1).value, p.utf8(prot[k].0)) == Some(r.value[k])
    ensures r.Failure? ==> (r.error == Serialization <==> exists k :: 0 <= k < |prot| && EncodeValue(p, prot[k].1).None?)
    ensures r.Failure? ==> r.error in {Serialization, Encryption}
    ensures r.Failure? && r.error == Encryption ==>
      (exists k :: 0 <= k < |prot| && EncodeValue(p, prot[k].1).Some? &&
        p.encrypt(key, ivs[k], EncodeValue(p, prot[k].1).value, p.utf8(prot[k].0)).None?)
  {
    match All(seq(|prot|, k requires 0 <= k < |prot| => EncodeValue(p, prot[k].1)))
    case None => Failure(Serialization)
    case Some(data) =>
      match All(seq(|prot|, k requires 0 <= k < |prot| => p.encrypt(key, ivs[k], data[k], p.utf8(prot[k].0))))
      case None => Failure(Encryption)
      case Some(cts) => Success(cts)
  }

  /** A value that cannot be serialised fails the sealing stage as a
      serialisation failure, whatever the encryptions would have done. */
  lemma SealSerializationFailure<K>(p: Provider<K>, key: K, prot: seq<Field>, ivs: seq<Bytes>, i: nat)
    requires |ivs| == |prot| && i < |prot| && EncodeValue(p, prot[i].1).None?
    ensures Seal(p, key, prot, ivs) == Failure(Serialization)
  {
  }

  /** Once every value is serialised, sealing is exactly waiting for the
      encryptions issued in protected order. */
  lemma SealOfPending<K>(p: Provider<K>, key: K, prot: seq<Field>, ivs: seq<Bytes>, pending: seq<Option<Bytes>>)
    requires |ivs| == |prot| == |pending|
    requires forall k :: 0 <= k < |prot| ==> EncodeValue(p, prot[k].1).Some?
    requires forall k :: 0 <= k < |prot| ==>
      pending[k] == p.encrypt(key, ivs[k], EncodeValue(p, prot[k].1).value, p.utf8(prot[k].0))
    ensures All(pending).None? ==> Seal(p, key, prot, ivs) == Failure(Encryption)
    ensures All(pending).Some? ==> Seal(p, key, prot, ivs) == Success(All(pending).value)
  {
    var r := Seal(p, key, prot, ivs);
    if All(pending).Some? {
      var cts := All(pending).value;
      assert r.Success?;
    }
  }

  /** The value that replaces a protected attribute's value. */
  function SealedValue(token: string): Value {
    Arr([Str(token)])
  }

  /** base64(IV ‖ ciphertext) for each protected attribute. */
  function Tokens<K>(p: Provider<K>, ivs: seq<Bytes>, cts: seq<Bytes>): seq<string>
    requires |ivs| == |cts|
  {
    seq(|ivs|, k requires 0 <= k < |ivs| => p.base64(ivs[k] + cts[k]))
  }

  function MergedField(fields: seq<Field>, tokens: seq<string>, j: nat): Field
    requires j < |fields| && |tokens| == |ProtectedFields(fields)|
  {
    if IsProtected(fields[j].0) then
      RankPairing(fields, j);
      (fields[j].0, SealedValue(tokens[Rank(fields, j)]))
    else fields[j]
  }

  /** The attribute object that is serialised: same names in the same order,
      a protected attribute's value replaced by the token of its index. */
  function Merge(fields: seq<Field>, tokens: seq<string>): seq<Field>
    requires |tokens| == |ProtectedFields(fields)|
  {
    seq(|fields|, j requires 0 <= j < |fields| => MergedField(fields, tokens, j))
  }

  function Serialize<K>(p: Provider<K>, assembled: seq<Field>): Result<string, Stage> {
    match p.stringify(Obj(assembled))
    case None => Failure(Serialization)
    case Some(s) => Success(s)
  }

  /** SHA-256 of the UTF-8 bytes of the very string that is transmitted. */
  function Hash<K>(p: Provider<K>, attrs: string): Result<Bytes, Stage> {
    match p.digest(p.utf8(attrs))
    case None => Failure(Digest)
    case Some(d) => Success(d)
  }

  /** Every stage before signing; none of them reads the key reference. */
  function Prepare<K>(p: Provider<K>, attributes: Value, sep: Profile): Result<Prepared<K>, Stage> {
    var fields :- AttributeFields(attributes);
    var key :- ImportKey(p, sep);
    var prot := ProtectedFields(fields);
    var ivs :- DrawIvs(p, |prot|);
    var cts :- Seal(p, key, prot, ivs);
    var assembled := Merge(fields, Tokens(p, ivs, cts));
    var attrs :- Serialize(p, assembled);
    var digest :- Hash(p, attrs);
    Success(Prepared(key, fields, ivs, cts, assembled, attrs, digest))
  }

  /** The signature's additional data: conversation id and key reference
      joined by a colon. */
  function SignatureAad(cid: string, keyRef: string): string {
    cid + ":" + keyRef
  }

  /** Encrypts the digest under the caller's nonce and emits
      base64(nonce ‖ ciphertext) beside the transmitted attribute string. */
  function Sign<K>(p: Provider<K>, prep: Prepared<K>, nonce: Bytes, cid: string, keyRef: string): Result<Bundle, Stage> {
    match p.encrypt(prep.key, nonce, prep.digest, p.utf8(SignatureAad(cid, keyRef)))
    case None => Failure(Encryption)
    case Some(ct) => Success(Bundle(prep.attrs, p.base64(nonce + ct)))
  }

  /** The whole pipeline, with the failing stage kept. */
  function Protect<K>(p: Provider<K>, attributes: Value, keyRef: string, sep: Profile, nonce: Bytes, cid: string): Result<Bundle, Stage> {
    var prep :- Prepare(p, attributes, sep);
    Sign(p, prep, nonce, cid, keyRef)
  }

  /** The boundary: every failure becomes the same UNKNOWN response. */
  function Respond(r: Result<Bundle, Stage>): Response {
    match r
    case Success(b) => Signed(b.attrs, b.sig)
    case Failure(_) => ErrorResponse(Unknown)
  }
}
