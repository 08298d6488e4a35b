/** The entry points as the source writes them: three separate passes over
    the attribute object, each with its own counter, then serialisation,
    hashing and signing, with every failure caught at the end. Each pass is
    proved equal to its index-zip counterpart in `Pipeline`. */
module AttributeSigning {
  import opened Results
  import opened Octets
  import opened JsValue
  import opened CryptoProvider
  import opened Classification
  import opened Pipeline

  /** First pass: one request for 16 random bytes per protected attribute,
      then all of them awaited together. */
  method GenerateIvs<K>(p: Provider<K>, fields: seq<Field>) returns (r: Result<seq<Bytes>, Stage>)
    ensures r == DrawIvs(p, |ProtectedFields(fields)|)
  {
    var pending: seq<Option<Bytes>> := [];
    var j := 0;
    while j < |fields|
      invariant 0 <= j <= |fields|
      invariant |pending| == Rank(fields, j)
      invariant forall k :: 0 <= k < |pending| ==> pending[k] == p.getRandomValues(k, IvLength)
    {
      RankNext(fields, j);
      if IsProtected(fields[j].0) {
        pending := pending + [p.getRandomValues(|pending|, IvLength)];
      }
      j := j + 1;
    }
    RankAll(fields);
    var ivs := All(pending);
    if ivs.None? {
      return Failure(RandomSource);
    }
    ghost var expected := DrawIvs(p, |pending|);
    assert expected.Success?;
    assert |expected.value| == |ivs.value|;
    assert forall k :: 0 <= k < |pending| ==> expected.value[k] == ivs.value[k];
    assert expected.value == ivs.value;
    return Success(ivs.value);
  }

  /** Second pass: the counter `i` advances only on protected attributes, and
      the attribute it has reached is encrypted under IV `i` with its own name
      as additional data. A value `JSON.stringify` cannot turn into a string
      throws at once. */
  method EncryptProtected<K>(p: Provider<K>, key: K, fields: seq<Field>, ivs: seq<Bytes>) returns (r: Result<seq<Bytes>, Stage>)
    requires |ivs| == |ProtectedFields(fields)|
    ensures r == Seal(p, key, ProtectedFields(fields), ivs)
  {
    ghost var prot := ProtectedFields(fields);
    var pending: seq<Option<Bytes>> := [];
    var i := 0;
    var j := 0;
    while j < |fields|
      invariant 0 <= j <= |fields|
      invariant i == Rank(fields, j) == |pending|
      invariant i <= |prot|
      invariant forall k :: 0 <= k < i ==>
        EncodeValue(p, prot[k].1).Some? &&
        pending[k] == p.encrypt(key, ivs[k], EncodeValue(p, prot[k].1).value, p.utf8(prot[k].0))
    {
      RankNext(fields, j);
      var (name, value) := fields[j];
      if IsProtected(name) {
        RankPairing(fields, j);
        assert prot[i] == (name, value);
        var text := p.stringify(value);
        if text.None? {
          SealSerializationFailure(p, key, prot, ivs, i);
          return Failure(Serialization);
        }
        assert EncodeValue(p, prot[i].1) == Some(p.utf8(text.value));
        ghost var before := pending;
        pending := pending + [p.encrypt(key, ivs[i], p.utf8(text.value), p.utf8(name))];
        assert forall k :: 0 <= k < i ==> pending[k] == before[k];
        i := i + 1;
      }
      j := j + 1;
    }
    RankAll(fields);
    SealOfPending(p, key, prot, ivs, pending);
    var cts := All(pending);
    if cts.None? {
      return Failure(Encryption);
    }
    return Success(cts.value);
  }

  /** Third pass: names copied in order; a protected attribute, reached with
      counter `i`, gets the one-element list [base64(IV i ‖ ciphertext i)],
      any other attribute keeps its value. */
  method AssembleAttributes<K>(p: Provider<K>, fields: seq<Field>, ivs: seq<Bytes>, cts: seq<Bytes>) returns (out: seq<Field>)
    requires |ivs| == |cts| == |ProtectedFields(fields)|
    ensures out == Merge(fields, Tokens(p, ivs, cts))
  {
    ghost var tokens := Tokens(p, ivs, cts);
    out := [];
    var i := 0;
    var j := 0;
    while j < |fields|
      invariant 0 <= j <= |fields|
      invariant i == Rank(fields, j)
      invariant |out| == j
      invariant forall k :: 0 <= k < j ==> out[k] == MergedField(fields, tokens, k)
    {
      RankNext(fields, j);
      var (name, value) := fields[j];
      if IsProtected(name) {
        RankPairing(fields, j);
        out := out + [(name, SealedValue(p.base64(ivs[i] + cts[i])))];
        i := i + 1;
      } else {
        out := out + [(name, value)];
      }
      j := j + 1;
    }
  }

  /** The promise chain: validate, import the key, the three passes,
      serialise once, hash that string, sign the hash. */
  method BuildSignedAttributes<K>(p: Provider<K>, attributes: Value, keyRef: string, sep: Profile, nonce: Bytes, cid: string)
    returns (r: Result<Bundle, Stage>)
    ensures r == Protect(p, attributes, keyRef, sep, nonce, cid)
  {
    var fields :- AttributeFields(attributes);
    var key :- ImportKey(p, sep);
    var ivs :- GenerateIvs(p, fields);
    var cts :- EncryptProtected(p, key, fields, ivs);
    var assembled := AssembleAttributes(p, fields, ivs, cts);
    var attrs :- Serialize(p, assembled);
    var digest :- Hash(p, attrs);
    var cipher := p.encrypt(key, nonce, digest, p.utf8(SignatureAad(cid, keyRef)));
    if cipher.None? {
      return Failure(Encryption);
    }
    return Success(Bundle(attrs, p.base64(nonce + cipher.value)));
  }

  /** `addAttributes`: the chain, with any failure caught and answered by the
      uniform UNKNOWN response. */
  method AddAttributes<K>(p: Provider<K>, attributes: Value, keyRef: string, sep: Profile, nonce: Bytes, cid: string)
    returns (resp: Response)
    ensures resp.ErrorResponse? <==> Protect(p, attributes, keyRef, sep, nonce, cid).Failure?
    ensures resp.ErrorResponse? ==> resp.code == Unknown
    ensures resp.Signed? ==> Protect(p, attributes, keyRef, sep, nonce, cid) == Success(Bundle(resp.attrs, resp.sig))
  {
    var r := BuildSignedAttributes(p, attributes, keyRef, sep, nonce, cid);
    match r {
      case Success(bundle) =>
        resp := Signed(bundle.attrs, bundle.sig);
      case Failure(_) =>
        resp := ErrorResponse(Unknown);
    }
  }

  /** `addMutableAttributes`: `addAttributes` with the key reference behind
      the mutable marker. The marker's value lives in a constants file that is
      not part of this model, so it is a parameter. */
  method AddMutableAttributes<K>(p: Provider<K>, mutablePrefix: string, attributes: Value, keyRef: string, sep: Profile, nonce: Bytes, cid: string)
    returns (resp: Response)
    ensures resp == Respond(Protect(p, attributes, mutablePrefix + keyRef, sep, nonce, cid))
  {
    resp := AddAttributes(p, attributes, mutablePrefix + keyRef, sep, nonce, cid);
  }
}
