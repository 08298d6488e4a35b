/** Properties of the attribute-protection pipeline, proved about the
    index-zip definition that the source's three passes are shown to equal. */
module Properties {
  import opened Results
  import opened Octets
  import opened JsValue
  import opened CryptoProvider
  import opened Classification
  import opened Pipeline

  /** The fields a successful run works on are the argument's own fields, in
      order; an absent or falsy argument contributes none. */
  lemma FieldsOfArgument<K>(p: Provider<K>, attributes: Value, sep: Profile, w: Prepared<K>)
    requires Prepare(p, attributes, sep) == Success(w)
    ensures attributes.Obj? ==> w.fields == attributes.fields
    ensures !attributes.Obj? ==> Falsy(attributes) && w.fields == []
  {
  }

  /** Exactly one 16-byte draw per protected attribute: the k-th IV is the
      k-th draw. */
  lemma IvPerProtectedAttribute<K>(p: Provider<K>, attributes: Value, sep: Profile, w: Prepared<K>)
    requires Prepare(p, attributes, sep) == Success(w)
    ensures |w.ivs| == |w.cts| == |ProtectedFields(w.fields)|
    ensures forall k :: 0 <= k < |w.ivs| ==> p.getRandomValues(k, IvLength) == Some(w.ivs[k])
  {
  }

  /** A successful preparation is the sequence of its stages' successes. */
  lemma PreparedStages<K>(p: Provider<K>, attributes: Value, sep: Profile, w: Prepared<K>)
    requires Prepare(p, attributes, sep) == Success(w)
    ensures AttributeFields(attributes) == Success(w.fields)
    ensures ImportKey(p, sep) == Success(w.key)
    ensures DrawIvs(p, |ProtectedFields(w.fields)|) == Success(w.ivs)
    ensures Seal(p, w.key, ProtectedFields(w.fields), w.ivs) == Success(w.cts)
    ensures w.assembled == Merge(w.fields, Tokens(p, w.ivs, w.cts))
    ensures Serialize(p, w.assembled) == Success(w.attrs)
    ensures Hash(p, w.attrs) == Success(w.digest)
  {
  }

  /** Index pairing: the protected attribute at position j, being the k-th
      protected one met, is encrypted under the k-th IV, with its own JSON
      value as data and its own name as additional data, and its value in
      the assembled object is [base64(IV k ‖ ciphertext k)]. */
  lemma IndexPairing<K>(p: Provider<K>, key: K, fields: seq<Field>, ivs: seq<Bytes>, cts: seq<Bytes>, j: nat)
    requires DrawIvs(p, |ProtectedFields(fields)|) == Success(ivs)
    requires Seal(p, key, ProtectedFields(fields), ivs) == Success(cts)
    requires j < |fields| && IsProtected(fields[j].0)
    ensures Rank(fields, j) < |ivs| == |cts|
    ensures p.getRandomValues(Rank(fields, j), IvLength) == Some(ivs[Rank(fields, j)])
    ensures EncodeValue(p, fields[j].1).Some?
    ensures p.encrypt(key, ivs[Rank(fields, j)], EncodeValue(p, fields[j].1).value, p.utf8(fields[j].0))
            == Some(cts[Rank(fields, j)])
    ensures Merge(fields, Tokens(p, ivs, cts))[j]
            == (fields[j].0, SealedValue(p.base64(ivs[Rank(fields, j)] + cts[Rank(fields, j)])))
  {
    RankPairing(fields, j);
  }

  /** Two different protected attributes never share an IV draw. */
  lemma IvsNotShared(fields: seq<Field>, i: nat, j: nat)
    requires i < |fields| && j < |fields| && i != j
    requires IsProtected(fields[i].0) && IsProtected(fields[j].0)
    ensures Rank(fields, i) != Rank(fields, j)
  {
    if i < j {
      RankStrictlyIncreasing(fields, i, j);
    } else {
      RankStrictlyIncreasing(fields, j, i);
    }
  }

  /** Every IV drawn ends up in the assembled object, on some protected
      attribute. */
  lemma EveryIvUsed<K>(p: Provider<K>, attributes: Value, sep: Profile, w: Prepared<K>, k: nat)
    requires Prepare(p, attributes, sep) == Success(w)
    requires k < |w.ivs|
    ensures exists j :: (0 <= j < |w.fields| && IsProtected(w.fields[j].0) && Rank(w.fields, j) == k &&
      w.assembled[j].1 == SealedValue(p.base64(w.ivs[k] + w.cts[k])))
  {
    PreparedStages(p, attributes, sep, w);
    RankOnto(w.fields, k);
    var j :| 0 <= j < |w.fields| && IsProtected(w.fields[j].0) && Rank(w.fields, j) == k;
    IndexPairing(p, w.key, w.fields, w.ivs, w.cts, j);
  }

  /** The assembled object has the argument's names in the argument's order,
      and every attribute that is not protected keeps its value. */
  lemma AssemblyShape<K>(p: Provider<K>, attributes: Value, sep: Profile, w: Prepared<K>)
    requires Prepare(p, attributes, sep) == Success(w)
    ensures |w.assembled| == |w.fields|
    ensures forall j :: 0 <= j < |w.fields| ==> w.assembled[j].0 == w.fields[j].0
    ensures forall j :: 0 <= j < |w.fields| && !IsProtected(w.fields[j].0) ==> w.assembled[j] == w.fields[j]
  {
    PreparedStages(p, attributes, sep, w);
    forall j | 0 <= j < |w.fields|
      ensures w.assembled[j].0 == w.fields[j].0
    {
      if IsProtected(w.fields[j].0) {
        IndexPairing(p, w.key, w.fields, w.ivs, w.cts, j);
      }
    }
  }

  /** With distinct attribute names (as an object's are), the ciphertexts
      are bound to pairwise distinct additional data. */
  lemma AadsDistinct<K>(p: Provider<K>, key: K, fields: seq<Field>, ivs: seq<Bytes>, cts: seq<Bytes>)
    requires UniqueNames(fields)
    requires |ivs| == |ProtectedFields(fields)|
    requires Seal(p, key, ProtectedFields(fields), ivs) == Success(cts)
    ensures forall a, b :: 0 <= a < b < |cts| ==>
      p.encrypt(key, ivs[a], EncodeValue(p, ProtectedFields(fields)[a].1).value, p.utf8(ProtectedFields(fields)[a].0)) == Some(cts[a]) &&
      p.encrypt(key, ivs[b], EncodeValue(p, ProtectedFields(fields)[b].1).value, p.utf8(ProtectedFields(fields)[b].0)) == Some(cts[b]) &&
      ProtectedFields(fields)[a].0 != ProtectedFields(fields)[b].0
  {
    ProtectedNamesDistinct(fields);
  }

  /** The transmitted string is the serialised assembled object, its UTF-8
      bytes are what is hashed, and the signature is
      base64(nonce ‖ encryption of that digest under the nonce, with
      `cid:keyRef` as additional data). */
  lemma TransmittedIsHashed<K>(p: Provider<K>, attributes: Value, keyRef: string, sep: Profile, nonce: Bytes, cid: string, b: Bundle)
    requires Protect(p, attributes, keyRef, sep, nonce, cid) == Success(b)
    ensures Prepare(p, attributes, sep).Success?
    ensures p.stringify(Obj(Prepare(p, attributes, sep).value.assembled)) == Some(b.attrs)
    ensures p.digest(p.utf8(b.attrs)) == Some(Prepare(p, attributes, sep).value.digest)
    ensures p.encrypt(Prepare(p, attributes, sep).value.key, nonce, Prepare(p, attributes, sep).value.digest,
                      p.utf8(cid + ":" + keyRef)).Some?
    ensures b.sig == p.base64(nonce + p.encrypt(Prepare(p, attributes, sep).value.key, nonce,
                                                Prepare(p, attributes, sep).value.digest, p.utf8(cid + ":" + keyRef)).value)
  {
  }

  /** The mutable entry point changes only the signature's additional data:
      both runs prepare the same attribute string, fail alike before
      signing, and, for a non-empty marker, sign under different data. */
  lemma MutableOnlyChangesSignatureAad<K>(p: Provider<K>, mutablePrefix: string, attributes: Value, keyRef: string, sep: Profile, nonce: Bytes, cid: string)
    ensures Prepare(p, attributes, sep).Failure? ==>
      Protect(p, attributes, mutablePrefix + keyRef, sep, nonce, cid) == Protect(p, attributes, keyRef, sep, nonce, cid)
    ensures Protect(p, attributes, mutablePrefix + keyRef, sep, nonce, cid).Success? &&
            Protect(p, attributes, keyRef, sep, nonce, cid).Success? ==>
      Protect(p, attributes, mutablePrefix + keyRef, sep, nonce, cid).value.attrs ==
      Protect(p, attributes, keyRef, sep, nonce, cid).value.attrs
    ensures mutablePrefix != [] ==> SignatureAad(cid, mutablePrefix + keyRef) != SignatureAad(cid, keyRef)
  {
    if mutablePrefix != [] {
      assert |SignatureAad(cid, mutablePrefix + keyRef)| > |SignatureAad(cid, keyRef)|;
    }
  }

  /** Position of the first colon in a string, or its length if none. */
  function ColonIndex(s: string): (r: nat)
    ensures r <= |s|
  {
    if |s| == 0 || s[0] == ':' then 0 else 1 + ColonIndex(s[1..])
  }

  lemma {:induction false} ColonIndexOfAad(cid: string, keyRef: string)
    requires ':' !in cid
    ensures ColonIndex(SignatureAad(cid, keyRef)) == |cid|
    decreases |cid|
  {
    var s := SignatureAad(cid, keyRef);
    if |cid| == 0 {
      assert s[0] == ':';
    } else {
      assert s[0] == cid[0];
      assert s[1..] == SignatureAad(cid[1..], keyRef);
      ColonIndexOfAad(cid[1..], keyRef);
    }
  }

  /** A conversation id without a colon fixes the split of `cid:keyRef`, so
      the signature data determines both the conversation and the key
      reference. */
  lemma SignatureAadUnambiguous(c1: string, k1: string, c2: string, k2: string)
    requires ':' !in c1 && ':' !in c2
    requires SignatureAad(c1, k1) == SignatureAad(c2, k2)
    ensures c1 == c2 && k1 == k2
  {
    var s := SignatureAad(c1, k1);
    ColonIndexOfAad(c1, k1);
    ColonIndexOfAad(c2, k2);
    assert c1 == s[..|c1|] == c2;
    assert k1 == s[|c1| + 1..] == k2;
  }

  /** With a colon in the conversation id, two different (cid, keyRef) pairs
      give the same signature data. */
  lemma SignatureAadAmbiguousWithColon()
    ensures SignatureAad("c:1", "kr") == SignatureAad("c", "1:kr")
  {
  }

  /** An own `constructor` property holding the text of `Object` passes the
      loose test and travels as an ordinary plaintext attribute. */
  lemma ShadowingConstructorAccepted<K>(p: Provider<K>, sep: Profile)
    ensures AttributeFields(Obj([("constructor", Str(ObjectSource))])) == Success([("constructor", Str(ObjectSource))])
    ensures Prepare(p, Obj([("constructor", Str(ObjectSource))]), sep).Success? ==>
      Prepare(p, Obj([("constructor", Str(ObjectSource))]), sep).value.assembled == [("constructor", Str(ObjectSource))]
  {
    var attributes := Obj([("constructor", Str(ObjectSource))]);
    var r := Prepare(p, attributes, sep);
    if r.Success? {
      AssemblyShape(p, attributes, sep, r.value);
      assert !IsProtected("constructor");
    }
  }

  /** An absent or otherwise falsy argument behaves as the empty object. */
  lemma AbsentIsEmpty<K>(p: Provider<K>, attributes: Value, keyRef: string, sep: Profile, nonce: Bytes, cid: string)
    requires Falsy(attributes)
    ensures Protect(p, attributes, keyRef, sep, nonce, cid) == Protect(p, Obj([]), keyRef, sep, nonce, cid)
  {
  }

  /** A truthy argument that is not a plain object, or a plain object whose
      own `constructor` property is not loosely equal to `Object`, is refused
      before any key import or cryptography, and the caller sees only
      UNKNOWN. */
  lemma InvalidAttributesRefused<K>(p: Provider<K>, attributes: Value, keyRef: string, sep: Profile, nonce: Bytes, cid: string)
    requires !Falsy(attributes)
    requires !attributes.Obj? || !ConstructorIsObject(attributes.fields)
    ensures Protect(p, attributes, keyRef, sep, nonce, cid) == Failure(InvalidAttributes)
    ensures Respond(Protect(p, attributes, keyRef, sep, nonce, cid)) == ErrorResponse(Unknown)
  {
  }

  /** Failures at any two stages give the same response value. This rests on
      the assumption that `customErrorResponse` ignores the error it is
      handed, which this model does not prove. */
  lemma FailuresIndistinguishable(r1: Result<Bundle, Stage>, r2: Result<Bundle, Stage>)
    requires r1.Failure? && r2.Failure?
    ensures Respond(r1) == Respond(r2) == ErrorResponse(Unknown)
  {
  }

  /** A successful run is answered with exactly its bundle, never a partial
      one. */
  lemma SuccessCarriesBundle(r: Result<Bundle, Stage>)
    requires r.Success?
    ensures Respond(r).Signed?
    ensures Respond(r).attrs == r.value.attrs && Respond(r).sig == r.value.sig
  {
  }
}
