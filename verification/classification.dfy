/** Which attributes are protected, and the order in which the protected ones
    are met when the attribute object is enumerated. */
module Classification {
  import opened JsValue

  const ProtectedPrefix: string := "ionic-protected-"

  /** The reserved name that is protected although it lacks the prefix. */
  const IntegrityHashName: string := "ionic-integrity-hash"

  /** The one test all three passes over the attributes apply to a name. */
  predicate IsProtected(name: string) {
    ProtectedPrefix <= name || name == IntegrityHashName
  }

  /** The protected attributes, in enumeration order: the one ordered list
      that IVs and ciphertexts are paired with by index. */
  function ProtectedFields(fields: seq<Field>): (r: seq<Field>)
    ensures |r| <= |fields|
    ensures forall k :: 0 <= k < |r| ==> IsProtected(r[k].0)
  {
    if |fields| == 0 then []
    else if IsProtected(fields[0].0) then [fields[0]] + ProtectedFields(fields[1..])
    else ProtectedFields(fields[1..])
  }

  /** The protected list holds exactly the protected attributes. */
  lemma {:induction false} ProtectedFieldsMembers(fields: seq<Field>)
    ensures forall f :: f in ProtectedFields(fields) <==> f in fields && IsProtected(f.0)
    decreases |fields|
  {
    if |fields| > 0 {
      ProtectedFieldsMembers(fields[1..]);
      assert fields == [fields[0]] + fields[1..];
    }
  }

  /** How many protected attributes come before position `j`: the value the
      source's counter `i` has when the enumeration reaches position `j`. */
  function Rank(fields: seq<Field>, j: nat): nat
    requires j <= |fields|
  {
    |ProtectedFields(fields[..j])|
  }

  lemma {:induction false} ProtectedFieldsAppend(a: seq<Field>, b: seq<Field>)
    ensures ProtectedFields(a + b) == ProtectedFields(a) + ProtectedFields(b)
    decreases |a|
  {
    if |a| == 0 {
      assert a + b == b;
    } else {
      assert (a + b)[1..] == a[1..] + b;
      ProtectedFieldsAppend(a[1..], b);
    }
  }

  /** The counter advances by one exactly at a protected attribute. */
  lemma RankNext(fields: seq<Field>, j: nat)
    requires j < |fields|
    ensures Rank(fields, j + 1) == Rank(fields, j) + (if IsProtected(fields[j].0) then 1 else 0)
  {
    assert fields[..j + 1] == fields[..j] + [fields[j]];
    ProtectedFieldsAppend(fields[..j], [fields[j]]);
    assert [fields[j]][1..] == [];
  }

  lemma RankAll(fields: seq<Field>)
    ensures Rank(fields, |fields|) == |ProtectedFields(fields)|
  {
    assert fields[..|fields|] == fields;
  }

  /** Index pairing: the protected attribute at position `j` is entry
      `Rank(fields, j)` of the ordered list of protected attributes. */
  lemma RankPairing(fields: seq<Field>, j: nat)
    requires j < |fields| && IsProtected(fields[j].0)
    ensures Rank(fields, j) < |ProtectedFields(fields)|
    ensures ProtectedFields(fields)[Rank(fields, j)] == fields[j]
  {
    assert fields == fields[..j] + fields[j..];
    ProtectedFieldsAppend(fields[..j], fields[j..]);
    assert fields[j..][0] == fields[j];
    assert fields[j..][1..] == fields[j + 1..];
  }

  /** Distinct protected attributes are given distinct indexes: a later one
      always a larger index. */
  lemma RankStrictlyIncreasing(fields: seq<Field>, i: nat, j: nat)
    requires i < j <= |fields| && IsProtected(fields[i].0)
    ensures Rank(fields, i) < Rank(fields, j)
  {
    assert fields[..j] == fields[..i] + fields[i..j];
    ProtectedFieldsAppend(fields[..i], fields[i..j]);
    assert fields[i..j][0] == fields[i];
  }

  /** Every index below the number of protected attributes belongs to some
      protected attribute. */
  lemma {:induction false} RankOnto(fields: seq<Field>, k: nat)
    requires k < |ProtectedFields(fields)|
    ensures exists j :: 0 <= j < |fields| && IsProtected(fields[j].0) && Rank(fields, j) == k
    decreases |fields|
  {
    var n := |fields| - 1;
    var init := fields[..n];
    assert fields == init + [fields[n]];
    ProtectedFieldsAppend(init, [fields[n]]);
    assert [fields[n]][1..] == [];
    if k < |ProtectedFields(init)| {
      RankOnto(init, k);
      var j :| 0 <= j < |init| && IsProtected(init[j].0) && Rank(init, j) == k;
      assert fields[..j] == init[..j];
      assert fields[j] == init[j];
    } else {
      assert IsProtected(fields[n].0);
      assert Rank(fields, n) == k;
    }
  }

  /** With distinct attribute names, the protected list has distinct names,
      so no two ciphertexts are bound to the same additional data. */
  lemma {:induction false} ProtectedNamesDistinct(fields: seq<Field>)
    requires UniqueNames(fields)
    ensures UniqueNames(ProtectedFields(fields))
    decreases |fields|
  {
    if |fields| > 0 {
      var rest := fields[1..];
      assert UniqueNames(rest) by {
        forall i, j | 0 <= i < j < |rest|
          ensures rest[i].0 != rest[j].0
        {
          assert rest[i] == fields[i + 1] && rest[j] == fields[j + 1];
        }
      }
      ProtectedNamesDistinct(rest);
      if IsProtected(fields[0].0) {
        var pr := ProtectedFields(rest);
        ProtectedFieldsMembers(rest);
        forall j | 0 <= j < |pr|
          ensures fields[0].0 != pr[j].0
        {
          assert pr[j] in rest;
          var m :| 0 <= m < |rest| && rest[m] == pr[j];
          assert rest[m] == fields[m + 1];
        }
      }
    }
  }
}
