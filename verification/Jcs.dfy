/** The JSON Canonicalization Scheme (RFC 8785): members sorted by the UTF-16 code units of their
    names (section 3.2.3), at every depth, then printed without white space (section 3.2.2). */
module Jcs {
  import opened Options
  import opened Text
  import opened Json
  import opened KeySort

  function KeyOf(m: Member): string {
    m.key
  }

  function Canon(v: Json): Json
    decreases v, 0
  {
    match v
    case Arr(es) => Arr(CanonElems(es))
    case Obj(ms) => Obj(SortBy(KeyOf, CanonMembers(ms)))
    case _ => v
  }

  function CanonElems(es: seq<Json>): (r: seq<Json>)
    ensures |r| == |es| && forall i :: 0 <= i < |es| ==> r[i] == Canon(es[i])
    decreases es, 0
  {
    if es == [] then [] else [Canon(es[0])] + CanonElems(es[1..])
  }

  function CanonMembers(ms: seq<Member>): (r: seq<Member>)
    ensures |r| == |ms| && forall i :: 0 <= i < |ms| ==> r[i] == Member(ms[i].key, Canon(ms[i].value))
    decreases ms, 0
  {
    if ms == [] then [] else [Member(ms[0].key, Canon(ms[0].value))] + CanonMembers(ms[1..])
  }

  /** The bytes `jcs` returns. */
  function JcsBytes(v: Json): Bytes {
    Utf8(Print(Canon(v)))
  }

  lemma DistinctKeys(ms: seq<Member>)
    ensures UniqueKeys(ms) <==> DistinctBy(KeyOf, ms)
  {
    if DistinctBy(KeyOf, ms) {
      forall i, j | 0 <= i < j < |ms| ensures ms[i].key != ms[j].key {
        assert KeyOf(ms[i]) != KeyOf(ms[j]);
      }
    }
  }

  lemma SortMembers(ms: seq<Member>)
    requires UniqueKeys(ms)
    ensures StrictBy(KeyOf, SortBy(KeyOf, ms)) && SameElements(SortBy(KeyOf, ms), ms)
    ensures UniqueKeys(SortBy(KeyOf, ms))
  {
    DistinctKeys(ms);
    SortSorts(KeyOf, ms);
    StrictIsDistinct(KeyOf, SortBy(KeyOf, ms));
    DistinctKeys(SortBy(KeyOf, ms));
  }

  // ----- what canonicalisation keeps -----

  /** Equal up to the order of members, at every depth. */
  ghost predicate SameContent(a: Json, b: Json)
    decreases a
  {
    match a
    case Arr(es) => b.Arr? && |es| == |b.elems| && forall i :: 0 <= i < |es| ==> SameContent(es[i], b.elems[i])
    case Obj(ms) =>
      && b.Obj? && |ms| == |b.members|
      && (forall i :: 0 <= i < |ms| ==>
            Get(b, ms[i].key).Some? && SameContent(ms[i].value, Get(b, ms[i].key).value))
    case _ => a == b
  }

  lemma CanonMembersUnique(ms: seq<Member>)
    requires UniqueKeys(ms)
    ensures UniqueKeys(CanonMembers(ms))
  {
  }

  lemma {:induction false} CanonWellFormed(v: Json)
    requires WellFormed(v)
    ensures WellFormed(Canon(v))
    decreases v
  {
    match v {
      case Arr(es) => forall i | 0 <= i < |es| { CanonWellFormed(es[i]); }
      case Obj(ms) =>
        CanonMembersUnique(ms);
        var sorted := SortBy(KeyOf, CanonMembers(ms));
        SortMembers(CanonMembers(ms));
        forall i | 0 <= i < |sorted| ensures WellFormed(sorted[i].value) {
          assert sorted[i] in CanonMembers(ms);
          var j :| 0 <= j < |ms| && sorted[i] == Member(ms[j].key, Canon(ms[j].value));
          CanonWellFormed(ms[j].value);
        }
      case _ =>
    }
  }

  /** A member of the canonical form is the canonical form of the member. */
  lemma GetCanon(v: Json, k: string)
    requires WellFormed(v) && v.Obj?
    ensures Get(Canon(v), k) == match Get(v, k) case None => None case Some(x) => Some(Canon(x))
  {
    var ms, c := CanonMembers(v.members), Canon(v);
    CanonMembersUnique(v.members);
    SortMembers(ms);
    var i := IndexOf(v.members, k);
    if i >= 0 {
      assert ms[i] in c.members;
      var j :| 0 <= j < |c.members| && c.members[j] == ms[i];
      GetMember(c, j);
    } else {
      forall j | 0 <= j < |c.members| ensures c.members[j].key != k {
        assert c.members[j] in ms;
      }
    }
  }

  lemma {:induction false} SameContentCanon(a: Json, b: Json)
    requires WellFormed(a) && WellFormed(b) && SameContent(a, b)
    ensures Canon(a) == Canon(b)
    decreases a
  {
    match a {
      case Arr(es) => forall i | 0 <= i < |es| { SameContentCanon(es[i], b.elems[i]); }
      case Obj(ms) =>
        var ca, cb := CanonMembers(ms), CanonMembers(b.members);
        CanonMembersUnique(ms);
        CanonMembersUnique(b.members);
        forall i | 0 <= i < |ms| ensures ca[i] in cb {
          var j := IndexOf(b.members, ms[i].key);
          SameContentCanon(ms[i].value, b.members[j].value);
          assert cb[j] == ca[i];
        }
        SubsetOfSameLength(ca, cb);
        SortMembers(ca);
        SortMembers(cb);
        StrictListingUnique(KeyOf, SortBy(KeyOf, ca), SortBy(KeyOf, cb));
      case _ =>
    }
  }

  lemma RemoveMember(b: seq<Member>, k: nat)
    requires UniqueKeys(b) && k < |b|
    ensures UniqueKeys(b[..k] + b[k + 1..])
    ensures forall m :: m in b <==> m == b[k] || m in b[..k] + b[k + 1..]
    ensures forall m :: m in b[..k] + b[k + 1..] ==> m.key != b[k].key
  {
    assert b == b[..k] + [b[k]] + b[k + 1..];
  }

  lemma {:induction false} SubsetOfSameLength(a: seq<Member>, b: seq<Member>)
    requires UniqueKeys(a) && UniqueKeys(b) && |a| == |b|
    requires forall i :: 0 <= i < |a| ==> a[i] in b
    ensures SameElements(a, b)
  {
    if a != [] {
      var k :| 0 <= k < |b| && b[k] == a[0];
      var rest := b[..k] + b[k + 1..];
      RemoveMember(b, k);
      forall i | 0 <= i < |a[1..]| ensures a[1..][i] in rest {
        assert a[i + 1] in b && a[i + 1].key != a[0].key;
      }
      SubsetOfSameLength(a[1..], rest);
      assert a == [a[0]] + a[1..];
      forall m ensures m in a <==> m in b {
        assert m in a[1..] <==> m in rest;
      }
    }
  }

  lemma {:induction false} CanonSameContent(a: Json, b: Json)
    requires WellFormed(a) && WellFormed(b) && Canon(a) == Canon(b)
    ensures SameContent(a, b)
    decreases a
  {
    match a {
      case Arr(es) =>
        forall i | 0 <= i < |es| ensures SameContent(es[i], b.elems[i]) {
          assert CanonElems(es)[i] == CanonElems(b.elems)[i];
          CanonSameContent(es[i], b.elems[i]);
        }
      case Obj(ms) =>
        CanonMembersUnique(ms);
        CanonMembersUnique(b.members);
        SortMembers(CanonMembers(ms));
        SortMembers(CanonMembers(b.members));
        forall i | 0 <= i < |ms|
          ensures Get(b, ms[i].key).Some? && SameContent(ms[i].value, Get(b, ms[i].key).value)
        {
          GetMember(a, i);
          GetCanon(a, ms[i].key);
          GetCanon(b, ms[i].key);
          var j := IndexOf(b.members, ms[i].key);
          CanonSameContent(ms[i].value, b.members[j].value);
        }
      case _ =>
    }
  }

  /** Two values have the same canonical bytes exactly when they are equal up to member order. */
  lemma JcsIdentifies(a: Json, b: Json)
    requires WellFormed(a) && WellFormed(b)
    ensures JcsBytes(a) == JcsBytes(b) <==> SameContent(a, b)
  {
    if SameContent(a, b) { SameContentCanon(a, b); }
    if JcsBytes(a) == JcsBytes(b) {
      Utf8Injective(Print(Canon(a)), Print(Canon(b)));
      CanonWellFormed(a);
      CanonWellFormed(b);
      ParsePrint(Canon(a));
      ParsePrint(Canon(b));
      CanonSameContent(a, b);
    }
  }

  /** Parsing the canonical bytes gives the value back, its members sorted. */
  lemma ParseJcs(v: Json)
    requires WellFormed(v)
    ensures Utf8Decode(JcsBytes(v)) == Some(Print(Canon(v))) && Parse(Print(Canon(v))) == Some(Canon(v))
    ensures WellFormed(Canon(v))
  {
    CanonWellFormed(v);
    Utf8RoundTrip(Print(Canon(v)));
    ParsePrint(Canon(v));
  }

  /** Reading a string or a number does not depend on the order of members. */
  lemma LeafCanon(v: Json, k: string)
    requires WellFormed(v)
    ensures Get(v, k).Some? && (Get(v, k).value.Str? || Get(v, k).value.Num?) ==> Get(Canon(v), k) == Get(v, k)
    ensures Get(v, k).None? <==> Get(Canon(v), k).None?
    ensures Get(Canon(v), k).Some? && !Get(v, k).value.Str? && !Get(v, k).value.Num? ==>
              !Get(Canon(v), k).value.Str? && !Get(Canon(v), k).value.Num?
  {
    if v.Obj? { GetCanon(v, k); }
  }

  // ----- dropping a member: `const { sig, ...unsigned } = v` -----

  function DropMember(ms: seq<Member>, k: string): (r: seq<Member>)
    ensures forall m :: m in r <==> m in ms && m.key != k
    ensures UniqueKeys(ms) ==> UniqueKeys(r)
  {
    if ms == [] then []
    else
      assert ms == [ms[0]] + ms[1..];
      var r := DropMember(ms[1..], k);
      if ms[0].key == k then r
      else
        assert UniqueKeys(ms) ==> forall m :: m in r ==> m.key != ms[0].key;
        [ms[0]] + r
  }

  function Drop(v: Json, k: string): Json {
    if v.Obj? then Obj(DropMember(v.members, k)) else v
  }

  lemma {:induction false} DropLength(ms: seq<Member>, k: string)
    requires UniqueKeys(ms)
    ensures |DropMember(ms, k)| == |ms| - if IndexOf(ms, k) < 0 then 0 else 1
  {
    if ms != [] {
      DropLength(ms[1..], k);
    }
  }

  lemma GetDrop(v: Json, k: string, other: string)
    requires WellFormed(v) && v.Obj?
    ensures WellFormed(Drop(v, k))
    ensures Get(Drop(v, k), other) == if other == k then None else Get(v, other)
  {
    var r := Drop(v, k).members;
    forall i | 0 <= i < |r| ensures WellFormed(r[i].value) {
      assert r[i] in v.members;
    }
    var i := IndexOf(v.members, other);
    if i >= 0 && other != k {
      assert v.members[i] in r;
      var j :| 0 <= j < |r| && r[j] == v.members[i];
      GetMember(Drop(v, k), j);
    } else {
      forall j | 0 <= j < |r| ensures r[j].key != other {
        assert r[j] in v.members && r[j].key != k;
      }
    }
  }

  lemma SameContentGet(a: Json, b: Json, k: string)
    requires WellFormed(a) && WellFormed(b) && SameContent(a, b) && a.Obj?
    ensures Get(a, k).Some? <==> Get(b, k).Some?
    ensures Get(a, k).Some? ==> SameContent(Get(a, k).value, Get(b, k).value)
  {
    SameContentCanon(a, b);
    GetCanon(a, k);
    GetCanon(b, k);
  }

  lemma SameContentDrop(a: Json, b: Json, k: string)
    requires WellFormed(a) && WellFormed(b) && SameContent(a, b) && a.Obj?
    ensures WellFormed(Drop(a, k)) && WellFormed(Drop(b, k)) && SameContent(Drop(a, k), Drop(b, k))
  {
    DropLength(a.members, k);
    DropLength(b.members, k);
    SameContentGet(a, b, k);
    GetDrop(a, k, k);
    GetDrop(b, k, k);
    var r := Drop(a, k).members;
    forall i | 0 <= i < |r|
      ensures Get(Drop(b, k), r[i].key).Some? && SameContent(r[i].value, Get(Drop(b, k), r[i].key).value)
    {
      assert r[i] in a.members && r[i].key != k;
      var j :| 0 <= j < |a.members| && a.members[j] == r[i];
      GetMember(a, j);
      SameContentGet(a, b, r[i].key);
      GetDrop(b, k, r[i].key);
    }
  }
}
