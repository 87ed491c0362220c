/** Array.prototype.sort with a comparator on a string key, and why its result is determined by the
    elements alone when the keys are distinct. */
module KeySort {
  import opened Text

  function InsertBy<T>(key: T -> string, x: T, xs: seq<T>): seq<T> {
    if xs == [] then [x]
    else if KeyLess(key(xs[0]), key(x)) then [xs[0]] + InsertBy(key, x, xs[1..])
    else [x] + xs
  }

  function SortBy<T>(key: T -> string, xs: seq<T>): seq<T> {
    if xs == [] then [] else InsertBy(key, xs[0], SortBy(key, xs[1..]))
  }

  ghost predicate StrictBy<T>(key: T -> string, xs: seq<T>) {
    forall i, j :: 0 <= i < j < |xs| ==> KeyLess(key(xs[i]), key(xs[j]))
  }

  ghost predicate DistinctBy<T>(key: T -> string, xs: seq<T>) {
    forall i, j :: 0 <= i < j < |xs| ==> key(xs[i]) != key(xs[j])
  }

  ghost predicate SameElements<T(!new)>(a: seq<T>, b: seq<T>) {
    |a| == |b| && forall x :: x in a <==> x in b
  }

  lemma {:induction false} InsertSorts<T(!new)>(key: T -> string, x: T, xs: seq<T>)
    requires StrictBy(key, xs) && forall y :: y in xs ==> key(y) != key(x)
    ensures StrictBy(key, InsertBy(key, x, xs)) && SameElements(InsertBy(key, x, xs), [x] + xs)
  {
    if xs != [] {
      var h, t := xs[0], xs[1..];
      KeyLessTotal(key(h), key(x));
      assert xs == [h] + t;
      if KeyLess(key(h), key(x)) {
        InsertSorts(key, x, t);
        var r := InsertBy(key, x, t);
        forall j | 0 <= j < |r| ensures KeyLess(key(h), key(r[j])) {
          assert r[j] in [x] + t;
        }
        forall y ensures y in [h] + r <==> y in [x] + xs {
          assert y in r <==> y in [x] + t;
        }
      } else {
        forall j | 0 <= j < |xs| ensures KeyLess(key(x), key(xs[j])) {
          if j > 0 { KeyLessTransitive(key(x), key(h), key(xs[j])); }
        }
      }
    }
  }

  /** Sorting elements of distinct keys puts them in strictly increasing order and loses none. */
  lemma {:induction false} SortSorts<T(!new)>(key: T -> string, xs: seq<T>)
    requires DistinctBy(key, xs)
    ensures StrictBy(key, SortBy(key, xs)) && SameElements(SortBy(key, xs), xs)
  {
    if xs != [] {
      SortSorts(key, xs[1..]);
      assert xs == [xs[0]] + xs[1..];
      InsertSorts(key, xs[0], SortBy(key, xs[1..]));
    }
  }

  lemma StrictIsDistinct<T>(key: T -> string, xs: seq<T>)
    requires StrictBy(key, xs)
    ensures DistinctBy(key, xs)
  {
    forall i, j | 0 <= i < j < |xs| ensures key(xs[i]) != key(xs[j]) {
      KeyLessTotal(key(xs[i]), key(xs[j]));
    }
  }

  lemma SameFirst<T(!new)>(key: T -> string, a: seq<T>, b: seq<T>)
    requires StrictBy(key, a) && StrictBy(key, b) && SameElements(a, b) && a != []
    ensures a[0] == b[0]
  {
    assert a[0] in b && b[0] in a;
    var i :| 0 <= i < |b| && b[i] == a[0];
    var j :| 0 <= j < |a| && a[j] == b[0];
    KeyLessTotal(key(a[0]), key(b[0]));
  }

  /** A collection has one strictly increasing listing. */
  lemma {:induction false} StrictListingUnique<T(!new)>(key: T -> string, a: seq<T>, b: seq<T>)
    requires StrictBy(key, a) && StrictBy(key, b) && SameElements(a, b)
    ensures a == b
  {
    if a != [] {
      SameFirst(key, a, b);
      StrictIsDistinct(key, a);
      StrictIsDistinct(key, b);
      assert a == [a[0]] + a[1..] && b == [b[0]] + b[1..];
      forall x ensures x in a[1..] <==> x in b[1..] {
        assert x in a <==> x in b;
      }
      StrictListingUnique(key, a[1..], b[1..]);
    }
  }

  function Self(s: string): string { s }

  /** The elements of a set of strings in the order of JavaScript's `<`. */
  ghost function SortedKeys(s: set<string>): (r: seq<string>)
    ensures StrictBy(Self, r) && |r| == |s| && forall k :: k in r <==> k in s
    decreases s
  {
    if s == {} then [] else
      var k :| k in s;
      var rest := SortedKeys(s - {k});
      InsertSorts(Self, k, rest);
      assert forall x :: x in [k] + rest <==> x in s;
      InsertBy(Self, k, rest)
  }
}
