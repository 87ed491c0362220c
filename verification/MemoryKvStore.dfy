/** The in-memory registry itself: a map of users to buckets that its methods update in place. */
module MemoryKvStores {
  import opened Options
  import opened Text
  import opened JsMaps
  import opened KeySort
  import opened KvStore
  import KvHistory

  const DEFAULT_KEY_LIMIT := 10_000
  const DEFAULT_BYTE_LIMIT := 10 * 1024 * 1024

  class MemoryKvStore {
    var rowsByUser: map<string, JsMap<KvRow>>
    const limits: Limits

    /** What a user's bucket holds; a bucket that was never touched is empty. */
    ghost function Contents(user: string): Bucket
      reads this
    {
      if user in rowsByUser then rowsByUser[user].at else map[]
    }

    ghost predicate GoodBucket(m: JsMap<KvRow>) {
      m.Valid() && Keyed(m.at) && (m.at == map[] || Fits(m.at, limits))
    }

    ghost predicate Valid()
      reads this
    {
      forall u :: u in rowsByUser ==> GoodBucket(rowsByUser[u])
    }

    constructor (keyLimit: Option<int>, byteLimit: Option<int>)
      ensures Valid() && forall u :: Contents(u) == map[]
      ensures limits == Limits(
                if keyLimit.Some? then keyLimit.value else DEFAULT_KEY_LIMIT,
                if byteLimit.Some? then byteLimit.value else DEFAULT_BYTE_LIMIT)
    {
      rowsByUser := map[];
      limits := Limits(
        if keyLimit.Some? then keyLimit.value else DEFAULT_KEY_LIMIT,
        if byteLimit.Some? then byteLimit.value else DEFAULT_BYTE_LIMIT);
    }

    method BucketFor(user: string) returns (m: JsMap<KvRow>)
      requires Valid()
      modifies this
      ensures Valid() && user in rowsByUser && m == rowsByUser[user]
      ensures forall u :: Contents(u) == old(Contents(u))
    {
      if user !in rowsByUser {
        rowsByUser := rowsByUser[user := Empty<KvRow>()];
      }
      m := rowsByUser[user];
    }

    method List(user: string) returns (rows: seq<KvRow>)
      requires Valid()
      modifies this
      ensures Valid() && forall u :: Contents(u) == old(Contents(u))
      ensures rows == ListRows(Contents(user))
      ensures StrictBy(RowKey, rows)
    {
      var m := BucketFor(user);
      rows := SortBy(RowKey, m.Values());
      SortedValues(m);
    }

    method GetMany(user: string, keys: seq<string>) returns (out: seq<KvRow>)
      requires Valid()
      modifies this
      ensures Valid() && forall u :: Contents(u) == old(Contents(u))
      ensures out == PresentRows(Contents(user), keys)
    {
      var m := BucketFor(user);
      out := [];
      for i := 0 to |keys|
        invariant out == PresentRows(m.at, keys[..i])
      {
        assert keys[..i + 1][..i] == keys[..i];
        if keys[i] in m.at {
          out := out + [m.at[keys[i]]];
        }
      }
      assert keys[..|keys|] == keys;
    }

    method ApplyBatch(user: string, items: seq<PutInput>) returns (result: BatchResult)
      requires Valid()
      modifies this
      ensures Valid()
      ensures result == BatchOutcome(old(Contents(user)), items, limits)
      ensures Contents(user) == AfterBatch(old(Contents(user)), items, limits)
      ensures forall u :: u != user ==> Contents(u) == old(Contents(u))
    {
      var m := BucketFor(user);
      var conflicts := CollectConflicts(m, items);
      if |conflicts| > 0 {
        return ChecksumMismatch(conflicts);
      }
      var projected := SetAll(m, items);
      var projectedBytes := SumSizes(projected);
      SizeIsCardinality(projected);
      if |projected.keys| > limits.keyLimit || projectedBytes > limits.byteLimit {
        return QuotaExceeded;
      }
      var committed := SetAll(m, items);
      rowsByUser := rowsByUser[user := committed];
      result := Accepted(Entries(items));
    }

    method DeleteMany(user: string, keys: seq<string>)
      requires Valid()
      modifies this
      ensures Valid()
      ensures Contents(user) == old(Contents(user)) - Elements(keys)
      ensures forall u :: u != user ==> Contents(u) == old(Contents(u))
    {
      var m := BucketFor(user);
      ghost var before := m.at;
      for i := 0 to |keys|
        invariant m.Valid() && m.at == DeleteAll(before, keys[..i])
      {
        assert keys[..i + 1][..i] == keys[..i];
        m := m.Delete(keys[i]);
      }
      assert keys[..|keys|] == keys;
      KvHistory.RemovalFits(before, keys, limits);
      rowsByUser := rowsByUser[user := m];
    }

    method Quota(user: string) returns (q: KvQuota)
      requires Valid()
      modifies this
      ensures Valid() && forall u :: Contents(u) == old(Contents(u))
      ensures q == KvQuota(limits.byteLimit, BytesUsed(Contents(user)), |Contents(user)|, limits.keyLimit)
    {
      var m := BucketFor(user);
      var bytesUsed := SumSizes(m);
      SizeIsCardinality(m);
      q := KvQuota(limits.byteLimit, bytesUsed, |m.keys|, limits.keyLimit);
    }
  }

  method CollectConflicts(m: JsMap<KvRow>, items: seq<PutInput>) returns (conflicts: seq<Conflict>)
    ensures conflicts == Conflicts(m.at, items)
  {
    conflicts := [];
    for i := 0 to |items|
      invariant conflicts == Conflicts(m.at, items[..i])
    {
      assert items[..i + 1][..i] == items[..i];
      var item := items[i];
      if item.expectedChecksum.Some? {
        var actual := if item.row.key in m.at then Some(m.at[item.row.key].checksum) else None;
        if actual != item.expectedChecksum {
          conflicts := conflicts + [Conflict(item.row.key, item.expectedChecksum.value, actual)];
        }
      }
    }
    assert items[..|items|] == items;
  }

  /** Sets every item in turn: once on a copy to check the quota, once more to commit. */
  method SetAll(m: JsMap<KvRow>, items: seq<PutInput>) returns (r: JsMap<KvRow>)
    requires m.Valid() && Keyed(m.at)
    ensures r.Valid() && Keyed(r.at) && r.at == Project(m.at, items)
  {
    r := m;
    for i := 0 to |items|
      invariant r.Valid() && Keyed(r.at) && r.at == Project(m.at, items[..i])
    {
      assert items[..i + 1][..i] == items[..i];
      r := r.Set(items[i].row.key, items[i].row);
    }
    assert items[..|items|] == items;
  }

  /** Adds up `sizeBytes` over `m.values()`; the order of insertion does not matter. */
  method SumSizes(m: JsMap<KvRow>) returns (sum: nat)
    requires m.Valid()
    ensures sum == BytesUsed(m.at)
  {
    sum := 0;
    ghost var sizes := Sizes(m.at);
    for i := 0 to |m.keys|
      invariant Elements(m.keys[..i]) <= sizes.Keys && sum == SumKeys(sizes, m.keys[..i])
    {
      assert m.keys[..i + 1][..i] == m.keys[..i];
      assert m.keys[i] in Elements(m.keys);
      sum := sum + m.at[m.keys[i]].sizeBytes;
    }
    assert m.keys[..|m.keys|] == m.keys;
    SumKeysTotal(sizes, m.keys);
  }

  lemma ValuesAreTheRows(m: JsMap<KvRow>, r: KvRow)
    requires m.Valid()
    ensures r in m.Values() <==> exists k :: k in m.at && m.at[k] == r
  {
    if k :| k in m.at && m.at[k] == r {
      assert k in Elements(m.keys);
      var i :| 0 <= i < |m.keys| && m.keys[i] == k;
      assert m.Values()[i] == r;
    }
    if r in m.Values() {
      var i :| 0 <= i < |m.keys| && m.Values()[i] == r;
      assert m.keys[i] in Elements(m.keys);
    }
  }

  lemma ListedAreTheRows(m: Bucket, r: KvRow)
    ensures r in ListRows(m) <==> exists k :: k in m && m[k] == r
  {
    var ks := SortedKeys(m.Keys);
    if k :| k in m && m[k] == r {
      assert k in ks;
      var i :| 0 <= i < |ks| && ks[i] == k;
      assert ListRows(m)[i] == r;
    }
    if r in ListRows(m) {
      var i :| 0 <= i < |ks| && ListRows(m)[i] == r;
      assert ks[i] in ks;
    }
  }

  lemma ListIsStrict(m: Bucket)
    requires Keyed(m)
    ensures StrictBy(RowKey, ListRows(m))
  {
    var rows, ks := ListRows(m), SortedKeys(m.Keys);
    forall i, j | 0 <= i < j < |rows| ensures KeyLess(RowKey(rows[i]), RowKey(rows[j])) {
      assert ks[i] in ks && ks[j] in ks;
      assert KeyLess(Self(ks[i]), Self(ks[j]));
    }
  }

  /** The sorted values of a bucket depend on its contents only, not on the order of insertion. */
  lemma SortedValues(m: JsMap<KvRow>)
    requires m.Valid() && Keyed(m.at)
    ensures SortBy(RowKey, m.Values()) == ListRows(m.at)
    ensures StrictBy(RowKey, ListRows(m.at))
  {
    var vs := m.Values();
    forall i | 0 <= i < |vs| ensures RowKey(vs[i]) == m.keys[i] {
      assert m.keys[i] in Elements(m.keys);
    }
    SortSorts(RowKey, vs);
    SizeIsCardinality(m);
    ListIsStrict(m.at);
    forall r ensures r in vs <==> r in ListRows(m.at) {
      ValuesAreTheRows(m, r);
      ListedAreTheRows(m.at, r);
    }
    StrictListingUnique(RowKey, SortBy(RowKey, vs), ListRows(m.at));
  }
}
