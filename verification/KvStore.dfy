/** The Tower key-value registry: one bucket of opaque rows per user, all-or-nothing batches,
    optimistic concurrency on checksums, and key and byte quotas. */
module KvStore {
  import opened Options
  import opened Text
  import JsMaps
  import KeySort
  import opened Platform
  import B = Base64Url

  datatype KvRow = KvRow(
    key: string, ciphertext: Bytes, checksum: string, sizeBytes: nat,
    updatedAt: string, updatedByClientId: Option<string>)

  datatype PutInput = PutInput(row: KvRow, expectedChecksum: Option<string>)

  datatype Conflict = Conflict(key: string, expectedChecksum: string, actualChecksum: Option<string>)

  datatype AcceptedEntry = AcceptedEntry(key: string, checksum: string, updatedAt: string)

  datatype BatchResult =
    | Accepted(entries: seq<AcceptedEntry>)
    | ChecksumMismatch(conflicts: seq<Conflict>)
    | QuotaExceeded

  datatype Limits = Limits(keyLimit: int, byteLimit: int)

  datatype KvQuota = KvQuota(byteLimit: int, bytesUsed: nat, keyCount: nat, keyLimit: int)

  type Bucket = map<string, KvRow>

  // ----- what a batch means -----

  function ActualChecksum(m: Bucket, k: string): Option<string> {
    if k in m then Some(m[k].checksum) else None
  }

  predicate Conflicting(m: Bucket, item: PutInput) {
    item.expectedChecksum.Some? && ActualChecksum(m, item.row.key) != item.expectedChecksum
  }

  function Conflicts(m: Bucket, items: seq<PutInput>): seq<Conflict> {
    if items == [] then []
    else
      var last := items[|items| - 1];
      Conflicts(m, items[..|items| - 1]) +
      if Conflicting(m, last)
      then [Conflict(last.row.key, last.expectedChecksum.value, ActualChecksum(m, last.row.key))]
      else []
  }

  /** The bucket after every item in turn has been set. */
  function Project(m: Bucket, items: seq<PutInput>): Bucket {
    if items == [] then m
    else
      var last := items[|items| - 1];
      Project(m, items[..|items| - 1])[last.row.key := last.row]
  }

  function Sizes(m: Bucket): map<string, nat> {
    map k | k in m :: m[k].sizeBytes
  }

  ghost function BytesUsed(m: Bucket): nat {
    JsMaps.Total(Sizes(m))
  }

  ghost predicate Fits(m: Bucket, lim: Limits) {
    |m| <= lim.keyLimit && BytesUsed(m) <= lim.byteLimit
  }

  function Entries(items: seq<PutInput>): seq<AcceptedEntry> {
    seq(|items|, i requires 0 <= i < |items| =>
      AcceptedEntry(items[i].row.key, items[i].row.checksum, items[i].row.updatedAt))
  }

  ghost function BatchOutcome(m: Bucket, items: seq<PutInput>, lim: Limits): BatchResult {
    if Conflicts(m, items) != [] then ChecksumMismatch(Conflicts(m, items))
    else if !Fits(Project(m, items), lim) then QuotaExceeded
    else Accepted(Entries(items))
  }

  ghost function AfterBatch(m: Bucket, items: seq<PutInput>, lim: Limits): Bucket {
    if BatchOutcome(m, items, lim).Accepted? then Project(m, items) else m
  }

  ghost function ListRows(m: Bucket): (rows: seq<KvRow>)
    ensures |rows| == |m|
  {
    var ks := KeySort.SortedKeys(m.Keys);
    seq(|ks|, i requires 0 <= i < |ks| => assert ks[i] in ks; m[ks[i]])
  }

  function RowKey(r: KvRow): string { r.key }

  predicate Keyed(m: Bucket) {
    forall k :: k in m ==> m[k].key == k
  }

  // ----- reading -----

  datatype GetItem = GetItem(key: string, knownChecksum: Option<string>)

  datatype GetResult =
    | Absent(key: string)
    | Unchanged(key: string)
    | Updated(key: string, checksum: string, ciphertext: string, updatedAt: string, updatedByClientId: Option<string>)

  function PresentRows(m: Bucket, keys: seq<string>): seq<KvRow> {
    if keys == [] then []
    else
      var k := keys[|keys| - 1];
      PresentRows(m, keys[..|keys| - 1]) + if k in m then [m[k]] else []
  }

  function ByKey(rows: seq<KvRow>): Bucket {
    if rows == [] then map[]
    else
      var r := rows[|rows| - 1];
      ByKey(rows[..|rows| - 1])[r.key := r]
  }

  function Answer(m: Bucket, item: GetItem): GetResult {
    if item.key !in m then Absent(item.key)
    else
      var row := m[item.key];
      if item.knownChecksum == Some(row.checksum) then Unchanged(item.key)
      else Updated(row.key, row.checksum, B.Encode(row.ciphertext), row.updatedAt, row.updatedByClientId)
  }

  function PartitionBatchGet(items: seq<GetItem>, rows: seq<KvRow>): seq<GetResult> {
    seq(|items|, i requires 0 <= i < |items| => Answer(ByKey(rows), items[i]))
  }

  function KeysOf(items: seq<GetItem>): seq<string> {
    seq(|items|, i requires 0 <= i < |items| => items[i].key)
  }

  lemma {:induction false} ByKeyPresent(m: Bucket, keys: seq<string>)
    requires Keyed(m)
    ensures ByKey(PresentRows(m, keys)) == map k | k in m && k in keys :: m[k]
  {
    if keys != [] {
      var init, k := keys[..|keys| - 1], keys[|keys| - 1];
      assert keys == init + [k];
      ByKeyPresent(m, init);
      if k in m {
        var rows := PresentRows(m, init);
        assert (rows + [m[k]])[..|rows|] == rows;
      } else {
        assert PresentRows(m, keys) == PresentRows(m, init);
      }
    }
  }

  /** Fetching the keys and partitioning the rows answers every item from the bucket itself,
      position by position, also when a key is asked for twice. */
  lemma PartitionIsLookup(m: Bucket, items: seq<GetItem>)
    requires Keyed(m)
    ensures PartitionBatchGet(items, PresentRows(m, KeysOf(items))) ==
            seq(|items|, i requires 0 <= i < |items| => Answer(m, items[i]))
  {
    ByKeyPresent(m, KeysOf(items));
    forall i | 0 <= i < |items|
      ensures Answer(ByKey(PresentRows(m, KeysOf(items))), items[i]) == Answer(m, items[i])
    {
      assert KeysOf(items)[i] == items[i].key;
    }
  }

  /** decodePutItem: the checksum and the size are computed from the decoded bytes. */
  function DecodePutItem(p: Platform, key: string, ciphertext: string, expectedChecksum: Option<string>,
                         updatedByClientId: Option<string>, updatedAt: string): Outcome<PutInput>
  {
    match B.Decode(ciphertext)
    case None => Threw
    case Some(ct) =>
      Returned(PutInput(KvRow(key, ct, Checksum(p, ct), |ct|, updatedAt, updatedByClientId), expectedChecksum))
  }

  /** base64url(sha256(ciphertext bytes)) */
  function Checksum(p: Platform, ct: Bytes): string {
    B.Encode(p.sha256(ct))
  }

  // ----- facts about one batch -----

  function Lookup(m: Bucket, k: string): Option<KvRow> {
    if k in m then Some(m[k]) else None
  }

  /** The row the last item for a key carries, searching from the end. */
  function LastFor(items: seq<PutInput>, k: string): Option<KvRow> {
    if items == [] then None
    else if items[|items| - 1].row.key == k then Some(items[|items| - 1].row)
    else LastFor(items[..|items| - 1], k)
  }

  /** In the projected bucket the last item for a key wins, and other keys keep their row. */
  lemma {:induction false} LastItemWins(m: Bucket, items: seq<PutInput>, k: string)
    ensures Lookup(Project(m, items), k) == if LastFor(items, k).Some? then LastFor(items, k) else Lookup(m, k)
  {
    if items != [] { LastItemWins(m, items[..|items| - 1], k); }
  }

  /** The conflicts reported are those of the mismatching items, all of them, in item order. */
  lemma {:induction false} ConflictsAreExactlyTheMismatches(m: Bucket, items: seq<PutInput>) returns (at: seq<nat>)
    ensures |at| == |Conflicts(m, items)|
    ensures forall a, b :: 0 <= a < b < |at| ==> at[a] < at[b]
    ensures forall i :: 0 <= i < |items| ==> (Conflicting(m, items[i]) <==> i in at)
    ensures forall a :: 0 <= a < |at| ==>
              && at[a] < |items|
              && Conflicts(m, items)[a].key == items[at[a]].row.key
              && Some(Conflicts(m, items)[a].expectedChecksum) == items[at[a]].expectedChecksum
              && Conflicts(m, items)[a].actualChecksum == ActualChecksum(m, items[at[a]].row.key)
  {
    at := [];
    if items != [] {
      var n := |items| - 1;
      at := ConflictsAreExactlyTheMismatches(m, items[..n]);
      if Conflicting(m, items[n]) { at := at + [n]; }
    }
  }

  /** A batch with a stale checksum is refused for that reason even when it is over quota as well. */
  lemma MismatchComesFirst(m: Bucket, items: seq<PutInput>, lim: Limits)
    ensures (exists i :: 0 <= i < |items| && Conflicting(m, items[i])) <==>
            BatchOutcome(m, items, lim).ChecksumMismatch?
  {
    var at := ConflictsAreExactlyTheMismatches(m, items);
    if i :| 0 <= i < |items| && Conflicting(m, items[i]) {
      assert i in at;
    }
    if at != [] { assert at[0] in at; }
  }

  lemma ProjectAgain(m: Bucket, items: seq<PutInput>)
    ensures Project(Project(m, items), items) == Project(m, items)
  {
    var p, pp := Project(m, items), Project(Project(m, items), items);
    forall k ensures Lookup(pp, k) == Lookup(p, k) {
      LastItemWins(m, items, k);
      LastItemWins(p, items, k);
    }
    SameLookups(p, pp);
  }

  lemma SameLookups(a: Bucket, b: Bucket)
    requires forall k :: Lookup(a, k) == Lookup(b, k)
    ensures a == b
  {
    forall k ensures (k in a <==> k in b) && (k in a ==> a[k] == b[k]) {
      assert Lookup(a, k) == Lookup(b, k);
    }
  }

  /** A retry of an accepted batch that carries no expected checksum is accepted again and changes nothing. */
  lemma ReplayIsIdempotent(m: Bucket, items: seq<PutInput>, lim: Limits)
    requires BatchOutcome(m, items, lim).Accepted?
    requires forall i :: 0 <= i < |items| ==> items[i].expectedChecksum == None
    ensures var m' := AfterBatch(m, items, lim);
      BatchOutcome(m', items, lim) == BatchOutcome(m, items, lim) && AfterBatch(m', items, lim) == m'
  {
    var m' := AfterBatch(m, items, lim);
    ProjectAgain(m, items);
    MismatchComesFirst(m', items, lim);
  }
}
