/** Whole histories of the registry: any sequence of batches and deletions by any users. */
module KvHistory {
  import opened Options
  import JsMaps
  import opened Platform
  import opened KvStore

  datatype Event =
    | Batch(user: string, items: seq<PutInput>)
    | Remove(user: string, keys: seq<string>)

  type World = map<string, Bucket>

  function BucketOf(w: World, user: string): Bucket {
    if user in w then w[user] else map[]
  }

  ghost function Step(w: World, e: Event, lim: Limits): World {
    match e
    case Batch(u, items) => w[u := AfterBatch(BucketOf(w, u), items, lim)]
    case Remove(u, keys) => w[u := BucketOf(w, u) - JsMaps.Elements(keys)]
  }

  ghost function Run(h: seq<Event>, lim: Limits): World {
    if h == [] then map[] else Step(Run(h[..|h| - 1], lim), h[|h| - 1], lim)
  }

  /** The i-th event of the history is a batch and was accepted. */
  ghost predicate AcceptedAt(h: seq<Event>, i: nat, lim: Limits)
    requires i < |h|
  {
    h[i].Batch? && BatchOutcome(BucketOf(Run(h[..i], lim), h[i].user), h[i].items, lim).Accepted?
  }

  /** The write a reader should see, found by searching the history backwards: the last accepted
      item for the key, unless a deletion of the key came later. */
  ghost function LastWrite(h: seq<Event>, lim: Limits, user: string, key: string): Option<KvRow> {
    if h == [] then None
    else
      var n := |h| - 1;
      if h[n].Batch? && h[n].user == user && AcceptedAt(h, n, lim) && LastFor(h[n].items, key).Some?
      then LastFor(h[n].items, key)
      else if h[n].Remove? && h[n].user == user && key in h[n].keys then None
      else LastWrite(h[..n], lim, user, key)
  }

  /** Every bucket holds exactly the last accepted writes of its own user. */
  lemma {:induction false} HistoryDeterminesContents(h: seq<Event>, lim: Limits, user: string, key: string)
    ensures Lookup(BucketOf(Run(h, lim), user), key) == LastWrite(h, lim, user, key)
  {
    if h != [] {
      var n := |h| - 1;
      HistoryDeterminesContents(h[..n], lim, user, key);
      if h[n].Batch? && h[n].user == user {
        LastItemWins(BucketOf(Run(h[..n], lim), user), h[n].items, key);
      }
    }
  }

  /** An event of one user leaves the other users' buckets as they were, and a refused batch leaves
      its own as well. */
  lemma OthersUntouched(h: seq<Event>, i: nat, lim: Limits, user: string)
    requires i < |h|
    requires h[i].user != user || (h[i].Batch? && !AcceptedAt(h, i, lim))
    ensures BucketOf(Run(h[..i + 1], lim), user) == BucketOf(Run(h[..i], lim), user)
  {
    assert h[..i + 1][..i] == h[..i] && h[..i + 1][i] == h[i];
  }

  /** Compare-and-set writes form a chain: an accepted item with an expected checksum replaced
      exactly the last accepted write of its key, and that write carried the expected checksum. */
  lemma CasChain(h: seq<Event>, i: nat, j: nat, lim: Limits)
    requires i < |h| && AcceptedAt(h, i, lim)
    requires j < |h[i].items| && h[i].items[j].expectedChecksum.Some?
    ensures var previous := LastWrite(h[..i], lim, h[i].user, h[i].items[j].row.key);
      previous.Some? && Some(previous.value.checksum) == h[i].items[j].expectedChecksum
  {
    var m := BucketOf(Run(h[..i], lim), h[i].user);
    MismatchComesFirst(m, h[i].items, lim);
    assert !Conflicting(m, h[i].items[j]);
    HistoryDeterminesContents(h[..i], lim, h[i].user, h[i].items[j].row.key);
  }

  /** In every reachable state no user exceeds the key limit or the byte limit. */
  lemma {:induction false} QuotaInvariant(h: seq<Event>, lim: Limits, user: string)
    ensures var m := BucketOf(Run(h, lim), user); m == map[] || Fits(m, lim)
  {
    if h != [] {
      var n := |h| - 1;
      QuotaInvariant(h[..n], lim, user);
      if h[n].Remove? && h[n].user == user {
        RemovalFits(BucketOf(Run(h[..n], lim), user), h[n].keys, lim);
      }
    }
  }

  lemma RemovalFits(m: Bucket, keys: seq<string>, lim: Limits)
    requires m == map[] || Fits(m, lim)
    ensures m - JsMaps.Elements(keys) == map[] || Fits(m - JsMaps.Elements(keys), lim)
  {
    var ks := JsMaps.Elements(keys);
    JsMaps.DroppingKeys(Sizes(m), ks);
    assert Sizes(m - ks) == Sizes(m) - ks;
    assert Sizes(m).Keys == m.Keys && Sizes(m - ks).Keys == (m - ks).Keys;
  }

  /** The row a put item made by decodePutItem carries agrees with its own ciphertext. */
  predicate Consistent(p: Platform, r: KvRow) {
    r.checksum == Checksum(p, r.ciphertext) && r.sizeBytes == |r.ciphertext|
  }

  ghost predicate MadeByDecodePutItem(p: Platform, item: PutInput) {
    exists ct: string :: DecodePutItem(p, item.row.key, ct, item.expectedChecksum, item.row.updatedByClientId,
                                       item.row.updatedAt)
                         == Returned(item)
  }

  ghost predicate DecodedHistory(p: Platform, h: seq<Event>) {
    forall i, j :: 0 <= i < |h| && h[i].Batch? && 0 <= j < |h[i].items| ==> MadeByDecodePutItem(p, h[i].items[j])
  }

  lemma {:induction false} LastForIsAnItem(items: seq<PutInput>, k: string) returns (i: nat)
    requires LastFor(items, k).Some?
    ensures i < |items| && items[i].row.key == k && LastFor(items, k) == Some(items[i].row)
  {
    if items[|items| - 1].row.key == k {
      i := |items| - 1;
    } else {
      i := LastForIsAnItem(items[..|items| - 1], k);
    }
  }

  /** Every stored row is filed under its own key, and its checksum and size are those of its ciphertext. */
  lemma {:induction false} RowsAgreeWithCiphertext(p: Platform, h: seq<Event>, lim: Limits, user: string, key: string)
    requires DecodedHistory(p, h)
    ensures var m := BucketOf(Run(h, lim), user); key in m ==> m[key].key == key && Consistent(p, m[key])
  {
    HistoryDeterminesContents(h, lim, user, key);
    if h != [] && LastWrite(h, lim, user, key).Some? {
      var n := |h| - 1;
      if h[n].Batch? && h[n].user == user && AcceptedAt(h, n, lim) && LastFor(h[n].items, key).Some? {
        var i := LastForIsAnItem(h[n].items, key);
        assert MadeByDecodePutItem(p, h[n].items[i]);
      } else {
        RowsAgreeWithCiphertext(p, h[..n], lim, user, key);
        HistoryDeterminesContents(h[..n], lim, user, key);
      }
    }
  }
}
