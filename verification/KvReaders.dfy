/** What clients of the sealed store observe, in terms of the calls and responses alone. */
module KvReaders {
  import opened Options
  import opened Text
  import opened Platform
  import opened KvStore
  import opened KvClient
  import Runs
  import opened KvRefinement

  /** The value the last item for the key carries. */
  function LastValue(draws: seq<Draw>, key: string): Option<Bytes> {
    if draws == [] then None
    else if draws[|draws| - 1].item.key == key then Some(draws[|draws| - 1].item.value)
    else LastValue(draws[..|draws| - 1], key)
  }

  /** What one call and its response do to what is visible. */
  function Shown(before: Option<Bytes>, call: Call, r: Response, key: string): Option<Bytes> {
    if call.PutCall? && r.PutResponse? && r.put.Ok? && LastValue(call.draws, key).Some? then LastValue(call.draws, key)
    else if call.DeleteCall? && r.DeleteResponse? && r.error.None? && key in call.keys then None
    else before
  }

  /** The plaintext a reader should see, found by searching calls and responses backwards: the last
      put that was answered Ok and wrote the key, unless the key was deleted since. */
  function Visible(calls: seq<Call>, rs: seq<Response>, key: string): Option<Bytes>
    requires |rs| == |calls|
  {
    if calls == [] then None
    else
      var n := |calls| - 1;
      Shown(Visible(calls[..n], rs[..n], key), calls[n], rs[n], key)
  }

  function ValueAt(s: Plain, key: string): Option<Bytes> {
    if key in s then Some(s[key].value) else None
  }

  lemma {:induction false} WriteLastWins(s: Plain, draws: seq<Draw>, stamp: Draw -> string, author: Option<string>,
                                         now: string, key: string)
    ensures ValueAt(Write(s, draws, stamp, author, now), key)
            == if LastValue(draws, key).Some? then LastValue(draws, key) else ValueAt(s, key)
  {
    if draws != [] { WriteLastWins(s, draws[..|draws| - 1], stamp, author, now, key); }
  }

  lemma StepVisible(lim: Limits, stamp: Draw -> string, s: Plain, call: Call, key: string)
    ensures var (s', r) := PlainStep(lim, stamp, s, call); ValueAt(s', key) == Shown(ValueAt(s, key), call, r, key)
  {
    if call.PutCall? { WriteLastWins(s, call.draws, stamp, call.clientId, call.now, key); }
  }

  lemma VisibleStep(calls: seq<Call>, rs: seq<Response>, call: Call, r: Response, key: string)
    requires |rs| == |calls|
    ensures Visible(calls + [call], rs + [r], key) == Shown(Visible(calls, rs, key), call, r, key)
  {
    assert (calls + [call])[..|calls|] == calls && (rs + [r])[..|rs|] == rs;
  }

  /** The plain state holds exactly what is visible from the outside. */
  lemma {:induction false} StateIsVisible(step: (Plain, Call) -> (Plain, Response), lim: Limits, stamp: Draw -> string,
                                          calls: seq<Call>, key: string)
    requires step == PlainMachine(lim, stamp)
    ensures |Runs.Run(step, map[], calls).1| == |calls|
    ensures ValueAt(Runs.Run(step, map[], calls).0, key) == Visible(calls, Runs.Run(step, map[], calls).1, key)
  {
    if calls != [] {
      var n := |calls| - 1;
      var (s, rs) := Runs.Run(step, map[], calls[..n]);
      StateIsVisible(step, lim, stamp, calls[..n], key);
      StepVisible(lim, stamp, s, calls[n], key);
      VisibleStep(calls[..n], rs, calls[n], step(s, calls[n]).1, key);
      assert calls == calls[..n] + [calls[n]];
    }
  }

  /** A run seen at its i-th call: the states before it on both sides, and the response. */
  lemma At(p: Platform, kvKey: Bytes, lim: Limits, made: set<Bytes>, calls: seq<Call>, i: nat, key: string)
    returns (m: Bucket, s: Plain)
    requires Lawful(p) && |kvKey| == KEY_LENGTH && GoodCalls(p, kvKey, made, calls) && i < |calls|
    ensures m == RunSealed(p, kvKey, lim, calls[..i]).0 && s == RunPlain(p, kvKey, lim, calls[..i]).0
    ensures Rel(ViewOf(p, kvKey, made), m, s)
    ensures var rs := RunSealed(p, kvKey, lim, calls).1;
      && |rs| == |calls|
      && rs[i] == PlainStep(lim, Stamp(p, kvKey), s, calls[i]).1
      && ValueAt(s, key) == Visible(calls[..i], rs[..i], key)
  {
    var step := PlainMachine(lim, Stamp(p, kvKey));
    SealedStoreRefinesPlainMap(p, kvKey, lim, calls, made);
    SealedStoreRefinesPlainMap(p, kvKey, lim, calls[..i], made);
    Runs.RunAt(step, map[], calls, i);
    StateIsVisible(step, lim, Stamp(p, kvKey), calls[..i], key);
    m, s := RunSealed(p, kvKey, lim, calls[..i]).0, RunPlain(p, kvKey, lim, calls[..i]).0;
  }

  /** No get fails to decrypt; it answers position by position with the last accepted plaintext, with
      "unchanged" when the client already holds the current checksum, or with "absent". */
  lemma ReadsSeeLastAcceptedWrite(p: Platform, kvKey: Bytes, lim: Limits, made: set<Bytes>, calls: seq<Call>,
                                  i: nat, j: nat)
    requires Lawful(p) && |kvKey| == KEY_LENGTH && GoodCalls(p, kvKey, made, calls)
    requires i < |calls| && calls[i].GetCall? && AllKeysOk(KeysOf(calls[i].wanted)) && j < |calls[i].wanted|
    ensures var rs := RunSealed(p, kvKey, lim, calls).1;
      && |rs| == |calls| && rs[i].GetResponse? && rs[i].got.Ok? && |rs[i].got.value| == |calls[i].wanted|
      && var item := calls[i].wanted[j];
         match rs[i].got.value[j]
         case IsAbsent(k) => k == item.key && Visible(calls[..i], rs[..i], k) == None
         case IsUnchanged(k) => k == item.key && Visible(calls[..i], rs[..i], k).Some? && item.knownChecksum.Some?
         case IsUpdated(k, v, t, _, _) =>
           k == item.key && Visible(calls[..i], rs[..i], k) == Some(v) && item.knownChecksum != Some(t)
  {
    var item := calls[i].wanted[j];
    var _, s := At(p, kvKey, lim, made, calls, i, item.key);
    assert PlainAnswers(s, calls[i].wanted)[j] == PlainAnswer(s, item);
  }

  lemma PutOkExactly(lim: Limits, stamp: Draw -> string, s: Plain, draws: seq<Draw>, author: Option<string>,
                     now: string)
    ensures PlainPut(lim, s, draws, stamp, author, now).1.Ok? <==>
              && (forall k :: 0 <= k < |draws| ==> Storable(draws[k].item))
              && (forall k :: 0 <= k < |draws| ==> !Stale(s, draws[k].item))
              && Affordable(Write(s, draws, stamp, author, now), lim)
  {
    NothingRefused(draws);
    NothingStale(s, draws);
    assert forall k :: 0 <= k < |draws| ==> (Storable(draws[k].item) <==> ItemRefusal(draws[k].item) == None);
  }

  /** A put is answered Ok exactly when every item can be sealed (1 to 256 UTF-16 units of key, at
      most 65536 - 28 bytes of value), no expected checksum is stale and the result is within quota. */
  lemma PutsAcceptedExactly(p: Platform, kvKey: Bytes, lim: Limits, made: set<Bytes>, calls: seq<Call>, i: nat)
    requires Lawful(p) && |kvKey| == KEY_LENGTH && GoodCalls(p, kvKey, made, calls) && i < |calls| && calls[i].PutCall?
    ensures var rs, s, c := RunSealed(p, kvKey, lim, calls).1, RunPlain(p, kvKey, lim, calls[..i]).0, calls[i];
      && |rs| == |calls| && rs[i].PutResponse?
      && (rs[i].put.Ok? <==>
            && (forall k :: 0 <= k < |c.draws| ==> Storable(c.draws[k].item))
            && (forall k :: 0 <= k < |c.draws| ==> !Stale(s, c.draws[k].item))
            && Affordable(Write(s, c.draws, Stamp(p, kvKey), c.clientId, c.now), lim))
  {
    var _, s := At(p, kvKey, lim, made, calls, i, "");
    PutOkExactly(lim, Stamp(p, kvKey), s, calls[i].draws, calls[i].clientId, calls[i].now);
  }

  /** A put that is not answered Ok changes nothing any reader sees. */
  lemma RefusedPutsAreInvisible(p: Platform, kvKey: Bytes, lim: Limits, made: set<Bytes>, calls: seq<Call>,
                                i: nat, key: string)
    requires Lawful(p) && |kvKey| == KEY_LENGTH && GoodCalls(p, kvKey, made, calls) && i < |calls| && calls[i].PutCall?
    ensures var (m, rs) := RunSealed(p, kvKey, lim, calls);
      && |rs| == |calls| && rs[i].PutResponse?
      && (rs[i].put.Err? ==>
            && RunSealed(p, kvKey, lim, calls[..i + 1]).0 == RunSealed(p, kvKey, lim, calls[..i]).0
            && Visible(calls[..i + 1], rs[..i + 1], key) == Visible(calls[..i], rs[..i], key))
  {
    var m, s := At(p, kvKey, lim, made, calls, i, key);
    Runs.RunAt(SealedMachine(p, kvKey, lim), map[], calls, i);
    var rs := RunSealed(p, kvKey, lim, calls).1;
    if rs[i].put.Err? {
      NothingNewVisible(calls, rs, i, key);
      RefusedPutKeeps(p, kvKey, lim, RunSealed(p, kvKey, lim, calls[..i]).0, calls[i]);
    }
  }

  lemma RefusedPutKeeps(p: Platform, kvKey: Bytes, lim: Limits, m: Bucket, call: Call)
    requires call.PutCall?
    ensures var (m', r) := SealedStep(p, kvKey, lim, m, call); r.PutResponse? && (r.put.Err? ==> m' == m)
  {
  }

  lemma NothingNewVisible(calls: seq<Call>, rs: seq<Response>, i: nat, key: string)
    requires i < |calls| == |rs| && calls[i].PutCall? && rs[i].PutResponse? && rs[i].put.Err?
    ensures Visible(calls[..i + 1], rs[..i + 1], key) == Visible(calls[..i], rs[..i], key)
  {
    assert calls[..i + 1][..i] == calls[..i] && rs[..i + 1][..i] == rs[..i];
  }

  predicate Storable(item: KVPutItem) {
    1 <= JsLength(item.key) <= 256 && |item.value| <= 65536 - 28
  }

  predicate Stale(s: Plain, item: KVPutItem) {
    item.expectedChecksum.Some? && item.expectedChecksum != TokenAt(s, item.key)
  }

  lemma {:induction false} NothingStale(s: Plain, draws: seq<Draw>)
    ensures StaleItems(s, draws) == [] <==> forall k :: 0 <= k < |draws| ==> !Stale(s, draws[k].item)
  {
    if draws != [] {
      var n := |draws| - 1;
      NothingStale(s, draws[..n]);
      assert forall k :: 0 <= k < n ==> draws[..n][k] == draws[k];
    }
  }

  // ----- checksum caches -----

  /** Checksums do not collide among the ciphertexts of the run. */
  ghost predicate CollisionFree(p: Platform, made: set<Bytes>) {
    forall a, b :: a in made && b in made && Checksum(p, a) == Checksum(p, b) ==> a == b
  }

  /** After call i a client may remember `value` for `key` under `checksum`: the call was a get that
      returned the pair, or a put of the value that was answered with the checksum. */
  predicate Learned(call: Call, r: Response, j: nat, key: string, value: Bytes, checksum: string) {
    || (call.GetCall? && r.GetResponse? && r.got.Ok? && j < |r.got.value| && r.got.value[j].IsUpdated?
        && r.got.value[j].key == key && r.got.value[j].value == value && r.got.value[j].checksum == checksum)
    || (call.PutCall? && r.PutResponse? && r.put.Ok? && j < |r.put.value| && j < |call.draws|
        && call.draws[j].item.key == key && call.draws[j].item.value == value && r.put.value[j].checksum == checksum)
  }

  lemma StoredNamesCiphertext(p: Platform, kvKey: Bytes, made: set<Bytes>, m: Bucket, s: Plain, key: string)
    returns (ct: Bytes)
    requires Rel(ViewOf(p, kvKey, made), m, s) && key in s
    ensures ct in made && Checksum(p, ct) == s[key].token && OpenWire(p, kvKey, key, ct) == Opened(s[key].value)
  {
    ct := m[key].ciphertext;
    assert RowRel(ViewOf(p, kvKey, made), key, m[key], s[key]);
  }

  lemma LearnedByGet(p: Platform, kvKey: Bytes, lim: Limits, made: set<Bytes>, m: Bucket, s: Plain, call: Call, j: nat,
                     key: string, value: Bytes, checksum: string) returns (ct: Bytes)
    requires Rel(ViewOf(p, kvKey, made), m, s) && call.GetCall?
    requires Learned(call, PlainStep(lim, Stamp(p, kvKey), s, call).1, j, key, value, checksum)
    ensures ct in made && Checksum(p, ct) == checksum && OpenWire(p, kvKey, key, ct) == Opened(value)
  {
    assert PlainAnswers(s, call.wanted)[j] == PlainAnswer(s, call.wanted[j]);
    ct := StoredNamesCiphertext(p, kvKey, made, m, s, key);
  }

  lemma LearnedByPut(p: Platform, kvKey: Bytes, lim: Limits, made: set<Bytes>, s: Plain, call: Call, j: nat,
                     key: string, value: Bytes, checksum: string) returns (ct: Bytes)
    requires Lawful(p) && |kvKey| == KEY_LENGTH && GoodCall(p, kvKey, made, call) && call.PutCall?
    requires Learned(call, PlainStep(lim, Stamp(p, kvKey), s, call).1, j, key, value, checksum)
    ensures ct in made && Checksum(p, ct) == checksum && OpenWire(p, kvKey, key, ct) == Opened(value)
  {
    var d := call.draws[j];
    ct := DrawWire(p, kvKey, d);
    OpenSealedWire(p, kvKey, d.item.key, d.item.value, d.nonce);
    assert Receipt(call.draws, Stamp(p, kvKey), call.now)[j].checksum == Stamp(p, kvKey)(d);
  }

  /** What a client learned names a ciphertext of the run that opens to the remembered value. */
  lemma LearnedNamesCiphertext(p: Platform, kvKey: Bytes, lim: Limits, made: set<Bytes>, calls: seq<Call>,
                               i: nat, j: nat, key: string, value: Bytes, checksum: string) returns (ct: Bytes)
    requires Lawful(p) && |kvKey| == KEY_LENGTH && GoodCalls(p, kvKey, made, calls) && i < |calls|
    requires |RunSealed(p, kvKey, lim, calls).1| == |calls|
    requires Learned(calls[i], RunSealed(p, kvKey, lim, calls).1[i], j, key, value, checksum)
    ensures ct in made && Checksum(p, ct) == checksum && OpenWire(p, kvKey, key, ct) == Opened(value)
  {
    var m, s := At(p, kvKey, lim, made, calls, i, key);
    if calls[i].GetCall? {
      ct := LearnedByGet(p, kvKey, lim, made, m, s, calls[i], j, key, value, checksum);
    } else {
      ct := LearnedByPut(p, kvKey, lim, made, s, calls[i], j, key, value, checksum);
    }
  }

  /** When a get answers "unchanged" for a checksum, the value the client remembers under that
      checksum is the value currently stored, whatever was written in between. */
  lemma UnchangedMeansCacheIsCurrent(p: Platform, kvKey: Bytes, lim: Limits, made: set<Bytes>, calls: seq<Call>,
                                     i: nat, j: nat, value: Bytes, g: nat, w: nat)
    requires Lawful(p) && |kvKey| == KEY_LENGTH && GoodCalls(p, kvKey, made, calls) && CollisionFree(p, made)
    requires i < |calls| && g < |calls| == |RunSealed(p, kvKey, lim, calls).1|
    requires calls[g].GetCall? && w < |calls[g].wanted| && calls[g].wanted[w].knownChecksum.Some?
    requires Learned(calls[i], RunSealed(p, kvKey, lim, calls).1[i], j, calls[g].wanted[w].key, value,
                     calls[g].wanted[w].knownChecksum.value)
    requires var r := RunSealed(p, kvKey, lim, calls).1[g];
      r.GetResponse? && r.got.Ok? && w < |r.got.value| && r.got.value[w].IsUnchanged?
    ensures Visible(calls[..g], RunSealed(p, kvKey, lim, calls).1[..g], calls[g].wanted[w].key) == Some(value)
  {
    var item := calls[g].wanted[w];
    var remembered := LearnedNamesCiphertext(p, kvKey, lim, made, calls, i, j, item.key, value,
                                             item.knownChecksum.value);
    var m, s := At(p, kvKey, lim, made, calls, g, item.key);
    assert PlainAnswers(s, calls[g].wanted)[w] == PlainAnswer(s, item);
    var stored := StoredNamesCiphertext(p, kvKey, made, m, s, item.key);
    assert stored == remembered;
  }
}
