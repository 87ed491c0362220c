/** The sealed pipeline refines a plain map.  `PlainStep` knows nothing of keys, ciphertexts or hashes:
    it is a map from key to plaintext, where every write carries an opaque token (the checksum handed
    back to clients) and every value costs 28 bytes more than its length. */
module KvRefinement {
  import opened Options
  import opened Text
  import JsMaps
  import KeySort
  import opened Platform
  import opened KvStore
  import opened KvClient
  import Runs
  import B = Base64Url

  // ----- the plain machine -----

  datatype PlainRow = PlainRow(value: Bytes, token: string, updatedAt: string, updatedBy: Option<string>)

  type Plain = map<string, PlainRow>

  datatype Call =
    | PutCall(draws: seq<Draw>, clientId: Option<string>, now: string)
    | GetCall(wanted: seq<GetItem>)
    | DeleteCall(keys: seq<string>)
    | ListCall

  datatype Response =
    | PutResponse(put: KVPutResult)
    | GetResponse(got: KVGetResults)
    | DeleteResponse(error: Option<ClientError>)
    | ListResponse(entries: seq<KVListEntry>)

  /** A key has 1 to 256 UTF-16 units. */
  predicate IsKey(key: string) {
    1 <= |Utf16(key)| <= 256
  }

  predicate AreKeys(keys: seq<string>) {
    forall i :: 0 <= i < |keys| ==> IsKey(keys[i])
  }

  function ItemRefusal(item: KVPutItem): Option<ClientError> {
    if !IsKey(item.key) then Some(KeyTooLong)
    else if |item.value| > 65536 then Some(BlobTooLarge)
    else if |item.value| > 65508 then Some(SealThrew)
    else None
  }

  /** The first item that cannot be stored decides. */
  function Refusal(draws: seq<Draw>): Option<ClientError> {
    if draws == [] then None
    else
      var init := Refusal(draws[..|draws| - 1]);
      if init.Some? then init else ItemRefusal(draws[|draws| - 1].item)
  }

  function TokenAt(s: Plain, k: string): Option<string> {
    if k in s then Some(s[k].token) else None
  }

  function StaleItems(s: Plain, draws: seq<Draw>): seq<Conflict> {
    if draws == [] then []
    else
      var last := draws[|draws| - 1].item;
      StaleItems(s, draws[..|draws| - 1]) +
      if last.expectedChecksum.Some? && last.expectedChecksum != TokenAt(s, last.key)
      then [Conflict(last.key, last.expectedChecksum.value, TokenAt(s, last.key))]
      else []
  }

  /** `stamp` issues the token of a write. */
  function Write(s: Plain, draws: seq<Draw>, stamp: Draw -> string, author: Option<string>, now: string): Plain {
    if draws == [] then s
    else
      var d := draws[|draws| - 1];
      Write(s, draws[..|draws| - 1], stamp, author, now)[d.item.key := PlainRow(d.item.value, stamp(d), now, author)]
  }

  function Costs(s: Plain): map<string, nat> {
    map k | k in s :: |s[k].value| + 28
  }

  ghost predicate Affordable(s: Plain, lim: Limits) {
    |s| <= lim.keyLimit && JsMaps.Total(Costs(s)) <= lim.byteLimit
  }

  function Receipt(draws: seq<Draw>, stamp: Draw -> string, now: string): seq<AcceptedEntry> {
    seq(|draws|, i requires 0 <= i < |draws| => AcceptedEntry(draws[i].item.key, stamp(draws[i]), now))
  }

  function PlainAnswer(s: Plain, item: GetItem): KVGetResult {
    if item.key !in s then IsAbsent(item.key)
    else
      var r := s[item.key];
      if item.knownChecksum == Some(r.token) then IsUnchanged(item.key)
      else IsUpdated(item.key, r.value, r.token, r.updatedAt, r.updatedBy)
  }

  function PlainAnswers(s: Plain, wanted: seq<GetItem>): seq<KVGetResult> {
    seq(|wanted|, i requires 0 <= i < |wanted| => PlainAnswer(s, wanted[i]))
  }

  ghost function PlainList(s: Plain): seq<KVListEntry> {
    var ks := KeySort.SortedKeys(s.Keys);
    seq(|ks|, i requires 0 <= i < |ks| =>
      assert ks[i] in ks;
      var r := s[ks[i]];
      KVListEntry(ks[i], r.token, |r.value| + 28, r.updatedAt, r.updatedBy))
  }

  ghost function PlainPut(lim: Limits, s: Plain, draws: seq<Draw>, stamp: Draw -> string,
                          author: Option<string>, now: string): (Plain, KVPutResult)
  {
    if Refusal(draws).Some? then (s, Err(Refusal(draws).value))
    else if StaleItems(s, draws) != [] then (s, Err(Mismatch(StaleItems(s, draws))))
    else
      var written := Write(s, draws, stamp, author, now);
      if Affordable(written, lim) then (written, Ok(Receipt(draws, stamp, now))) else (s, Err(OverQuota))
  }

  ghost function PlainStep(lim: Limits, stamp: Draw -> string, s: Plain, call: Call): (Plain, Response) {
    match call
    case PutCall(draws, clientId, now) =>
      var (s', r) := PlainPut(lim, s, draws, stamp, clientId, now);
      (s', PutResponse(r))
    case GetCall(wanted) =>
      var keys := seq(|wanted|, i requires 0 <= i < |wanted| => wanted[i].key);
      (s, GetResponse(if AreKeys(keys) then Ok(PlainAnswers(s, wanted)) else Err(KeyTooLong)))
    case DeleteCall(keys) =>
      if AreKeys(keys) then (s - (set k | k in keys), DeleteResponse(None))
      else (s, DeleteResponse(Some(KeyTooLong)))
    case ListCall => (s, ListResponse(PlainList(s)))
  }

  // ----- the sealed machine: one user's bucket, any number of clients holding the same K -----

  ghost function SealedStep(p: Platform, kvKey: Bytes, lim: Limits, m: Bucket, call: Call): (Bucket, Response) {
    match call
    case PutCall(draws, clientId, now) =>
      var (m', r) := PutEffect(Sealer(p, kvKey), Decoder(p, clientId, now), lim, m, draws);
      (m', PutResponse(r))
    case GetCall(wanted) => (m, GetResponse(GetEffect(Opener(p, kvKey), m, wanted)))
    case DeleteCall(keys) =>
      (m - (if AllKeysOk(keys) then JsMaps.Elements(keys) else {}),
       DeleteResponse(if AllKeysOk(keys) then None else Some(KeyTooLong)))
    case ListCall => (m, ListResponse(ListEffect(m)))
  }

  ghost function SealedMachine(p: Platform, kvKey: Bytes, lim: Limits): (Bucket, Call) -> (Bucket, Response) {
    (m: Bucket, c: Call) => SealedStep(p, kvKey, lim, m, c)
  }

  ghost function PlainMachine(lim: Limits, stamp: Draw -> string): (Plain, Call) -> (Plain, Response) {
    (s: Plain, c: Call) => PlainStep(lim, stamp, s, c)
  }

  function DrawWire(p: Platform, kvKey: Bytes, d: Draw): Bytes {
    Wire(p, kvKey, d.item.key, d.item.value, d.nonce)
  }

  /** The token of a write is the checksum of the ciphertext made for it. */
  function Stamp(p: Platform, kvKey: Bytes): Draw -> string {
    (d: Draw) => Checksum(p, DrawWire(p, kvKey, d))
  }

  // ----- the simulation relation -----

  /** How ciphertexts are read, and which ones the clients have made: all the relation depends on. */
  datatype View = View(open: (string, Bytes) -> OpenKvBlobResult, sum: Bytes -> string, made: set<Bytes>)

  function ViewOf(p: Platform, kvKey: Bytes, made: set<Bytes>): View {
    View((k: string, ct: Bytes) => OpenWire(p, kvKey, k, ct), (ct: Bytes) => Checksum(p, ct), made)
  }

  /** Every put draws 12-byte nonces, and its ciphertexts are among those made. */
  predicate GoodCall(p: Platform, kvKey: Bytes, made: set<Bytes>, call: Call) {
    call.PutCall? ==> forall i :: 0 <= i < |call.draws| ==>
      |call.draws[i].nonce| == NONCE_LENGTH && DrawWire(p, kvKey, call.draws[i]) in made
  }

  predicate RowRel(w: View, k: string, row: KvRow, r: PlainRow) {
    && row.key == k
    && w.open(k, row.ciphertext) == Opened(r.value)
    && row.checksum == r.token == w.sum(row.ciphertext)
    && row.sizeBytes == |row.ciphertext| == |r.value| + OVERHEAD
    && row.updatedAt == r.updatedAt && row.updatedByClientId == r.updatedBy
    && row.ciphertext in w.made
  }

  predicate Rel(w: View, m: Bucket, s: Plain) {
    m.Keys == s.Keys && forall k :: k in m ==> RowRel(w, k, m[k], s[k])
  }

  predicate InputRel(w: View, input: PutInput, item: KVPutItem, token: string, clientId: Option<string>, now: string) {
    && RowRel(w, item.key, input.row, PlainRow(item.value, token, now, clientId))
    && input.expectedChecksum == item.expectedChecksum
  }

  ghost predicate InputsRel(w: View, inputs: seq<PutInput>, draws: seq<Draw>, stamp: Draw -> string,
                            clientId: Option<string>, now: string) {
    && |inputs| == |draws|
    && forall i :: 0 <= i < |draws| ==> InputRel(w, inputs[i], draws[i].item, stamp(draws[i]), clientId, now)
  }

  // ----- one put item, through base64url and AES-GCM -----

  lemma WireItemIsWire(p: Platform, kvKey: Bytes, d: Draw)
    requires Lawful(p) && |kvKey| == KEY_LENGTH && |d.nonce| == NONCE_LENGTH
    ensures ItemRefusal(d.item).Some? ==> WireItemOf(p, kvKey, d) == Err(ItemRefusal(d.item).value)
    ensures ItemRefusal(d.item).None? ==>
              WireItemOf(p, kvKey, d) == Ok(WireItem(d.item.key, B.Encode(DrawWire(p, kvKey, d)),
                                                     d.item.expectedChecksum))
  {
    OpenSealedWire(p, kvKey, d.item.key, d.item.value, d.nonce);
  }

  lemma DecodeWire(p: Platform, item: WireItem, wire: Bytes, clientId: Option<string>, now: string)
    requires B.Decode(item.ciphertext) == Some(wire)
    ensures Decoder(p, clientId, now)(item)
            == Ok(PutInput(KvRow(item.key, wire, Checksum(p, wire), |wire|, now, clientId), item.expectedChecksum))
  {
  }

  /** Sealing one item and decoding it on the other side keeps everything but the plaintext in the clear. */
  lemma WireItemAgrees(p: Platform, kvKey: Bytes, d: Draw, clientId: Option<string>, now: string, made: set<Bytes>)
    requires Lawful(p) && |kvKey| == KEY_LENGTH && |d.nonce| == NONCE_LENGTH && DrawWire(p, kvKey, d) in made
    ensures var sealed := Sealer(p, kvKey)(d);
      match ItemRefusal(d.item)
      case Some(e) => sealed == Err(e)
      case None =>
        && sealed.Ok?
        && var input := Decoder(p, clientId, now)(sealed.value);
           input.Ok? && InputRel(ViewOf(p, kvKey, made), input.value, d.item, Stamp(p, kvKey)(d), clientId, now)
  {
    WireItemIsWire(p, kvKey, d);
    if ItemRefusal(d.item) == None {
      var wire := DrawWire(p, kvKey, d);
      B.RoundTrip(wire);
      OpenSealedWire(p, kvKey, d.item.key, d.item.value, d.nonce);
      DecodeWire(p, WireItem(d.item.key, B.Encode(wire), d.item.expectedChecksum), wire, clientId, now);
      var w := ViewOf(p, kvKey, made);
      assert w.open(d.item.key, wire) == Opened(d.item.value) && w.sum(wire) == Checksum(p, wire);
    }
  }

  // ----- whole batches; nothing below looks inside a ciphertext -----

  lemma {:induction false} RefusalIsFirstFailure(f: Draw -> Result<WireItem, ClientError>, draws: seq<Draw>)
    requires forall i :: 0 <= i < |draws| ==>
               ItemRefusal(draws[i].item) == match f(draws[i]) case Err(e) => Some(e) case Ok(_) => None
    ensures Refusal(draws) == match Traverse(f, draws) case Err(e) => Some(e) case Ok(_) => None
  {
    if draws != [] { RefusalIsFirstFailure(f, draws[..|draws| - 1]); }
  }

  lemma {:induction false} NothingRefused(draws: seq<Draw>)
    ensures Refusal(draws) == None <==> forall i :: 0 <= i < |draws| ==> ItemRefusal(draws[i].item) == None
  {
    if draws != [] {
      var n := |draws| - 1;
      NothingRefused(draws[..n]);
      assert forall i :: 0 <= i < n ==> draws[..n][i] == draws[i];
    }
  }

  /** A put reaches the store with inputs that stand for its items, or is refused for the plain reason. */
  lemma PutInputsAgree(w: View, f: Draw -> Result<WireItem, ClientError>, g: WireItem -> Result<PutInput, ClientError>,
                       stamp: Draw -> string, draws: seq<Draw>, clientId: Option<string>, now: string)
    requires forall i :: 0 <= i < |draws| ==>
               match ItemRefusal(draws[i].item)
               case Some(e) => f(draws[i]) == Err(e)
               case None =>
                 && f(draws[i]).Ok? && g(f(draws[i]).value).Ok?
                 && InputRel(w, g(f(draws[i]).value).value, draws[i].item, stamp(draws[i]), clientId, now)
    ensures match Refusal(draws)
      case Some(e) => Traverse(f, draws) == Err(e)
      case None =>
        && Traverse(f, draws).Ok? && Traverse(g, Traverse(f, draws).value).Ok?
        && InputsRel(w, Traverse(g, Traverse(f, draws).value).value, draws, stamp, clientId, now)
  {
    RefusalIsFirstFailure(f, draws);
    NothingRefused(draws);
    if Refusal(draws) == None {
      TraverseSucceeds(f, draws);
      TraverseSucceeds(g, Traverse(f, draws).value);
    }
  }

  lemma {:induction false} ConflictsAgree(w: View, m: Bucket, s: Plain, inputs: seq<PutInput>, draws: seq<Draw>,
                                          stamp: Draw -> string, clientId: Option<string>, now: string)
    requires Rel(w, m, s) && InputsRel(w, inputs, draws, stamp, clientId, now)
    ensures Conflicts(m, inputs) == StaleItems(s, draws)
  {
    if draws != [] {
      var n := |draws| - 1;
      ConflictsAgree(w, m, s, inputs[..n], draws[..n], stamp, clientId, now);
      assert InputRel(w, inputs[n], draws[n].item, stamp(draws[n]), clientId, now);
    }
  }

  lemma {:induction false} WritesAgree(w: View, m: Bucket, s: Plain, inputs: seq<PutInput>, draws: seq<Draw>,
                                       stamp: Draw -> string, clientId: Option<string>, now: string)
    requires Rel(w, m, s) && InputsRel(w, inputs, draws, stamp, clientId, now)
    ensures Rel(w, Project(m, inputs), Write(s, draws, stamp, clientId, now))
  {
    if draws != [] {
      var n := |draws| - 1;
      WritesAgree(w, m, s, inputs[..n], draws[..n], stamp, clientId, now);
      assert InputRel(w, inputs[n], draws[n].item, stamp(draws[n]), clientId, now);
    }
  }

  lemma FitsAgrees(w: View, m: Bucket, s: Plain, lim: Limits)
    requires Rel(w, m, s)
    ensures Fits(m, lim) <==> Affordable(s, lim)
  {
    assert Sizes(m) == Costs(s);
    assert |m| == |m.Keys| && |s| == |s.Keys|;
  }

  lemma ReceiptAgrees(w: View, inputs: seq<PutInput>, draws: seq<Draw>, stamp: Draw -> string,
                      clientId: Option<string>, now: string)
    requires InputsRel(w, inputs, draws, stamp, clientId, now)
    ensures Entries(inputs) == Receipt(draws, stamp, now)
  {
    forall i | 0 <= i < |draws| ensures Entries(inputs)[i] == Receipt(draws, stamp, now)[i] {
      assert InputRel(w, inputs[i], draws[i].item, stamp(draws[i]), clientId, now);
    }
  }

  lemma PutEffectAgrees(w: View, f: Draw -> Result<WireItem, ClientError>, g: WireItem -> Result<PutInput, ClientError>,
                        lim: Limits, m: Bucket, s: Plain, draws: seq<Draw>, stamp: Draw -> string,
                        clientId: Option<string>, now: string)
    requires Rel(w, m, s)
    requires match Refusal(draws)
      case Some(e) => Traverse(f, draws) == Err(e)
      case None =>
        && Traverse(f, draws).Ok? && Traverse(g, Traverse(f, draws).value).Ok?
        && InputsRel(w, Traverse(g, Traverse(f, draws).value).value, draws, stamp, clientId, now)
    ensures var (m', r) := PutEffect(f, g, lim, m, draws);
            var (s', r') := PlainPut(lim, s, draws, stamp, clientId, now);
            Rel(w, m', s') && r == r'
  {
    if Refusal(draws) == None {
      var inputs := Traverse(g, Traverse(f, draws).value).value;
      ConflictsAgree(w, m, s, inputs, draws, stamp, clientId, now);
      WritesAgree(w, m, s, inputs, draws, stamp, clientId, now);
      FitsAgrees(w, Project(m, inputs), Write(s, draws, stamp, clientId, now), lim);
      ReceiptAgrees(w, inputs, draws, stamp, clientId, now);
    }
  }

  // ----- one call -----

  lemma PutAgrees(p: Platform, kvKey: Bytes, lim: Limits, m: Bucket, s: Plain, call: Call, made: set<Bytes>)
    requires Lawful(p) && |kvKey| == KEY_LENGTH && Rel(ViewOf(p, kvKey, made), m, s) && GoodCall(p, kvKey, made, call)
    requires call.PutCall?
    ensures var (m', r) := SealedStep(p, kvKey, lim, m, call);
            var (s', r') := PlainStep(lim, Stamp(p, kvKey), s, call);
            Rel(ViewOf(p, kvKey, made), m', s') && r == r'
  {
    var w, f, stamp := ViewOf(p, kvKey, made), Sealer(p, kvKey), Stamp(p, kvKey);
    var g := Decoder(p, call.clientId, call.now);
    forall i | 0 <= i < |call.draws|
      ensures match ItemRefusal(call.draws[i].item)
        case Some(e) => f(call.draws[i]) == Err(e)
        case None =>
          && f(call.draws[i]).Ok? && g(f(call.draws[i]).value).Ok?
          && InputRel(w, g(f(call.draws[i]).value).value, call.draws[i].item, stamp(call.draws[i]), call.clientId,
                      call.now)
    {
      WireItemAgrees(p, kvKey, call.draws[i], call.clientId, call.now, made);
    }
    PutInputsAgree(w, f, g, stamp, call.draws, call.clientId, call.now);
    PutEffectAgrees(w, f, g, lim, m, s, call.draws, stamp, call.clientId, call.now);
  }

  lemma AnswerAgrees(p: Platform, kvKey: Bytes, m: Bucket, s: Plain, item: GetItem, made: set<Bytes>)
    requires Rel(ViewOf(p, kvKey, made), m, s)
    ensures Opener(p, kvKey)(Answer(m, item)) == Ok(PlainAnswer(s, item))
  {
    if item.key in m {
      OpenEncoded(p, kvKey, item.key, m[item.key].ciphertext);
      assert ViewOf(p, kvKey, made).open(item.key, m[item.key].ciphertext) == Opened(s[item.key].value);
    }
  }

  lemma GetAgrees(p: Platform, kvKey: Bytes, m: Bucket, s: Plain, wanted: seq<GetItem>, made: set<Bytes>)
    requires Rel(ViewOf(p, kvKey, made), m, s) && AllKeysOk(KeysOf(wanted))
    ensures GetEffect(Opener(p, kvKey), m, wanted) == Ok(PlainAnswers(s, wanted))
  {
    PartitionIsLookup(m, wanted);
    var answers := PartitionBatchGet(wanted, PresentRows(m, KeysOf(wanted)));
    forall i | 0 <= i < |wanted| ensures Opener(p, kvKey)(answers[i]) == Ok(PlainAnswer(s, wanted[i])) {
      AnswerAgrees(p, kvKey, m, s, wanted[i], made);
    }
    TraverseSucceeds(Opener(p, kvKey), answers);
    assert Traverse(Opener(p, kvKey), answers).value == PlainAnswers(s, wanted);
  }

  lemma ListAgrees(w: View, m: Bucket, s: Plain)
    requires Rel(w, m, s)
    ensures ListEffect(m) == PlainList(s)
  {
    var ks := KeySort.SortedKeys(m.Keys);
    assert |ListEffect(m)| == |ks| == |PlainList(s)|;
    forall i | 0 <= i < |ks| ensures ListEffect(m)[i] == PlainList(s)[i] {
      assert ks[i] in ks;
      assert RowRel(w, ks[i], m[ks[i]], s[ks[i]]);
    }
  }

  lemma DeleteAgrees(w: View, m: Bucket, s: Plain, keys: seq<string>)
    requires Rel(w, m, s)
    ensures Rel(w, m - JsMaps.Elements(keys), s - JsMaps.Elements(keys)) && m - {} == m
  {
  }

  /** One call keeps the relation and gets the response the plain map gives. */
  lemma StepRefines(p: Platform, kvKey: Bytes, lim: Limits, m: Bucket, s: Plain, call: Call, made: set<Bytes>)
    requires Lawful(p) && |kvKey| == KEY_LENGTH && Rel(ViewOf(p, kvKey, made), m, s) && GoodCall(p, kvKey, made, call)
    ensures var (m', r) := SealedStep(p, kvKey, lim, m, call);
            var (s', r') := PlainStep(lim, Stamp(p, kvKey), s, call);
            Rel(ViewOf(p, kvKey, made), m', s') && r == r'
  {
    match call {
      case PutCall(_, _, _) => PutAgrees(p, kvKey, lim, m, s, call, made);
      case GetCall(wanted) => if AllKeysOk(KeysOf(wanted)) { GetAgrees(p, kvKey, m, s, wanted, made); }
      case DeleteCall(keys) => DeleteAgrees(ViewOf(p, kvKey, made), m, s, keys);
      case ListCall => ListAgrees(ViewOf(p, kvKey, made), m, s);
    }
  }

  // ----- whole runs -----

  ghost function RunSealed(p: Platform, kvKey: Bytes, lim: Limits, calls: seq<Call>): (Bucket, seq<Response>) {
    Runs.Run(SealedMachine(p, kvKey, lim), map[], calls)
  }

  ghost function RunPlain(p: Platform, kvKey: Bytes, lim: Limits, calls: seq<Call>): (Plain, seq<Response>) {
    Runs.Run(PlainMachine(lim, Stamp(p, kvKey)), map[], calls)
  }

  ghost predicate GoodCalls(p: Platform, kvKey: Bytes, made: set<Bytes>, calls: seq<Call>) {
    forall i :: 0 <= i < |calls| ==> GoodCall(p, kvKey, made, calls[i])
  }

  /** Over every run of puts, gets, deletes and listings by any clients sharing one K, the sealed
      store answers exactly as the plain map does. */
  lemma SealedStoreRefinesPlainMap(p: Platform, kvKey: Bytes, lim: Limits, calls: seq<Call>, made: set<Bytes>)
    requires Lawful(p) && |kvKey| == KEY_LENGTH && GoodCalls(p, kvKey, made, calls)
    ensures RunSealed(p, kvKey, lim, calls).1 == RunPlain(p, kvKey, lim, calls).1
    ensures Rel(ViewOf(p, kvKey, made), RunSealed(p, kvKey, lim, calls).0, RunPlain(p, kvKey, lim, calls).0)
  {
    var w := ViewOf(p, kvKey, made);
    var sealed, plain := SealedMachine(p, kvKey, lim), PlainMachine(lim, Stamp(p, kvKey));
    var rel := (m: Bucket, s: Plain) => Rel(w, m, s);
    var good := (c: Call) => GoodCall(p, kvKey, made, c);
    forall m, s, c | rel(m, s) && good(c)
      ensures rel(sealed(m, c).0, plain(s, c).0) && sealed(m, c).1 == plain(s, c).1
    {
      StepRefines(p, kvKey, lim, m, s, c, made);
    }
    assert forall i :: 0 <= i < |calls| ==> good(calls[i]);
    Runs.RunSimulates(sealed, plain, rel, good, map[], map[], calls);
  }
}
