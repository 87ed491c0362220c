/** The client side of the registry: values are sealed before they reach the store and opened when
    they are read back.  The HTTP layer is replaced by direct calls. */
module KvClient {
  import opened Options
  import opened Text
  import JsMaps
  import opened Platform
  import opened KvStore
  import MemoryKvStores
  import B = Base64Url

  const KV_MAX_KEY_LENGTH := 256
  const KV_MAX_BLOB_BYTES := 64 * 1024

  // ----- blobs: base64url(nonce ++ AES-GCM ciphertext), bound to the key string -----

  function KvBlobAad(key: string): Bytes {
    Ascii("aviato-kv-blob-v1") + Utf8(key)
  }

  datatype SealedKvBlob = SealedKvBlob(ciphertext: string, checksum: string)

  predicate KeyLengthOk(key: string) {
    1 <= JsLength(key) <= KV_MAX_KEY_LENGTH
  }

  function Wire(p: Platform, kvKey: Bytes, key: string, value: Bytes, nonce: Bytes): Bytes {
    nonce + p.seal(kvKey, nonce, value, KvBlobAad(key))
  }

  function SealKvBlob(p: Platform, kvKey: Bytes, key: string, value: Bytes, nonce: Bytes): Outcome<SealedKvBlob> {
    if !KeyLengthOk(key) || |nonce| != NONCE_LENGTH || |kvKey| != KEY_LENGTH then Threw
    else
      var wire := Wire(p, kvKey, key, value, nonce);
      if |wire| > KV_MAX_BLOB_BYTES then Threw
      else Returned(SealedKvBlob(B.Encode(wire), B.Encode(p.sha256(wire))))
  }

  datatype OpenKvBlobResult = Opened(value: Bytes) | MalformedWire | AeadDecryptFailed

  function OpenKvBlob(p: Platform, kvKey: Bytes, key: string, ciphertext: string): OpenKvBlobResult {
    match B.Decode(ciphertext)
    case None => MalformedWire
    case Some(wire) => OpenWire(p, kvKey, key, wire)
  }

  function OpenWire(p: Platform, kvKey: Bytes, key: string, wire: Bytes): OpenKvBlobResult {
    if |wire| <= NONCE_LENGTH then MalformedWire
    else if |kvKey| != KEY_LENGTH then AeadDecryptFailed
    else
      match p.open(kvKey, wire[..NONCE_LENGTH], wire[NONCE_LENGTH..], KvBlobAad(key))
      case None => AeadDecryptFailed
      case Some(value) => Opened(value)
  }

  const OVERHEAD := NONCE_LENGTH + TAG_LENGTH

  lemma OpenEncoded(p: Platform, kvKey: Bytes, key: string, wire: Bytes)
    ensures OpenKvBlob(p, kvKey, key, B.Encode(wire)) == OpenWire(p, kvKey, key, wire)
  {
    B.RoundTrip(wire);
  }

  lemma OpenSealedWire(p: Platform, kvKey: Bytes, key: string, value: Bytes, nonce: Bytes)
    requires Lawful(p) && |kvKey| == KEY_LENGTH && |nonce| == NONCE_LENGTH
    ensures OpenWire(p, kvKey, key, Wire(p, kvKey, key, value, nonce)) == Opened(value)
    ensures |Wire(p, kvKey, key, value, nonce)| == |value| + OVERHEAD
  {
    var aad := KvBlobAad(key);
    var wire := nonce + p.seal(kvKey, nonce, value, aad);
    assert wire[..NONCE_LENGTH] == nonce;
    assert wire[NONCE_LENGTH..] == p.seal(kvKey, nonce, value, aad);
  }

  /** A value can be sealed exactly when it leaves room for nonce and tag, and it then opens again
      under the same key string. */
  lemma SealOpen(p: Platform, kvKey: Bytes, key: string, value: Bytes, nonce: Bytes)
    requires Lawful(p) && |kvKey| == KEY_LENGTH && |nonce| == NONCE_LENGTH && KeyLengthOk(key)
    ensures var sealed := SealKvBlob(p, kvKey, key, value, nonce);
      && (sealed.Returned? <==> |value| + OVERHEAD <= KV_MAX_BLOB_BYTES)
      && (sealed.Returned? ==> OpenKvBlob(p, kvKey, key, sealed.value.ciphertext) == Opened(value))
  {
    OpenSealedWire(p, kvKey, key, value, nonce);
    OpenEncoded(p, kvKey, key, Wire(p, kvKey, key, value, nonce));
  }

  /** What opening reports, for any text: base64url that decodes to more than a nonce, then the key and the
      tag. */
  lemma OpensExactly(p: Platform, kvKey: Bytes, key: string, ciphertext: string)
    ensures var wire, r := B.Decode(ciphertext), OpenKvBlob(p, kvKey, key, ciphertext);
      && (r == MalformedWire <==> wire.None? || |wire.value| <= 12)
      && (forall value :: r == Opened(value) ==>
            && wire.Some? && |wire.value| > 12 && |kvKey| == 32
            && p.open(kvKey, wire.value[..12], wire.value[12..], KvBlobAad(key)) == Some(value))
      && (r == AeadDecryptFailed <==>
            && wire.Some? && |wire.value| > 12
            && (|kvKey| != 32 || p.open(kvKey, wire.value[..12], wire.value[12..], KvBlobAad(key)) == None))
  {
  }

  /** The client and Tower compute the same checksum: of the bytes that are sent, not of the value. */
  lemma ChecksumsAgree(p: Platform, kvKey: Bytes, key: string, value: Bytes, nonce: Bytes, author: Option<string>,
                       now: string)
    requires SealKvBlob(p, kvKey, key, value, nonce).Returned?
    ensures var sealed := SealKvBlob(p, kvKey, key, value, nonce).value;
      && B.Decode(sealed.ciphertext).Some?
      && sealed.checksum == B.Encode(p.sha256(B.Decode(sealed.ciphertext).value))
      && var stored := DecodePutItem(p, key, sealed.ciphertext, None, author, now);
         stored.Returned? && stored.value.row.checksum == sealed.checksum
  {
    B.RoundTrip(Wire(p, kvKey, key, value, nonce));
  }

  // ----- a blob belongs to its key string -----

  lemma BlobAadInjective(a: string, b: string)
    requires KvBlobAad(a) == KvBlobAad(b)
    ensures a == b
  {
    var n := |KvBlobAad("")|;
    assert KvBlobAad(a)[n..] == Utf8(a) && KvBlobAad(b)[n..] == Utf8(b);
    Utf8Injective(a, b);
  }

  /** Among the associated data tried, the ciphertext opens under that of its key string only. */
  ghost predicate BoundToItsKey(p: Platform, kvKey: Bytes, key: string, value: Bytes, nonce: Bytes, aads: set<Bytes>) {
    forall aad :: aad in aads && aad != KvBlobAad(key) ==>
                    p.open(kvKey, nonce, p.seal(kvKey, nonce, value, KvBlobAad(key)), aad) == None
  }

  /** A sealed blob opens under the key string it was sealed for and, among those tried, under no other. */
  lemma OpensOnlyUnderItsKey(p: Platform, kvKey: Bytes, key: string, value: Bytes, nonce: Bytes, aads: set<Bytes>,
                             other: string)
    requires Lawful(p) && SealKvBlob(p, kvKey, key, value, nonce).Returned?
    requires BoundToItsKey(p, kvKey, key, value, nonce, aads) && KvBlobAad(other) in aads
    ensures OpenKvBlob(p, kvKey, other, SealKvBlob(p, kvKey, key, value, nonce).value.ciphertext) ==
            if other == key then Opened(value) else AeadDecryptFailed
  {
    SealOpen(p, kvKey, key, value, nonce);
    if other != key {
      if KvBlobAad(other) == KvBlobAad(key) { BlobAadInjective(other, key); }
      var wire := Wire(p, kvKey, key, value, nonce);
      OpenEncoded(p, kvKey, other, wire);
      assert wire[..NONCE_LENGTH] == nonce;
      assert wire[NONCE_LENGTH..] == p.seal(kvKey, nonce, value, KvBlobAad(key));
    }
  }

  /** That hypothesis is consistent with the laws. */
  lemma KeyBindingPlatformExists(kvKey: Bytes, key: string, value: Bytes, nonce: Bytes, aads: set<Bytes>)
    returns (p: Platform)
    ensures Lawful(p) && BoundToItsKey(p, kvKey, key, value, nonce, aads)
  {
    p := AadBindingPlatformExists(KvBlobAad(key));
  }

  // ----- requests -----

  datatype KVPutItem = KVPutItem(key: string, value: Bytes, expectedChecksum: Option<string>)

  /** A put item together with the random nonce its sealing draws. */
  datatype Draw = Draw(item: KVPutItem, nonce: Bytes)

  datatype ClientError =
    | KeyTooLong
    | BlobTooLarge
    | SealThrew
    | Mismatch(conflicts: seq<Conflict>)
    | OverQuota
    | DecryptFailed(key: string)
    | Internal

  type KVPutResult = Result<seq<AcceptedEntry>, ClientError>

  datatype KVGetResult =
    | IsAbsent(key: string)
    | IsUnchanged(key: string)
    | IsUpdated(key: string, value: Bytes, checksum: string, updatedAt: string, updatedByClientId: Option<string>)

  type KVGetResults = Result<seq<KVGetResult>, ClientError>

  datatype KVListEntry = KVListEntry(
    key: string, checksum: string, sizeBytes: nat, updatedAt: string, updatedByClientId: Option<string>)

  datatype WireItem = WireItem(key: string, ciphertext: string, expectedChecksum: Option<string>)

  function WireItemOf(p: Platform, kvKey: Bytes, d: Draw): Result<WireItem, ClientError> {
    if !KeyLengthOk(d.item.key) then Err(KeyTooLong)
    else if |d.item.value| > KV_MAX_BLOB_BYTES then Err(BlobTooLarge)
    else
      match SealKvBlob(p, kvKey, d.item.key, d.item.value, d.nonce)
      case Threw => Err(SealThrew)
      case Returned(b) => Ok(WireItem(d.item.key, b.ciphertext, d.item.expectedChecksum))
  }

  /** The key's length is counted in UTF-16 units.  Values too long to seal are refused as such only above
      the size of a whole blob: the last 28 bytes below it make the sealing itself throw. */
  lemma OversizeExactly(p: Platform, kvKey: Bytes, d: Draw)
    requires Lawful(p) && |kvKey| == KEY_LENGTH && |d.nonce| == NONCE_LENGTH
    ensures WireItemOf(p, kvKey, d) == Err(KeyTooLong) <==> !(1 <= |Utf16(d.item.key)| <= 256)
    ensures WireItemOf(p, kvKey, d) == Err(SealThrew) <==>
            1 <= |Utf16(d.item.key)| <= 256 && 65509 <= |d.item.value| <= 65536
    ensures WireItemOf(p, kvKey, d) == Err(BlobTooLarge) <==>
            1 <= |Utf16(d.item.key)| <= 256 && |d.item.value| > 65536
  {
    if KeyLengthOk(d.item.key) { SealOpen(p, kvKey, d.item.key, d.item.value, d.nonce); }
  }

  function Sealer(p: Platform, kvKey: Bytes): Draw -> Result<WireItem, ClientError> {
    (d: Draw) => WireItemOf(p, kvKey, d)
  }

  /** What the Tower route does with each wire item. */
  function Decoder(p: Platform, clientId: Option<string>, now: string): WireItem -> Result<PutInput, ClientError> {
    (w: WireItem) =>
      match DecodePutItem(p, w.key, w.ciphertext, w.expectedChecksum, clientId, now)
      case Threw => Err(Internal)
      case Returned(input) => Ok(input)
  }

  ghost function BatchReply(m: Bucket, inputs: seq<PutInput>, lim: Limits): KVPutResult {
    match BatchOutcome(m, inputs, lim)
    case Accepted(entries) => Ok(entries)
    case ChecksumMismatch(conflicts) => Err(Mismatch(conflicts))
    case QuotaExceeded => Err(OverQuota)
  }

  ghost function PutEffect(seal: Draw -> Result<WireItem, ClientError>,
                           decode: WireItem -> Result<PutInput, ClientError>, lim: Limits, m: Bucket,
                           draws: seq<Draw>): (Bucket, KVPutResult)
  {
    match Traverse(seal, draws)
    case Err(e) => (m, Err(e))
    case Ok(wire) =>
      match Traverse(decode, wire)
      case Err(e) => (m, Err(e))
      case Ok(inputs) => (AfterBatch(m, inputs, lim), BatchReply(m, inputs, lim))
  }

  function OpenAnswer(p: Platform, kvKey: Bytes, a: GetResult): Result<KVGetResult, ClientError> {
    match a
    case Absent(k) => Ok(IsAbsent(k))
    case Unchanged(k) => Ok(IsUnchanged(k))
    case Updated(k, checksum, ciphertext, updatedAt, author) =>
      match OpenKvBlob(p, kvKey, k, ciphertext)
      case Opened(value) => Ok(IsUpdated(k, value, checksum, updatedAt, author))
      case _ => Err(DecryptFailed(k))
  }

  function Opener(p: Platform, kvKey: Bytes): GetResult -> Result<KVGetResult, ClientError> {
    (a: GetResult) => OpenAnswer(p, kvKey, a)
  }

  predicate AllKeysOk(keys: seq<string>) {
    forall i :: 0 <= i < |keys| ==> KeyLengthOk(keys[i])
  }

  function GetEffect(open: GetResult -> Result<KVGetResult, ClientError>, m: Bucket,
                     items: seq<GetItem>): KVGetResults
  {
    if !AllKeysOk(KeysOf(items)) then Err(KeyTooLong)
    else Traverse(open, PartitionBatchGet(items, PresentRows(m, KeysOf(items))))
  }

  /** A batchGet that finds the ciphertext of one key in the row of another fails, unless an earlier answer
      fails first or the client already holds the row's checksum. */
  lemma MovedRowFails(p: Platform, kvKey: Bytes, m: Bucket, items: seq<GetItem>, i: nat, key: string, value: Bytes,
                      nonce: Bytes, aads: set<Bytes>)
    requires Lawful(p) && SealKvBlob(p, kvKey, key, value, nonce).Returned?
    requires BoundToItsKey(p, kvKey, key, value, nonce, aads) && Keyed(m) && AllKeysOk(KeysOf(items))
    requires i < |items| && items[i].key in m && items[i].key != key && KvBlobAad(items[i].key) in aads
    requires var row := m[items[i].key];
      && B.Encode(row.ciphertext) == SealKvBlob(p, kvKey, key, value, nonce).value.ciphertext
      && items[i].knownChecksum != Some(row.checksum)
    requires forall j :: 0 <= j < i ==> OpenAnswer(p, kvKey, Answer(m, items[j])).Ok?
    ensures GetEffect(Opener(p, kvKey), m, items) == Err(DecryptFailed(items[i].key))
  {
    OpensOnlyUnderItsKey(p, kvKey, key, value, nonce, aads, items[i].key);
    FirstUnreadableDecides(Opener(p, kvKey), m, items, i, DecryptFailed(items[i].key));
  }

  lemma FirstUnreadableDecides(open: GetResult -> Result<KVGetResult, ClientError>, m: Bucket, items: seq<GetItem>,
                               i: nat, e: ClientError)
    requires Keyed(m) && AllKeysOk(KeysOf(items)) && i < |items| && open(Answer(m, items[i])) == Err(e)
    requires forall j :: 0 <= j < i ==> open(Answer(m, items[j])).Ok?
    ensures GetEffect(open, m, items) == Err(e)
  {
    var answers := PartitionBatchGet(items, PresentRows(m, KeysOf(items)));
    PartitionIsLookup(m, items);
    forall j | 0 <= j < |items| ensures answers[j] == Answer(m, items[j]) {}
    FirstErrorIs(open, answers, i);
  }

  function ToListEntry(r: KvRow): KVListEntry {
    KVListEntry(r.key, r.checksum, r.sizeBytes, r.updatedAt, r.updatedByClientId)
  }

  ghost function ListEffect(m: Bucket): seq<KVListEntry> {
    var rows := ListRows(m);
    seq(|rows|, i requires 0 <= i < |rows| => ToListEntry(rows[i]))
  }

  // ----- the client object -----

  class KVStoreClient {
    const kvKey: Bytes
    const store: MemoryKvStores.MemoryKvStore
    const user: string              // the account Tower derives from the bearer token
    const clientId: Option<string>

    constructor (kvKey: Bytes, store: MemoryKvStores.MemoryKvStore, user: string, clientId: Option<string>)
      requires |kvKey| == KEY_LENGTH
      ensures this.kvKey == kvKey && this.store == store && this.user == user && this.clientId == clientId
    {
      this.kvKey, this.store, this.user, this.clientId := kvKey, store, user, clientId;
    }

    method BatchPut(p: Platform, draws: seq<Draw>, now: string) returns (r: KVPutResult)
      requires store.Valid()
      modifies store
      ensures store.Valid()
      ensures (store.Contents(user), r) ==
              PutEffect(Sealer(p, kvKey), Decoder(p, clientId, now), store.limits,
                        old(store.Contents(user)), draws)
      ensures forall u :: u != user ==> store.Contents(u) == old(store.Contents(u))
    {
      var wired := TraverseInOrder(Sealer(p, kvKey), draws);
      if wired.Err? {
        return Err(wired.error);
      }
      var decoded := TraverseInOrder(Decoder(p, clientId, now), wired.value);
      if decoded.Err? {
        return Err(decoded.error);
      }
      var applied := store.ApplyBatch(user, decoded.value);
      match applied {
        case Accepted(entries) => r := Ok(entries);
        case ChecksumMismatch(conflicts) => r := Err(Mismatch(conflicts));
        case QuotaExceeded => r := Err(OverQuota);
      }
    }

    method BatchGet(p: Platform, items: seq<GetItem>) returns (r: KVGetResults)
      requires store.Valid()
      modifies store
      ensures store.Valid() && forall u :: store.Contents(u) == old(store.Contents(u))
      ensures r == GetEffect(Opener(p, kvKey), store.Contents(user), items)
    {
      for i := 0 to |items|
        invariant forall j :: 0 <= j < i ==> KeyLengthOk(KeysOf(items)[j])
      {
        if !KeyLengthOk(items[i].key) {
          assert !KeyLengthOk(KeysOf(items)[i]);
          return Err(KeyTooLong);
        }
      }
      var rows := store.GetMany(user, KeysOf(items));
      r := TraverseInOrder(Opener(p, kvKey), PartitionBatchGet(items, rows));
    }

    method Delete(keys: seq<string>) returns (error: Option<ClientError>)
      requires store.Valid()
      modifies store
      ensures store.Valid()
      ensures error == if AllKeysOk(keys) then None else Some(KeyTooLong)
      ensures store.Contents(user) == old(store.Contents(user)) - if AllKeysOk(keys) then JsMaps.Elements(keys) else {}
      ensures forall u :: u != user ==> store.Contents(u) == old(store.Contents(u))
    {
      for i := 0 to |keys|
        invariant forall j :: 0 <= j < i ==> KeyLengthOk(keys[j])
      {
        if !KeyLengthOk(keys[i]) {
          return Some(KeyTooLong);
        }
      }
      store.DeleteMany(user, keys);
      error := None;
    }

    method List() returns (entries: seq<KVListEntry>)
      requires store.Valid()
      modifies store
      ensures store.Valid() && forall u :: store.Contents(u) == old(store.Contents(u))
      ensures entries == ListEffect(store.Contents(user))
    {
      var rows := store.List(user);
      entries := seq(|rows|, i requires 0 <= i < |rows| => ToListEntry(rows[i]));
    }
  }

  /** Opening a client throws on a key that is not 32 bytes. */
  method NewClient(kvKey: Bytes, store: MemoryKvStores.MemoryKvStore, user: string, clientId: Option<string>)
    returns (c: KVStoreClient?)
    ensures c != null <==> |kvKey| == KEY_LENGTH
    ensures c != null ==> c.kvKey == kvKey && c.store == store && c.user == user && c.clientId == clientId
  {
    if |kvKey| != KEY_LENGTH {
      return null;
    }
    c := new KVStoreClient(kvKey, store, user, clientId);
  }
}
