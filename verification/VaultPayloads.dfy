/** The plaintext of a vault: the user's keys and the servers they are linked to. */
module VaultPayloads {
  import opened Options
  import opened Json
  import opened Jcs
  import opened Platform
  import opened Schemas
  import B = Base64Url

  datatype ServerEntry = ServerEntry(
    addedAt: string, connInfoKey: Option<string>, displayName: string, serverPubKey: string)

  datatype VaultPayload = VaultPayload(
    masterPrivKey: string, masterPubKey: string, servers: seq<ServerEntry>,
    userEncPrivKey: string, userEncPubKey: string)

  // ----- one linked server -----

  const ENTRY_KEYS := ["addedAt", "connInfoKey", "displayName", "serverPubKey"]

  function KeyJson(k: Option<string>): Json {
    match k case None => Null case Some(s) => Str(s)
  }

  function EntryValues(e: ServerEntry): seq<Json> {
    [Str(e.addedAt), KeyJson(e.connInfoKey), Str(e.displayName), Str(e.serverPubKey)]
  }

  function EntryJson(e: ServerEntry): Json {
    Record(ENTRY_KEYS, EntryValues(e))
  }

  /** A key that is not there yet is null; an absent member is refused. */
  function EntryFrom(g: Getter): Option<ServerEntry> {
    if HasNonEmpty(g, "addedAt") && (g("connInfoKey") == Some(Null) || HasBase64Url(g, "connInfoKey"))
       && HasNonEmpty(g, "displayName") && HasHex32(g, "serverPubKey")
    then
      Some(ServerEntry(TextAt(g, "addedAt"),
                       if g("connInfoKey") == Some(Null) then None else Some(TextAt(g, "connInfoKey")),
                       TextAt(g, "displayName"), TextAt(g, "serverPubKey")))
    else None
  }

  predicate ValidEntry(e: ServerEntry) {
    && e.addedAt != "" && (e.connInfoKey.Some? ==> B.IsBase64Url(e.connInfoKey.value))
    && e.displayName != "" && IsHex32(e.serverPubKey)
  }

  lemma EntryReads(g: Getter, e: ServerEntry)
    requires Reads(g, ENTRY_KEYS, EntryValues(e))
    ensures EntryFrom(g) == if ValidEntry(e) then Some(e) else None
  {
    var ks, vs := ENTRY_KEYS, EntryValues(e);
    assert g(ks[0]) == Some(vs[0]) && g(ks[1]) == Some(vs[1]) && g(ks[2]) == Some(vs[2]) && g(ks[3]) == Some(vs[3]);
  }

  lemma EntryRoundTrip(e: ServerEntry)
    ensures WellFormed(EntryJson(e))
    ensures EntryFrom(MembersOf(Canon(EntryJson(e)))) == if ValidEntry(e) then Some(e) else None
  {
    RecordReads(ENTRY_KEYS, EntryValues(e));
    EntryReads(MembersOf(Canon(EntryJson(e))), e);
  }

  // ----- the list of servers -----

  function EntryOf(j: Json): Option<ServerEntry> {
    EntryFrom(MembersOf(j))
  }

  function EntriesJson(ss: seq<ServerEntry>): seq<Json> {
    WriteAll(EntryJson, ss)
  }

  predicate ValidEntries(ss: seq<ServerEntry>) {
    AllValid(ValidEntry, ss)
  }

  lemma EntriesRoundTrip(ss: seq<ServerEntry>)
    ensures WellFormed(Arr(EntriesJson(ss)))
    ensures ReadAll(EntryOf, CanonElems(EntriesJson(ss))) == if ValidEntries(ss) then Some(ss) else None
  {
    forall e
      ensures WellFormed(EntryJson(e)) && EntryOf(Canon(EntryJson(e))) == if ValidEntry(e) then Some(e) else None
    {
      EntryRoundTrip(e);
    }
    ListRoundTrip(EntryOf, EntryJson, ValidEntry, ss);
  }

  // ----- the payload -----

  const VAULT_KEYS := ["masterPrivKey", "masterPubKey", "servers", "userEncPrivKey", "userEncPubKey", "v"]

  function VaultValues(x: VaultPayload): seq<Json> {
    [Str(x.masterPrivKey), Str(x.masterPubKey), Arr(EntriesJson(x.servers)), Str(x.userEncPrivKey),
     Str(x.userEncPubKey), Num(1)]
  }

  function VaultJson(x: VaultPayload): Json {
    Record(VAULT_KEYS, VaultValues(x))
  }

  function EntriesAt(g: Getter, k: string): Option<seq<ServerEntry>> {
    match g(k) case Some(Arr(es)) => ReadAll(EntryOf, es) case _ => None
  }

  function VaultFrom(g: Getter): Option<VaultPayload> {
    if HasBase64Url(g, "masterPrivKey") && HasHex32(g, "masterPubKey") && EntriesAt(g, "servers").Some?
       && HasBase64Url(g, "userEncPrivKey") && HasHex32(g, "userEncPubKey") && HasVersion1(g)
    then
      Some(VaultPayload(TextAt(g, "masterPrivKey"), TextAt(g, "masterPubKey"), EntriesAt(g, "servers").value,
                        TextAt(g, "userEncPrivKey"), TextAt(g, "userEncPubKey")))
    else None
  }

  function VaultOf(j: Json): Option<VaultPayload> {
    VaultFrom(MembersOf(j))
  }

  predicate ValidVault(x: VaultPayload) {
    && B.IsBase64Url(x.masterPrivKey) && IsHex32(x.masterPubKey) && ValidEntries(x.servers)
    && B.IsBase64Url(x.userEncPrivKey) && IsHex32(x.userEncPubKey)
  }

  ghost predicate HoldsVault(g: Getter, x: VaultPayload) {
    && g("masterPrivKey") == Some(Str(x.masterPrivKey)) && g("masterPubKey") == Some(Str(x.masterPubKey))
    && g("servers") == Some(Arr(CanonElems(EntriesJson(x.servers))))
    && g("userEncPrivKey") == Some(Str(x.userEncPrivKey)) && g("userEncPubKey") == Some(Str(x.userEncPubKey))
    && g("v") == Some(Num(1))
  }

  lemma VaultNames(g: Getter, x: VaultPayload)
    requires Reads(g, VAULT_KEYS, VaultValues(x))
    ensures HoldsVault(g, x)
  {
    var ks, vs := VAULT_KEYS, VaultValues(x);
    assert g(ks[0]) == Some(vs[0]) && g(ks[1]) == Some(vs[1]) && g(ks[2]) == Some(Canon(vs[2]));
    assert g(ks[3]) == Some(vs[3]) && g(ks[4]) == Some(vs[4]) && g(ks[5]) == Some(vs[5]);
  }

  lemma VaultReads(g: Getter, x: VaultPayload)
    requires HoldsVault(g, x) && EntriesAt(g, "servers") == if ValidEntries(x.servers) then Some(x.servers) else None
    ensures VaultFrom(g) == if ValidVault(x) then Some(x) else None
  {
    assert TextAt(g, "masterPrivKey") == x.masterPrivKey && TextAt(g, "masterPubKey") == x.masterPubKey;
    assert TextAt(g, "userEncPrivKey") == x.userEncPrivKey && TextAt(g, "userEncPubKey") == x.userEncPubKey;
  }

  lemma VaultServers(g: Getter, ss: seq<ServerEntry>)
    requires g("servers") == Some(Arr(CanonElems(EntriesJson(ss))))
    ensures EntriesAt(g, "servers") == if ValidEntries(ss) then Some(ss) else None
  {
    EntriesRoundTrip(ss);
  }

  lemma VaultLeaves(x: VaultPayload)
    ensures var vs := VaultValues(x);
      |vs| == 6 && vs[2] == Arr(EntriesJson(x.servers)) && forall i :: 0 <= i < 6 && i != 2 ==> Leaf(vs[i])
  {
  }

  lemma VaultWellFormed(x: VaultPayload)
    ensures forall i :: 0 <= i < |VaultValues(x)| ==> WellFormed(VaultValues(x)[i])
  {
    EntriesRoundTrip(x.servers);
    VaultLeaves(x);
    LeavesAndOne(VaultValues(x), 2);
  }

  /** The schema reads back exactly the payloads that meet it. */
  lemma VaultRoundTrip(x: VaultPayload)
    ensures WellFormed(VaultJson(x))
    ensures VaultOf(Canon(VaultJson(x))) == if ValidVault(x) then Some(x) else None
  {
    VaultWellFormed(x);
    RecordReads(VAULT_KEYS, VaultValues(x));
    var g := MembersOf(Canon(VaultJson(x)));
    VaultNames(g, x);
    VaultServers(g, x.servers);
    VaultReads(g, x);
  }
}
