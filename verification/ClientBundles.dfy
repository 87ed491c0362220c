/** What the user's browser hands a client app: a delegation certificate, and K per ticked server sealed
    to the app's encryption key. */
module ClientBundles {
  import opened Options
  import opened Text
  import opened Json
  import opened Jcs
  import opened Platform
  import opened Schemas
  import Keys
  import SealedBoxes
  import opened Sessions
  import B = Base64Url

  datatype BundleServer = BundleServer(connInfoKey: string, serverPubKey: string)

  datatype Bundle = Bundle(issuedAtSec: int, servers: seq<BundleServer>)

  // ----- the wire form -----

  const BUNDLE_SERVER_KEYS := ["connInfoKey", "serverPubKey"]
  const BUNDLE_KEYS := ["issuedAtSec", "servers", "v"]

  function ServerValues(s: BundleServer): seq<Json> {
    [Str(s.connInfoKey), Str(s.serverPubKey)]
  }

  function ServerJson(s: BundleServer): Json {
    Record(BUNDLE_SERVER_KEYS, ServerValues(s))
  }

  function ServerFrom(g: Getter): Option<BundleServer> {
    if HasBase64Url(g, "connInfoKey") && HasHex32(g, "serverPubKey")
    then Some(BundleServer(TextAt(g, "connInfoKey"), TextAt(g, "serverPubKey")))
    else None
  }

  function ServerOf(j: Json): Option<BundleServer> {
    ServerFrom(MembersOf(j))
  }

  predicate ValidServer(s: BundleServer) {
    B.IsBase64Url(s.connInfoKey) && IsHex32(s.serverPubKey)
  }

  lemma ServerReads(g: Getter, s: BundleServer)
    requires Reads(g, BUNDLE_SERVER_KEYS, ServerValues(s))
    ensures ServerFrom(g) == if ValidServer(s) then Some(s) else None
  {
    var ks, vs := BUNDLE_SERVER_KEYS, ServerValues(s);
    assert g(ks[0]) == Some(vs[0]) && g(ks[1]) == Some(vs[1]);
  }

  lemma ServerRoundTrip(s: BundleServer)
    ensures WellFormed(ServerJson(s)) && ServerOf(Canon(ServerJson(s))) == if ValidServer(s) then Some(s) else None
  {
    RecordReads(BUNDLE_SERVER_KEYS, ServerValues(s));
    ServerReads(MembersOf(Canon(ServerJson(s))), s);
  }

  function ServersJson(ss: seq<BundleServer>): Json {
    Arr(WriteAll(ServerJson, ss))
  }

  function BundleJson(b: Bundle): Json {
    Record(BUNDLE_KEYS, [Num(b.issuedAtSec), ServersJson(b.servers), Num(1)])
  }

  function ServersAt(g: Getter, k: string): Option<seq<BundleServer>> {
    match g(k) case Some(Arr(es)) => ReadAll(ServerOf, es) case _ => None
  }

  function BundleFrom(g: Getter): Option<Bundle> {
    if HasInt(g, "issuedAtSec") && ServersAt(g, "servers").Some? && HasVersion1(g)
    then Some(Bundle(IntAt(g, "issuedAtSec"), ServersAt(g, "servers").value))
    else None
  }

  function BundleOf(j: Json): Option<Bundle> {
    BundleFrom(MembersOf(j))
  }

  predicate ValidBundle(b: Bundle) {
    IsSafeInt(b.issuedAtSec) && AllValid(ValidServer, b.servers)
  }

  lemma ServersRoundTrip(ss: seq<BundleServer>)
    ensures WellFormed(ServersJson(ss))
    ensures ReadAll(ServerOf, CanonElems(WriteAll(ServerJson, ss))) ==
            if AllValid(ValidServer, ss) then Some(ss) else None
  {
    forall s
      ensures WellFormed(ServerJson(s)) && ServerOf(Canon(ServerJson(s))) == if ValidServer(s) then Some(s) else None
    {
      ServerRoundTrip(s);
    }
    ListRoundTrip(ServerOf, ServerJson, ValidServer, ss);
  }

  lemma BundleNames(g: Getter, vals: seq<Json>)
    requires Reads(g, BUNDLE_KEYS, vals)
    ensures g("issuedAtSec") == Some(Canon(vals[0])) && g("servers") == Some(Canon(vals[1]))
    ensures g("v") == Some(Canon(vals[2]))
  {
    var ks := BUNDLE_KEYS;
    assert g(ks[0]) == Some(Canon(vals[0])) && g(ks[1]) == Some(Canon(vals[1])) && g(ks[2]) == Some(Canon(vals[2]));
  }

  lemma BundleReads(g: Getter, b: Bundle)
    requires g("issuedAtSec") == Some(Num(b.issuedAtSec)) && g("v") == Some(Num(1))
    requires ServersAt(g, "servers") == if AllValid(ValidServer, b.servers) then Some(b.servers) else None
    ensures BundleFrom(g) == if ValidBundle(b) then Some(b) else None
  {
  }

  lemma BundleMembers(n: int, list: Json)
    requires WellFormed(list)
    ensures WellFormed(Record(BUNDLE_KEYS, [Num(n), list, Num(1)]))
    ensures var g := MembersOf(Canon(Record(BUNDLE_KEYS, [Num(n), list, Num(1)])));
      g("issuedAtSec") == Some(Num(n)) && g("servers") == Some(Canon(list)) && g("v") == Some(Num(1))
  {
    var vals := [Num(n), list, Num(1)];
    assert WellFormed(vals[0]) && WellFormed(vals[1]) && WellFormed(vals[2]);
    RecordReads(BUNDLE_KEYS, vals);
    BundleNames(MembersOf(Canon(Record(BUNDLE_KEYS, vals))), vals);
  }

  lemma ServersMember(g: Getter, ss: seq<BundleServer>)
    requires g("servers") == Some(Canon(ServersJson(ss)))
    ensures ServersAt(g, "servers") == if AllValid(ValidServer, ss) then Some(ss) else None
  {
    ServersRoundTrip(ss);
  }

  lemma BundleRoundTrip(b: Bundle)
    ensures WellFormed(BundleJson(b)) && BundleOf(Canon(BundleJson(b))) == if ValidBundle(b) then Some(b) else None
  {
    ServersRoundTrip(b.servers);
    BundleMembers(b.issuedAtSec, ServersJson(b.servers));
    var g := MembersOf(Canon(BundleJson(b)));
    ServersMember(g, b.servers);
    BundleReads(g, b);
  }

  // ----- building and opening -----

  /** A server the user ticked; its K may not have arrived yet. */
  datatype Ticked = Ticked(serverPubKey: Bytes, connInfoKey: Option<Bytes>)

  function ServerFor(t: Ticked, k: Bytes): BundleServer {
    BundleServer(B.Encode(k), HexEncode(t.serverPubKey))
  }

  function Usable(ticked: seq<Ticked>): seq<BundleServer> {
    if ticked == [] then []
    else
      var init, t := Usable(ticked[..|ticked| - 1]), ticked[|ticked| - 1];
      match t.connInfoKey case None => init case Some(k) => init + [ServerFor(t, k)]
  }

  function BuildClientPairBundle(p: Platform, clientEncPub: Bytes, ticked: seq<Ticked>, nowSec: int,
                                 d: SealedBoxes.Draw)
    : Outcome<SealedBoxes.SealedBox> {
    SealedBoxes.Encrypt(p, JcsBytes(BundleJson(Bundle(nowSec, Usable(ticked)))), clientEncPub, [], d)
  }

  datatype BundleError = DecryptFailed | ShapeInvalid

  /** JSON that does not parse, and JSON null, read as a failed decryption. */
  function Finalize(p: Platform, plain: Option<Bytes>): Result<Bundle, BundleError> {
    match plain
    case None => Err(DecryptFailed)
    case Some(bytes) =>
      match ParseBytes(p, bytes)
      case None => Err(DecryptFailed)
      case Some(j) =>
        if j == Null then Err(DecryptFailed)
        else match BundleOf(j) case None => Err(ShapeInvalid) case Some(b) => Ok(b)
  }

  function OpenClientBundle(p: Platform, box: SealedBoxes.SealedBox,
                            clientEncPriv: Bytes): Result<Bundle, BundleError>
  {
    Finalize(p, SealedBoxes.Decrypt(p, box, clientEncPriv, []))
  }

  predicate ValidTicked(t: Ticked) {
    |t.serverPubKey| == KEY_LENGTH && t.connInfoKey != Some([])
  }

  lemma ServerForValid(t: Ticked, k: Bytes)
    requires |t.serverPubKey| == KEY_LENGTH && t.connInfoKey == Some(k)
    ensures ValidServer(ServerFor(t, k)) <==> ValidTicked(t)
  {
    EncodedIsBase64Url(k);
    KeyHex(t.serverPubKey);
  }

  lemma {:induction false} UsableValid(ticked: seq<Ticked>)
    requires forall i :: 0 <= i < |ticked| ==> |ticked[i].serverPubKey| == KEY_LENGTH
    ensures AllValid(ValidServer, Usable(ticked)) <==> AllValid(ValidTicked, ticked)
  {
    if ticked != [] {
      var n := |ticked| - 1;
      var t := ticked[n];
      UsableValid(ticked[..n]);
      assert ticked == ticked[..n] + [t];
      AllValidMore(ValidTicked, ticked[..n], t);
      if t.connInfoKey.Some? {
        ServerForValid(t, t.connInfoKey.value);
        AllValidMore(ValidServer, Usable(ticked[..n]), ServerFor(t, t.connInfoKey.value));
      }
    }
  }

  lemma FinalizeBuilt(p: Platform, b: Bundle)
    ensures Finalize(p, Some(JcsBytes(BundleJson(b)))) == if ValidBundle(b) then Ok(b) else Err(ShapeInvalid)
  {
    BundleRoundTrip(b);
    ParseBytesJcs(p, BundleJson(b));
  }

  /** The app opens exactly the ticked servers whose K has arrived, in order; one empty K spoils the
      whole bundle. */
  lemma BundleIsDelivered(p: Platform, clientEncPriv: Bytes, ticked: seq<Ticked>, nowSec: int, d: SealedBoxes.Draw)
    requires Lawful(p) && |clientEncPriv| == KEY_LENGTH && IsSafeInt(nowSec)
    requires forall i :: 0 <= i < |ticked| ==> |ticked[i].serverPubKey| == KEY_LENGTH
    requires BuildClientPairBundle(p, p.xPub(clientEncPriv), ticked, nowSec, d).Returned?
    ensures var box := BuildClientPairBundle(p, p.xPub(clientEncPriv), ticked, nowSec, d).value;
      OpenClientBundle(p, box, clientEncPriv) ==
      if AllValid(ValidTicked, ticked) then Ok(Bundle(nowSec, Usable(ticked)))
      else Err(ShapeInvalid)
  {
    var b := Bundle(nowSec, Usable(ticked));
    SealedBoxes.BoxRoundTrip(p, JcsBytes(BundleJson(b)), clientEncPriv, [], d);
    FinalizeBuilt(p, b);
    UsableValid(ticked);
  }

  /** Which servers those are. */
  lemma {:induction false} UsableAre(ticked: seq<Ticked>, s: BundleServer)
    ensures s in Usable(ticked) <==>
            exists t :: t in ticked && t.connInfoKey.Some? && s == ServerFor(t, t.connInfoKey.value)
  {
    if ticked != [] {
      var n := |ticked| - 1;
      UsableAre(ticked[..n], s);
      assert ticked == ticked[..n] + [ticked[n]];
    }
  }

  /** They come in the order they were ticked. */
  lemma {:induction false} UsableInOrder(a: seq<Ticked>, b: seq<Ticked>)
    ensures Usable(a + b) == Usable(a) + Usable(b)
  {
    if b == [] {
      assert a + b == a;
    } else {
      UsableInOrder(a, b[..|b| - 1]);
      assert (a + b)[..|a + b| - 1] == a + b[..|b| - 1];
    }
  }

  /** Each brings its own key and its own K, or nothing while its K has not arrived. */
  lemma UsableOne(t: Ticked)
    ensures t.connInfoKey.None? ==> Usable([t]) == []
    ensures t.connInfoKey.Some? ==>
              && |Usable([t])| == 1 && B.Decode(Usable([t])[0].connInfoKey) == t.connInfoKey
              && HexDecode(Usable([t])[0].serverPubKey) == Some(t.serverPubKey)
  {
    assert [t][..0] == [];
    if t.connInfoKey.Some? {
      assert Usable([t]) == [ServerFor(t, t.connInfoKey.value)];
      B.RoundTrip(t.connInfoKey.value);
      HexRoundTrip(t.serverPubKey);
    }
  }

  /** What opening a bundle reports: text that is not JSON, and JSON null, count as not decrypted. */
  lemma BundleErrorsExactly(p: Platform, box: SealedBoxes.SealedBox, clientEncPriv: Bytes)
    ensures var r, plain := OpenClientBundle(p, box, clientEncPriv), SealedBoxes.Decrypt(p, box, clientEncPriv, []);
            var j := if plain.None? then None else ParseBytes(p, plain.value);
      && (r == Err(DecryptFailed) <==> j.None? || j == Some(Null))
      && (r == Err(ShapeInvalid) <==> j.Some? && j.value != Null && BundleOf(j.value).None?)
      && (r.Ok? ==> j.Some? && BundleOf(j.value) == Some(r.value))
  {
  }

  // ----- the certificate -----

  const DEFAULT_TTL_SEC := 60 * 60 * 24 * 60

  datatype PairCertInput = PairCertInput(
    appId: string, clientId: string, clientPubKey: Bytes, clientEncPubKey: Bytes, deviceName: string,
    scope: seq<string>, userId: string, masterPriv: Bytes, userEncPubKey: Bytes, ttlSec: Option<int>, nowSec: int)

  function PairCertPayload(p: Platform, x: PairCertInput): CertPayload {
    CertPayload(x.appId, HexEncode(x.clientEncPubKey), x.clientId, HexEncode(x.clientPubKey), x.deviceName,
                x.nowSec + (match x.ttlSec case None => DEFAULT_TTL_SEC case Some(t) => t), x.nowSec, x.scope,
                HexEncode(x.userEncPubKey), x.userId, HexEncode(p.edPub(x.masterPriv)))
  }

  function BuildClientPairCert(p: Platform, x: PairCertInput): CertEnvelope {
    BuildClientCert(p, PairCertPayload(p, x), x.masterPriv)
  }

  /** The certificate verifies for its user, from issue to expiry with the skew on both sides. */
  lemma PairCertVerifies(p: Platform, x: PairCertInput, expected: Option<Keys.KeyLike>, nowSec: int, skew: int)
    requires expected.Some? ==> Keys.AsKey(expected.value) == Some(p.edPub(x.masterPriv))
    requires Lawful(p) && |x.clientPubKey| == |x.clientEncPubKey| == |x.userEncPubKey| == KEY_LENGTH
    requires x.appId != "" && IsUuid(x.clientId) && x.deviceName != "" && x.userId != ""
    requires IsSafeInt(x.nowSec) && IsSafeInt(PairCertPayload(p, x).exp)
    ensures VerifyClientCert(p, BuildClientPairCert(p, x), expected, nowSec, skew) ==
      if nowSec < x.nowSec - skew then CertErr(NotYetValid)
      else if nowSec > PairCertPayload(p, x).exp + skew then CertErr(Expired)
      else CertOk(PairCertPayload(p, x))
  {
    var c := PairCertPayload(p, x);
    KeyHex(x.clientPubKey);
    KeyHex(x.clientEncPubKey);
    KeyHex(x.userEncPubKey);
    KeyHex(p.edPub(x.masterPriv));
    CertVerdict(p, c, x.masterPriv, expected, nowSec, skew);
  }

  /** The certificate names the app, the device with its two keys, and the user with his two keys; it runs
      from its issue to sixty days later unless another span was asked for. */
  ghost predicate CertSays(p: Platform, c: CertPayload, x: PairCertInput) {
    && c.appId == x.appId && c.clientId == x.clientId && c.deviceName == x.deviceName && c.scope == x.scope
    && c.userId == x.userId
    && HexDecode(c.clientPubKey) == Some(x.clientPubKey) && HexDecode(c.clientEncPubKey) == Some(x.clientEncPubKey)
    && HexDecode(c.userPubKey) == Some(p.edPub(x.masterPriv)) && HexDecode(c.userEncPubKey) == Some(x.userEncPubKey)
    && c.iat == x.nowSec && c.exp == x.nowSec + if x.ttlSec.Some? then x.ttlSec.value else 5_184_000
  }

  /** That is what the verifier reads from it. */
  lemma PairCertSays(p: Platform, x: PairCertInput, nowSec: int, skew: int)
    requires Lawful(p) && |x.clientPubKey| == |x.clientEncPubKey| == |x.userEncPubKey| == KEY_LENGTH
    requires x.appId != "" && IsUuid(x.clientId) && x.deviceName != "" && x.userId != ""
    requires IsSafeInt(x.nowSec) && IsSafeInt(PairCertPayload(p, x).exp)
    requires VerifyClientCert(p, BuildClientPairCert(p, x), None, nowSec, skew).CertOk?
    ensures CertSays(p, VerifyClientCert(p, BuildClientPairCert(p, x), None, nowSec, skew).payload, x)
  {
    PairCertVerifies(p, x, None, nowSec, skew);
    HexRoundTrip(x.clientPubKey);
    HexRoundTrip(x.clientEncPubKey);
    HexRoundTrip(x.userEncPubKey);
    HexRoundTrip(p.edPub(x.masterPriv));
  }

  lemma CertVerdict(p: Platform, c: CertPayload, masterPriv: Bytes, expected: Option<Keys.KeyLike>, nowSec: int,
                    skew: int)
    requires expected.Some? ==> Keys.AsKey(expected.value) == Some(p.edPub(masterPriv))
    requires Lawful(p) && ValidCert(c) && c.userPubKey == HexEncode(p.edPub(masterPriv))
    ensures VerifyClientCert(p, BuildClientCert(p, c, masterPriv), expected, nowSec, skew) ==
      if nowSec < c.iat - skew then CertErr(NotYetValid)
      else if nowSec > c.exp + skew then CertErr(Expired)
      else CertOk(c)
  {
    BuiltCertVerifies(p, c, masterPriv, expected, nowSec, skew);
  }
}
