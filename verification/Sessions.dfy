/** Client delegation certificates and per-session assertions: two stacked signatures, the user's
    master key over the certificate and the certificate's client key over the session fields. */
module Sessions {
  import opened Options
  import opened Text
  import opened Json
  import opened Jcs
  import opened Platform
  import opened Schemas
  import opened Keys
  import B = Base64Url

  /** The tolerance for clocks when the caller gives none. */
  const CLOCK_SKEW_SEC := 60

  // ----- certificates -----

  datatype CertEnvelope = CertEnvelope(payload: string, sig: string)

  datatype CertError =
    | PayloadDecodeFailed
    | PayloadShapeInvalid
    | CertSignatureInvalid
    | UserPubKeyMismatch
    | NotYetValid
    | Expired

  datatype CertResult = CertOk(payload: CertPayload) | CertErr(error: CertError) | CertThrew

  function BuildClientCert(p: Platform, c: CertPayload, masterPrivKey: Bytes): CertEnvelope {
    var canonical := JcsBytes(CertJson(c));
    CertEnvelope(B.Encode(canonical), B.Encode(p.sign(canonical, masterPrivKey)))
  }

  function ReadCert(p: Platform, payload: string): Result<(Bytes, CertPayload), CertError> {
    match B.Decode(payload)
    case None => Err(PayloadDecodeFailed)
    case Some(bytes) =>
      match ParseBytes(p, bytes)
      case None => Err(PayloadDecodeFailed)
      case Some(j) =>
        match CertOf(j)
        case None => Err(PayloadShapeInvalid)
        case Some(c) => Ok((bytes, c))
  }

  function WindowError(c: CertPayload, nowSec: int, skew: int): Option<CertError> {
    if c.iat - skew > nowSec then Some(NotYetValid)
    else if c.exp + skew < nowSec then Some(Expired)
    else None
  }

  /** `expected` is the user key when the caller pins one.  Decoding the signature and reading the
      pinned key happen outside the source's try block, so malformed ones throw. */
  function CheckCert(p: Platform, read: Result<(Bytes, CertPayload), CertError>, sig: string, expected: Option<KeyLike>,
                     nowSec: int, skew: int): CertResult {
    match read
    case Err(error) => CertErr(error)
    case Ok((bytes, c)) =>
      match (B.Decode(sig), HexDecode(c.userPubKey))
      case (Some(s), Some(userPubKey)) =>
        if !p.verify(bytes, s, userPubKey) then CertErr(CertSignatureInvalid)
        else if expected.Some? && AsKey(expected.value).None? then CertThrew
        else if expected.Some? && HexEncode(AsKey(expected.value).value) != c.userPubKey then
          CertErr(UserPubKeyMismatch)
        else (match WindowError(c, nowSec, skew) case Some(w) => CertErr(w) case None => CertOk(c))
      case _ => CertThrew
  }

  function VerifyClientCert(p: Platform, e: CertEnvelope, expected: Option<KeyLike>, nowSec: int,
                            skew: int): CertResult
  {
    CheckCert(p, ReadCert(p, e.payload), e.sig, expected, nowSec, skew)
  }

  lemma BuiltCertReads(p: Platform, c: CertPayload, masterPrivKey: Bytes)
    requires ValidCert(c)
    ensures ReadCert(p, BuildClientCert(p, c, masterPrivKey).payload) == Ok((JcsBytes(CertJson(c)), c))
  {
    CertRoundTrip(c);
    ParseBytesJcs(p, CertJson(c));
    B.RoundTrip(JcsBytes(CertJson(c)));
  }

  /** A certificate the master key signed for its own user passes every check but pinning and time. */
  lemma BuiltCertVerifies(p: Platform, c: CertPayload, masterPrivKey: Bytes, expected: Option<KeyLike>, nowSec: int,
                          skew: int)
    requires Lawful(p) && ValidCert(c) && c.userPubKey == HexEncode(p.edPub(masterPrivKey))
    ensures VerifyClientCert(p, BuildClientCert(p, c, masterPrivKey), expected, nowSec, skew) ==
      if expected.Some? && AsKey(expected.value).None? then CertThrew
      else if expected.Some? && HexEncode(AsKey(expected.value).value) != c.userPubKey then CertErr(UserPubKeyMismatch)
      else if nowSec < c.iat - skew then CertErr(NotYetValid)
      else if nowSec > c.exp + skew then CertErr(Expired)
      else CertOk(c)
  {
    BuiltCertReads(p, c, masterPrivKey);
    SignedCertChecks(p, JcsBytes(CertJson(c)), c, masterPrivKey, expected, nowSec, skew);
  }

  lemma SignedCertChecks(p: Platform, bytes: Bytes, c: CertPayload, masterPrivKey: Bytes, expected: Option<KeyLike>,
                         nowSec: int, skew: int)
    requires Lawful(p) && c.userPubKey == HexEncode(p.edPub(masterPrivKey))
    ensures CheckCert(p, Ok((bytes, c)), B.Encode(p.sign(bytes, masterPrivKey)), expected, nowSec, skew) ==
      if expected.Some? && AsKey(expected.value).None? then CertThrew
      else if expected.Some? && HexEncode(AsKey(expected.value).value) != c.userPubKey then CertErr(UserPubKeyMismatch)
      else if nowSec < c.iat - skew then CertErr(NotYetValid)
      else if nowSec > c.exp + skew then CertErr(Expired)
      else CertOk(c)
  {
    B.RoundTrip(p.sign(bytes, masterPrivKey));
    KeyHex(p.edPub(masterPrivKey));
  }

  // ----- session assertions -----

  datatype SessionError = CertInvalid | WrongServer | WrongChallenge | StaleAssertion | SessionSignatureInvalid

  datatype SessionResult = SessionOk(cert: CertPayload) | SessionErr(error: SessionError) | SessionThrew

  datatype SessionOptions = SessionOptions(
    serverPubKey: Bytes, challenge: string, maxAgeMs: int, nowMs: int, nowSec: int, clockSkewSec: int)

  const CERT_ENVELOPE_KEYS := ["payload", "sig"]
  const UNSIGNED_KEYS := ["cert", "challenge", "serverId", "ts"]
  const SIGNED_KEYS := ["cert", "challenge", "serverId", "ts", "sig"]

  function EnvelopeJson(e: CertEnvelope): Json {
    Record(CERT_ENVELOPE_KEYS, [Str(e.payload), Str(e.sig)])
  }

  function UnsignedRecord(cert: Json, challenge: string, serverId: string, ts: int): Json {
    Record(UNSIGNED_KEYS, [cert, Str(challenge), Str(serverId), Num(ts)])
  }

  function UnsignedSession(e: CertEnvelope, challenge: string, serverPubKey: Bytes, ts: int): Json {
    UnsignedRecord(EnvelopeJson(e), challenge, HexEncode(serverPubKey), ts)
  }

  function WithSig(unsigned: Json, sig: Bytes): Json {
    if unsigned.Obj? then Obj(unsigned.members + [Member("sig", Str(B.Encode(sig)))]) else unsigned
  }

  function BuildSessionAssertion(p: Platform, e: CertEnvelope, challenge: string, serverPubKey: Bytes,
                                 clientPrivKey: Bytes, ts: int): Json {
    var unsigned := UnsignedSession(e, challenge, serverPubKey, ts);
    WithSig(unsigned, p.sign(JcsBytes(unsigned), clientPrivKey))
  }

  /** The TypeScript type of a session assertion: these members, of these types, in any order. */
  predicate IsSessionAssertion(a: Json) {
    var g := MembersOf(a);
    && WellFormed(a) && a.Obj?
    && HasText(g, "challenge") && HasText(g, "serverId") && HasText(g, "sig")
    && g("ts").Some? && g("ts").value.Num?
    && g("cert").Some? && g("cert").value.Obj?
    && HasText(MembersOf(g("cert").value), "payload") && HasText(MembersOf(g("cert").value), "sig")
  }

  /** What the verifier reads from an assertion: its fields, and the canonical bytes of everything but `sig`. */
  datatype Parts = Parts(cert: CertEnvelope, challenge: string, serverId: string, ts: int, sig: string,
                         canonical: Bytes)

  function PartsOf(a: Json): Parts
    requires IsSessionAssertion(a)
  {
    var g := MembersOf(a);
    var cert := MembersOf(g("cert").value);
    Parts(CertEnvelope(TextAt(cert, "payload"), TextAt(cert, "sig")), TextAt(g, "challenge"), TextAt(g, "serverId"),
          IntAt(g, "ts"), TextAt(g, "sig"), JcsBytes(Drop(a, "sig")))
  }

  /** The checks that follow the certificate's own. */
  function CheckParts(p: Platform, cert: CertResult, a: Parts, o: SessionOptions): SessionResult {
    match cert
    case CertThrew => SessionThrew
    case CertErr(_) => SessionErr(CertInvalid)
    case CertOk(c) =>
      if |o.serverPubKey| != KEY_LENGTH then SessionThrew
      else if a.serverId != HexEncode(o.serverPubKey) then SessionErr(WrongServer)
      else if a.challenge != o.challenge then SessionErr(WrongChallenge)
      else if o.nowMs - a.ts > o.maxAgeMs then SessionErr(StaleAssertion)
      else
        match (B.Decode(a.sig), HexDecode(c.clientPubKey))
        case (Some(sig), Some(clientPubKey)) =>
          if p.verify(a.canonical, sig, clientPubKey) then SessionOk(c) else SessionErr(SessionSignatureInvalid)
        case _ => SessionThrew
  }

  function VerifySessionAssertion(p: Platform, a: Json, o: SessionOptions): SessionResult
    requires IsSessionAssertion(a)
  {
    var parts := PartsOf(a);
    CheckParts(p, VerifyClientCert(p, parts.cert, None, o.nowSec, o.clockSkewSec), parts, o)
  }

  // ----- what the client builds, and what the server reads after any reordering in transport -----

  lemma {:induction false} DropAppended(ms: seq<Member>, m: Member)
    requires forall i :: 0 <= i < |ms| ==> ms[i].key != m.key
    ensures DropMember(ms + [m], m.key) == ms
  {
    if ms != [] {
      DropAppended(ms[1..], m);
      assert (ms + [m])[1..] == ms[1..] + [m];
    }
  }

  lemma EnvelopeReads(e: CertEnvelope)
    ensures WellFormed(EnvelopeJson(e))
    ensures var g := MembersOf(Canon(EnvelopeJson(e)));
      g("payload") == Some(Str(e.payload)) && g("sig") == Some(Str(e.sig))
  {
    RecordReads(CERT_ENVELOPE_KEYS, [Str(e.payload), Str(e.sig)]);
    var g := MembersOf(Canon(EnvelopeJson(e)));
    assert g(CERT_ENVELOPE_KEYS[0]) == Some(Str(e.payload)) && g(CERT_ENVELOPE_KEYS[1]) == Some(Str(e.sig));
  }

  lemma SignedRecord(cert: Json, challenge: string, serverId: string, ts: int, sig: Bytes)
    ensures var unsigned := UnsignedRecord(cert, challenge, serverId, ts);
      && WithSig(unsigned, sig) ==
           Record(SIGNED_KEYS, SignedValues(cert, challenge, serverId, ts, B.Encode(sig)))
      && Drop(WithSig(unsigned, sig), "sig") == unsigned
  {
    var unsigned, m := UnsignedRecord(cert, challenge, serverId, ts), Member("sig", Str(B.Encode(sig)));
    assert unsigned.members + [m] ==
           Record(SIGNED_KEYS, SignedValues(cert, challenge, serverId, ts, B.Encode(sig))).members;
    DropAppended(unsigned.members, m);
  }

  ghost predicate HoldsSession(g: Getter, cert: Json, challenge: string, serverId: string, ts: int, sig: string) {
    && g("cert") == Some(cert) && g("challenge") == Some(Str(challenge)) && g("serverId") == Some(Str(serverId))
    && g("ts") == Some(Num(ts)) && g("sig") == Some(Str(sig))
  }

  lemma SessionNames(g: Getter, cert: Json, challenge: string, serverId: string, ts: int, sig: string)
    requires Reads(g, SIGNED_KEYS, SignedValues(cert, challenge, serverId, ts, sig))
    ensures HoldsSession(g, Canon(cert), challenge, serverId, ts, sig)
  {
    var keys := SIGNED_KEYS;
    assert g(keys[0]) == Some(Canon(cert)) && g(keys[1]) == Some(Str(challenge)) && g(keys[2]) == Some(Str(serverId));
    assert g(keys[3]) == Some(Num(ts)) && g(keys[4]) == Some(Str(sig));
  }

  /** `a` is `unsigned` with a signature appended, and holds the given fields. */
  ghost predicate Built(a: Json, unsigned: Json, e: CertEnvelope, challenge: string, serverId: string, ts: int,
                        sig: string)
  {
    && WellFormed(unsigned) && WellFormed(a) && a.Obj? && Drop(a, "sig") == unsigned
    && HoldsSession(MembersOf(Canon(a)), Canon(EnvelopeJson(e)), challenge, serverId, ts, sig)
  }

  function SignedValues(cert: Json, challenge: string, serverId: string, ts: int, sig: string): seq<Json> {
    [cert, Str(challenge), Str(serverId), Num(ts), Str(sig)]
  }

  lemma SignedHolds(cert: Json, challenge: string, serverId: string, ts: int, sig: string, a: Json)
    requires WellFormed(cert) && a == Record(SIGNED_KEYS, SignedValues(cert, challenge, serverId, ts, sig))
    ensures WellFormed(a) && HoldsSession(MembersOf(Canon(a)), Canon(cert), challenge, serverId, ts, sig)
  {
    RecordReads(SIGNED_KEYS, SignedValues(cert, challenge, serverId, ts, sig));
    SessionNames(MembersOf(Canon(a)), cert, challenge, serverId, ts, sig);
  }

  lemma UnsignedWellFormed(cert: Json, challenge: string, serverId: string, ts: int)
    requires WellFormed(cert)
    ensures WellFormed(UnsignedRecord(cert, challenge, serverId, ts))
  {
    RecordReads(UNSIGNED_KEYS, [cert, Str(challenge), Str(serverId), Num(ts)]);
  }

  lemma BuiltReads(e: CertEnvelope, challenge: string, serverId: string, ts: int, sig: Bytes)
    ensures var unsigned := UnsignedRecord(EnvelopeJson(e), challenge, serverId, ts);
      Built(WithSig(unsigned, sig), unsigned, e, challenge, serverId, ts, B.Encode(sig))
  {
    var cert := EnvelopeJson(e);
    EnvelopeReads(e);
    UnsignedWellFormed(cert, challenge, serverId, ts);
    SignedRecord(cert, challenge, serverId, ts, sig);
    SignedHolds(cert, challenge, serverId, ts, B.Encode(sig),
                WithSig(UnsignedRecord(cert, challenge, serverId, ts), sig));
  }

  lemma GetWellFormed(v: Json, k: string)
    requires WellFormed(v)
    ensures Get(v, k).Some? ==> WellFormed(Get(v, k).value)
  {
  }

  /** Leaves are read the same from a value and from its canonical form. */
  lemma LeafReads(v: Json, k: string)
    requires WellFormed(v)
    ensures MembersOf(Canon(v))(k).Some? && (MembersOf(Canon(v))(k).value.Str? || MembersOf(Canon(v))(k).value.Num?) ==>
              MembersOf(v)(k) == MembersOf(Canon(v))(k)
  {
    LeafCanon(v, k);
  }

  lemma CertMember(t: Json, e: CertEnvelope)
    requires WellFormed(t) && t.Obj? && MembersOf(Canon(t))("cert") == Some(Canon(EnvelopeJson(e)))
    ensures var cert := MembersOf(t)("cert");
      && cert.Some? && cert.value.Obj?
      && MembersOf(cert.value)("payload") == Some(Str(e.payload)) && MembersOf(cert.value)("sig") == Some(Str(e.sig))
  {
    GetCanon(t, "cert");
    GetWellFormed(t, "cert");
    var cert := MembersOf(t)("cert").value;
    EnvelopeReads(e);
    LeafReads(cert, "payload");
    LeafReads(cert, "sig");
  }

  /** However transport reorders the members, the server reads the parts the client signed. */
  lemma TransportedParts(t: Json, a: Json, unsigned: Json, e: CertEnvelope, challenge: string, serverId: string,
                         ts: int, sig: string)
    requires Built(a, unsigned, e, challenge, serverId, ts, sig) && WellFormed(t) && SameContent(t, a)
    ensures IsSessionAssertion(t)
    ensures PartsOf(t) == Parts(e, challenge, serverId, ts, sig, JcsBytes(unsigned))
  {
    SameContentCanon(t, a);
    CertMember(t, e);
    LeafReads(t, "challenge");
    LeafReads(t, "serverId");
    LeafReads(t, "ts");
    LeafReads(t, "sig");
    SameContentDrop(t, a, "sig");
    SameContentCanon(Drop(t, "sig"), unsigned);
  }

  lemma CheckBuiltParts(p: Platform, c: CertPayload, clientPrivKey: Bytes, serverPubKey: Bytes, a: Parts,
                        o: SessionOptions)
    requires Lawful(p) && |serverPubKey| == KEY_LENGTH && |o.serverPubKey| == KEY_LENGTH
    requires c.clientPubKey == HexEncode(p.edPub(clientPrivKey)) && a.serverId == HexEncode(serverPubKey)
    requires a.sig == B.Encode(p.sign(a.canonical, clientPrivKey))
    ensures CheckParts(p, CertOk(c), a, o) ==
      if o.serverPubKey != serverPubKey then SessionErr(WrongServer)
      else if o.challenge != a.challenge then SessionErr(WrongChallenge)
      else if o.nowMs - a.ts > o.maxAgeMs then SessionErr(StaleAssertion)
      else SessionOk(c)
  {
    B.RoundTrip(p.sign(a.canonical, clientPrivKey));
    KeyHex(p.edPub(clientPrivKey));
    KeyHex(serverPubKey);
    KeyHex(o.serverPubKey);
  }

  /** The verdict on a genuine certificate at the instant of the options. */
  function CertVerdictAt(c: CertPayload, o: SessionOptions): CertResult {
    if o.nowSec < c.iat - o.clockSkewSec then CertErr(NotYetValid)
    else if o.nowSec > c.exp + o.clockSkewSec then CertErr(Expired)
    else CertOk(c)
  }

  lemma SessionOverAnyCert(p: Platform, c: CertPayload, e: CertEnvelope, a: Json, unsigned: Json, clientPrivKey: Bytes,
                           challenge: string, serverPubKey: Bytes, ts: int, t: Json, o: SessionOptions)
    requires Lawful(p) && |serverPubKey| == KEY_LENGTH && |o.serverPubKey| == KEY_LENGTH
    requires c.clientPubKey == HexEncode(p.edPub(clientPrivKey))
    requires VerifyClientCert(p, e, None, o.nowSec, o.clockSkewSec) == CertVerdictAt(c, o)
    requires Built(a, unsigned, e, challenge, HexEncode(serverPubKey), ts,
                   B.Encode(p.sign(JcsBytes(unsigned), clientPrivKey)))
    requires WellFormed(t) && SameContent(t, a)
    ensures IsSessionAssertion(t)
    ensures VerifySessionAssertion(p, t, o) == ExpectedOutcome(c, challenge, serverPubKey, ts, o)
  {
    TransportedParts(t, a, unsigned, e, challenge, HexEncode(serverPubKey), ts,
                     B.Encode(p.sign(JcsBytes(unsigned), clientPrivKey)));
    CheckBuiltParts(p, c, clientPrivKey, serverPubKey, PartsOf(t), o);
  }

  /** Inside the certificate's window, for the named server and challenge, and not too old; otherwise
      the first failing check decides.  A time stamp in the future is not refused. */
  function ExpectedOutcome(c: CertPayload, challenge: string, serverPubKey: Bytes, ts: int,
                           o: SessionOptions): SessionResult
  {
    if !(c.iat - o.clockSkewSec <= o.nowSec <= c.exp + o.clockSkewSec) then SessionErr(CertInvalid)
    else if o.serverPubKey != serverPubKey then SessionErr(WrongServer)
    else if o.challenge != challenge then SessionErr(WrongChallenge)
    else if o.nowMs - ts > o.maxAgeMs then SessionErr(StaleAssertion)
    else SessionOk(c)
  }

  /** A session assertion built with a certificate of this user and with the certificate's client key
      is accepted, in whatever member order it arrives, exactly as the window, server, challenge and
      age say. */
  lemma BuiltSessionVerifiesExactly(p: Platform, c: CertPayload, masterPrivKey: Bytes, clientPrivKey: Bytes,
                                    challenge: string, serverPubKey: Bytes, ts: int, t: Json, o: SessionOptions)
    requires Lawful(p) && ValidCert(c) && |serverPubKey| == KEY_LENGTH && |o.serverPubKey| == KEY_LENGTH
    requires c.userPubKey == HexEncode(p.edPub(masterPrivKey)) && c.clientPubKey == HexEncode(p.edPub(clientPrivKey))
    requires WellFormed(t) && SameContent(
               t, BuildSessionAssertion(p, BuildClientCert(p, c, masterPrivKey), challenge, serverPubKey, clientPrivKey,
                                        ts))
    ensures IsSessionAssertion(t)
    ensures VerifySessionAssertion(p, t, o) == ExpectedOutcome(c, challenge, serverPubKey, ts, o)
  {
    var e := BuildClientCert(p, c, masterPrivKey);
    BuiltCertVerifies(p, c, masterPrivKey, None, o.nowSec, o.clockSkewSec);
    SessionOverEnvelope(p, c, e, clientPrivKey, challenge, serverPubKey, ts, t, o);
  }

  /** What the server reads from an assertion the client built, in whatever member order it arrives. */
  lemma BuiltSessionParts(p: Platform, e: CertEnvelope, challenge: string, serverPubKey: Bytes, clientPrivKey: Bytes,
                          ts: int, t: Json)
    requires WellFormed(t) && SameContent(t, BuildSessionAssertion(p, e, challenge, serverPubKey, clientPrivKey, ts))
    ensures IsSessionAssertion(t)
    ensures var canonical := JcsBytes(UnsignedSession(e, challenge, serverPubKey, ts));
      PartsOf(t) == Parts(e, challenge, HexEncode(serverPubKey), ts, B.Encode(p.sign(canonical, clientPrivKey)),
                          canonical)
  {
    var unsigned := UnsignedSession(e, challenge, serverPubKey, ts);
    BuiltReads(e, challenge, HexEncode(serverPubKey), ts, p.sign(JcsBytes(unsigned), clientPrivKey));
    TransportedParts(t, BuildSessionAssertion(p, e, challenge, serverPubKey, clientPrivKey, ts), unsigned, e, challenge,
                     HexEncode(serverPubKey), ts, B.Encode(p.sign(JcsBytes(unsigned), clientPrivKey)));
  }

  lemma SessionOverEnvelope(p: Platform, c: CertPayload, e: CertEnvelope, clientPrivKey: Bytes, challenge: string,
                            serverPubKey: Bytes, ts: int, t: Json, o: SessionOptions)
    requires Lawful(p) && |serverPubKey| == KEY_LENGTH && |o.serverPubKey| == KEY_LENGTH
    requires c.clientPubKey == HexEncode(p.edPub(clientPrivKey))
    requires VerifyClientCert(p, e, None, o.nowSec, o.clockSkewSec) == CertVerdictAt(c, o)
    requires WellFormed(t) && SameContent(t, BuildSessionAssertion(p, e, challenge, serverPubKey, clientPrivKey, ts))
    ensures IsSessionAssertion(t)
    ensures VerifySessionAssertion(p, t, o) == ExpectedOutcome(c, challenge, serverPubKey, ts, o)
  {
    var unsigned := UnsignedSession(e, challenge, serverPubKey, ts);
    BuiltReads(e, challenge, HexEncode(serverPubKey), ts, p.sign(JcsBytes(unsigned), clientPrivKey));
    SessionOverAnyCert(p, c, e, BuildSessionAssertion(p, e, challenge, serverPubKey, clientPrivKey, ts), unsigned,
                       clientPrivKey, challenge, serverPubKey, ts, t, o);
  }

  lemma AcceptedCertIsSigned(p: Platform, e: CertEnvelope, expected: Option<KeyLike>, nowSec: int, skew: int)
    returns (bytes: Bytes)
    requires VerifyClientCert(p, e, expected, nowSec, skew).CertOk?
    ensures var c := VerifyClientCert(p, e, expected, nowSec, skew).payload;
      && ReadCert(p, e.payload) == Ok((bytes, c))
      && B.Decode(e.sig).Some? && HexDecode(c.userPubKey).Some?
      && p.verify(bytes, B.Decode(e.sig).value, HexDecode(c.userPubKey).value)
      && (expected.Some? ==> AsKey(expected.value).Some? && HexEncode(AsKey(expected.value).value) == c.userPubKey)
      && c.iat - skew <= nowSec <= c.exp + skew
  {
    CheckCertAccepts(p, ReadCert(p, e.payload), e.sig, expected, nowSec, skew);
    bytes := ReadCert(p, e.payload).value.0;
  }

  lemma CheckCertAccepts(p: Platform, read: Result<(Bytes, CertPayload), CertError>, sig: string,
                         expected: Option<KeyLike>, nowSec: int, skew: int)
    requires CheckCert(p, read, sig, expected, nowSec, skew).CertOk?
    ensures var c := CheckCert(p, read, sig, expected, nowSec, skew).payload;
      && read.Ok? && read.value.1 == c && B.Decode(sig).Some? && HexDecode(c.userPubKey).Some?
      && p.verify(read.value.0, B.Decode(sig).value, HexDecode(c.userPubKey).value)
      && (expected.Some? ==> AsKey(expected.value).Some? && HexEncode(AsKey(expected.value).value) == c.userPubKey)
      && c.iat - skew <= nowSec <= c.exp + skew
  {
  }

  // ----- when the verifiers throw instead of reporting -----

  /** A shape that passes holds a user key that decodes. */
  lemma ReadCertIsHex(p: Platform, payload: string)
    requires ReadCert(p, payload).Ok?
    ensures var c := ReadCert(p, payload).value.1;
      && IsHex32(c.userPubKey) && HexDecode(c.userPubKey).Some?
      && IsHex32(c.clientPubKey) && HexDecode(c.clientPubKey).Some?
  {
    var c := ReadCert(p, payload).value.1;
    HexDecodes(c.userPubKey);
    HexDecodes(c.clientPubKey);
  }

  ghost predicate CertSignatureHolds(p: Platform, e: CertEnvelope)
    requires ReadCert(p, e.payload).Ok?
  {
    var (bytes, c) := ReadCert(p, e.payload).value;
    && B.Decode(e.sig).Some? && HexDecode(c.userPubKey).Some?
    && p.verify(bytes, B.Decode(e.sig).value, HexDecode(c.userPubKey).value)
  }

  lemma CheckCertThrows(p: Platform, read: Result<(Bytes, CertPayload), CertError>, sig: string,
                        expected: Option<KeyLike>, nowSec: int, skew: int)
    requires read.Ok? ==> HexDecode(read.value.1.userPubKey).Some?
    ensures CheckCert(p, read, sig, expected, nowSec, skew) == CertThrew <==>
      read.Ok? && (B.Decode(sig).None? || (p.verify(read.value.0, B.Decode(sig).value,
                                                    HexDecode(read.value.1.userPubKey).value)
                                           && expected.Some? && AsKey(expected.value).None?))
  {
  }

  /** The pinned key, when there is one, is the user's. */
  ghost predicate PinHolds(c: CertPayload, expected: Option<KeyLike>) {
    expected.Some? ==> AsKey(expected.value).Some? && HexEncode(AsKey(expected.value).value) == c.userPubKey
  }

  /** Which failure is reported, for a payload that was read: the signature is checked first, then the
      pinned key, then the window. */
  lemma CheckCertExactly(p: Platform, read: Result<(Bytes, CertPayload), CertError>, sig: string,
                         expected: Option<KeyLike>, nowSec: int, skew: int)
    requires read.Ok? && B.Decode(sig).Some? && HexDecode(read.value.1.userPubKey).Some?
    requires expected.Some? ==> AsKey(expected.value).Some?
    ensures var c, r := read.value.1, CheckCert(p, read, sig, expected, nowSec, skew);
            var signed := p.verify(read.value.0, B.Decode(sig).value, HexDecode(c.userPubKey).value);
      && (r == CertErr(CertSignatureInvalid) <==> !signed)
      && (r == CertErr(UserPubKeyMismatch) <==> signed && !PinHolds(c, expected))
      && (r == CertErr(NotYetValid) <==> signed && PinHolds(c, expected) && nowSec < c.iat - skew)
      && (r == CertErr(Expired) <==>
            signed && PinHolds(c, expected) && nowSec >= c.iat - skew && nowSec > c.exp + skew)
      && (r == CertOk(c) <==> signed && PinHolds(c, expected) && c.iat - skew <= nowSec <= c.exp + skew)
  {
  }

  /** What the verifier reports for any certificate with a decodable signature: undecodable text or JSON, a
      shape the schema refuses, a signature that is not the named user's, another user than the pinned
      one, or an instant outside the window. */
  lemma CertErrorsExactly(p: Platform, e: CertEnvelope, expected: Option<KeyLike>, nowSec: int, skew: int)
    requires B.Decode(e.sig).Some? && (expected.Some? ==> AsKey(expected.value).Some?)
    ensures var r, bytes := VerifyClientCert(p, e, expected, nowSec, skew), B.Decode(e.payload);
            var j := if bytes.None? then None else ParseBytes(p, bytes.value);
      && (r == CertErr(PayloadDecodeFailed) <==> j.None?)
      && (r == CertErr(PayloadShapeInvalid) <==> j.Some? && CertOf(j.value).None?)
      && (j.Some? && CertOf(j.value).Some? ==>
            var c := CertOf(j.value).value;
            && ReadCert(p, e.payload) == Ok((bytes.value, c))
            && (r == CertErr(CertSignatureInvalid) <==> !CertSignatureHolds(p, e))
            && (r == CertErr(UserPubKeyMismatch) <==> CertSignatureHolds(p, e) && !PinHolds(c, expected))
            && (r == CertErr(NotYetValid) <==>
                  CertSignatureHolds(p, e) && PinHolds(c, expected) && nowSec < c.iat - skew)
            && (r == CertErr(Expired) <==>
                  CertSignatureHolds(p, e) && PinHolds(c, expected) && nowSec >= c.iat - skew && nowSec > c.exp + skew)
            && (r == CertOk(c) <==>
                  CertSignatureHolds(p, e) && PinHolds(c, expected) && c.iat - skew <= nowSec <= c.exp + skew))
  {
    var read := ReadCert(p, e.payload);
    if read.Ok? {
      ReadCertIsHex(p, e.payload);
      CheckCertExactly(p, read, e.sig, expected, nowSec, skew);
    }
  }

  /** A certificate makes its verifier throw exactly when its payload is well formed and its signature is
      not base64url, or the signature holds and the pinned key is not a key. */
  lemma CertThrowsExactly(p: Platform, e: CertEnvelope, expected: Option<KeyLike>, nowSec: int, skew: int)
    ensures VerifyClientCert(p, e, expected, nowSec, skew) == CertThrew <==>
      && ReadCert(p, e.payload).Ok?
      && (B.Decode(e.sig).None? || (CertSignatureHolds(p, e) && expected.Some? && AsKey(expected.value).None?))
  {
    if ReadCert(p, e.payload).Ok? { ReadCertIsHex(p, e.payload); }
    CheckCertThrows(p, ReadCert(p, e.payload), e.sig, expected, nowSec, skew);
  }

  /** With a 32-byte server key, a session assertion makes its verifier throw exactly when its
      certificate does, or when everything before its signature passes and the signature is not base64url. */
  lemma SessionThrowsExactly(p: Platform, a: Json, o: SessionOptions)
    requires IsSessionAssertion(a) && |o.serverPubKey| == KEY_LENGTH
    ensures var parts := PartsOf(a);
            var cert := VerifyClientCert(p, parts.cert, None, o.nowSec, o.clockSkewSec);
      VerifySessionAssertion(p, a, o) == SessionThrew <==>
        || (ReadCert(p, parts.cert.payload).Ok? && B.Decode(parts.cert.sig).None?)
        || (cert.CertOk? && parts.serverId == HexEncode(o.serverPubKey) && parts.challenge == o.challenge
            && o.nowMs - parts.ts <= o.maxAgeMs && B.Decode(parts.sig).None?)
  {
    var parts := PartsOf(a);
    var cert := VerifyClientCert(p, parts.cert, None, o.nowSec, o.clockSkewSec);
    CertThrowsExactly(p, parts.cert, None, o.nowSec, o.clockSkewSec);
    if cert.CertOk? { OkCertIsHex(p, parts.cert, o.nowSec, o.clockSkewSec); }
    PartsThrow(p, cert, parts, o);
  }

  lemma OkCertIsHex(p: Platform, e: CertEnvelope, nowSec: int, skew: int)
    requires VerifyClientCert(p, e, None, nowSec, skew).CertOk?
    ensures HexDecode(VerifyClientCert(p, e, None, nowSec, skew).payload.clientPubKey).Some?
  {
    var bytes := AcceptedCertIsSigned(p, e, None, nowSec, skew);
    ReadCertIsHex(p, e.payload);
  }

  lemma PartsThrow(p: Platform, cert: CertResult, a: Parts, o: SessionOptions)
    requires |o.serverPubKey| == KEY_LENGTH && (cert.CertOk? ==> HexDecode(cert.payload.clientPubKey).Some?)
    ensures CheckParts(p, cert, a, o) == SessionThrew <==>
      || cert == CertThrew
      || (cert.CertOk? && a.serverId == HexEncode(o.serverPubKey) && a.challenge == o.challenge
          && o.nowMs - a.ts <= o.maxAgeMs && B.Decode(a.sig).None?)
  {
  }

  /** What the verifier reports for any session assertion whose signatures decode, in order: the certificate,
      the server, the challenge, the age, the client's signature. */
  lemma SessionErrorsExactly(p: Platform, a: Json, o: SessionOptions)
    requires IsSessionAssertion(a) && |o.serverPubKey| == KEY_LENGTH
    requires B.Decode(PartsOf(a).sig).Some? && B.Decode(PartsOf(a).cert.sig).Some?
    ensures var parts, r := PartsOf(a), VerifySessionAssertion(p, a, o);
            var cert := VerifyClientCert(p, parts.cert, None, o.nowSec, o.clockSkewSec);
      && !cert.CertThrew?
      && (r == SessionErr(CertInvalid) <==> cert.CertErr?)
      && (r == SessionErr(WrongServer) <==> cert.CertOk? && parts.serverId != HexEncode(o.serverPubKey))
      && (r == SessionErr(WrongChallenge) <==>
            cert.CertOk? && parts.serverId == HexEncode(o.serverPubKey) && parts.challenge != o.challenge)
      && (r == SessionErr(StaleAssertion) <==>
            && cert.CertOk? && parts.serverId == HexEncode(o.serverPubKey) && parts.challenge == o.challenge
            && o.nowMs - parts.ts > o.maxAgeMs)
      && (r == SessionErr(SessionSignatureInvalid) <==>
            && cert.CertOk? && parts.serverId == HexEncode(o.serverPubKey) && parts.challenge == o.challenge
            && o.nowMs - parts.ts <= o.maxAgeMs && !SignedFields(p, cert.payload, parts, o))
      && (r.SessionOk? <==> cert.CertOk? && SignedFields(p, cert.payload, parts, o))
      && (r.SessionOk? ==> r.cert == cert.payload)
  {
    var parts := PartsOf(a);
    var cert := VerifyClientCert(p, parts.cert, None, o.nowSec, o.clockSkewSec);
    CertThrowsExactly(p, parts.cert, None, o.nowSec, o.clockSkewSec);
    if cert.CertOk? { OkCertIsHex(p, parts.cert, o.nowSec, o.clockSkewSec); }
    PartsErrors(p, cert, parts, o);
  }

  lemma PartsErrors(p: Platform, cert: CertResult, a: Parts, o: SessionOptions)
    requires !cert.CertThrew? && |o.serverPubKey| == KEY_LENGTH && B.Decode(a.sig).Some?
    requires cert.CertOk? ==> HexDecode(cert.payload.clientPubKey).Some?
    ensures var r := CheckParts(p, cert, a, o);
      && (r == SessionErr(CertInvalid) <==> cert.CertErr?)
      && (r == SessionErr(WrongServer) <==> cert.CertOk? && a.serverId != HexEncode(o.serverPubKey))
      && (r == SessionErr(WrongChallenge) <==>
            cert.CertOk? && a.serverId == HexEncode(o.serverPubKey) && a.challenge != o.challenge)
      && (r == SessionErr(StaleAssertion) <==>
            && cert.CertOk? && a.serverId == HexEncode(o.serverPubKey) && a.challenge == o.challenge
            && o.nowMs - a.ts > o.maxAgeMs)
      && (r == SessionErr(SessionSignatureInvalid) <==>
            && cert.CertOk? && a.serverId == HexEncode(o.serverPubKey) && a.challenge == o.challenge
            && o.nowMs - a.ts <= o.maxAgeMs && !SignedFields(p, cert.payload, a, o))
      && (r.SessionOk? <==> cert.CertOk? && SignedFields(p, cert.payload, a, o))
      && (r.SessionOk? ==> r.cert == cert.payload)
  {
  }

  /** The white paper allows a time stamp within 60 seconds of the server's clock.  The code and the
      paper disagree exactly on stamps that are between one and five minutes old, or more than a minute
      ahead. */
  lemma StampWindowDiffers(c: CertPayload, challenge: string, serverPubKey: Bytes, ts: int, o: SessionOptions)
    requires o.maxAgeMs == 300_000 && ExpectedOutcome(c, challenge, serverPubKey, o.nowMs, o) == SessionOk(c)
    ensures var accepted := ExpectedOutcome(c, challenge, serverPubKey, ts, o) == SessionOk(c);
      accepted != (-60_000 <= o.nowMs - ts <= 60_000) <==>
      60_000 < o.nowMs - ts <= 300_000 || ts - o.nowMs > 60_000
  {
  }

  ghost predicate SignedFields(p: Platform, c: CertPayload, a: Parts, o: SessionOptions) {
    && a.serverId == HexEncode(o.serverPubKey) && a.challenge == o.challenge && o.nowMs - a.ts <= o.maxAgeMs
    && B.Decode(a.sig).Some? && HexDecode(c.clientPubKey).Some?
    && p.verify(a.canonical, B.Decode(a.sig).value, HexDecode(c.clientPubKey).value)
  }

  lemma AcceptedPartsAreSigned(p: Platform, cert: CertResult, a: Parts, o: SessionOptions)
    requires CheckParts(p, cert, a, o).SessionOk?
    ensures cert == CertOk(CheckParts(p, cert, a, o).cert) && SignedFields(p, CheckParts(p, cert, a, o).cert, a, o)
  {
  }

  /** Acceptance implies both signatures: the master key named in the certificate signed the
      certificate's bytes, and the certificate's client key signed the canonical session fields. */
  lemma AcceptedSessionIsSigned(p: Platform, a: Json, o: SessionOptions) returns (certBytes: Bytes)
    requires IsSessionAssertion(a) && VerifySessionAssertion(p, a, o).SessionOk?
    ensures var c, e := VerifySessionAssertion(p, a, o).cert, PartsOf(a).cert;
      && ReadCert(p, e.payload) == Ok((certBytes, c))
      && B.Decode(e.sig).Some? && HexDecode(c.userPubKey).Some?
      && p.verify(certBytes, B.Decode(e.sig).value, HexDecode(c.userPubKey).value)
      && c.iat - o.clockSkewSec <= o.nowSec <= c.exp + o.clockSkewSec
      && SignedFields(p, c, PartsOf(a), o)
  {
    var parts := PartsOf(a);
    AcceptedPartsAreSigned(p, VerifyClientCert(p, parts.cert, None, o.nowSec, o.clockSkewSec), parts, o);
    certBytes := AcceptedCertIsSigned(p, parts.cert, None, o.nowSec, o.clockSkewSec);
  }

  /** The signed bytes fix the fields: assertions with the same canonical bytes agree on the
      certificate, the challenge, the server and the time. */
  lemma SignedBytesFixFields(a: Json, b: Json)
    requires IsSessionAssertion(a) && IsSessionAssertion(b) && PartsOf(a).canonical == PartsOf(b).canonical
    ensures PartsOf(a).(sig := "") == PartsOf(b).(sig := "")
  {
    GetDrop(a, "sig", "sig");
    GetDrop(b, "sig", "sig");
    JcsIdentifies(Drop(a, "sig"), Drop(b, "sig"));
    SameField(a, b, "challenge");
    SameField(a, b, "serverId");
    SameField(a, b, "ts");
    SameField(a, b, "cert");
    var x, y := Get(a, "cert").value, Get(b, "cert").value;
    GetWellFormed(a, "cert");
    GetWellFormed(b, "cert");
    SameContentGet(x, y, "payload");
    SameContentGet(x, y, "sig");
  }

  lemma SameField(a: Json, b: Json, k: string)
    requires WellFormed(a) && WellFormed(b) && a.Obj? && b.Obj? && k != "sig"
    requires WellFormed(Drop(a, "sig")) && WellFormed(Drop(b, "sig")) && SameContent(Drop(a, "sig"), Drop(b, "sig"))
    ensures Get(a, k).Some? <==> Get(b, k).Some?
    ensures Get(a, k).Some? ==> SameContent(Get(a, k).value, Get(b, k).value)
  {
    GetDrop(a, "sig", k);
    GetDrop(b, "sig", k);
    SameContentGet(Drop(a, "sig"), Drop(b, "sig"), k);
  }
}
