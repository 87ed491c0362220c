/** The life of the stored identity: pairing creates it from a verified certificate, renewal replaces
    the certificate of the same user, signing out drops it. */
module StoredIdentities {
  import opened Options
  import opened Text
  import opened Platform
  import Json
  import Jcs
  import Schemas
  import SealedBoxes
  import Keys
  import opened Sessions
  import opened ClientBundles
  import opened ClientStorage
  import B = Base64Url

  const DAY_MS := 86_400_000

  /** The device's two key pairs. */
  datatype ClientKeys = ClientKeys(pub: Bytes, priv: Bytes, encPub: Bytes, encPriv: Bytes)

  datatype Paired = Paired(identity: StoredIdentity, bundle: Bundle)

  function IdentityFrom(cert: CertEnvelope, c: Schemas.CertPayload, keys: ClientKeys): StoredIdentity {
    StoredIdentity(c.clientId, Some(B.Encode(keys.priv)), Some(B.Encode(keys.encPriv)), cert.payload, cert.sig,
                   c.userPubKey, c.exp, c.iat)
  }

  function PairVerified(verified: CertResult, bundle: Result<Bundle, BundleError>, appId: string, cert: CertEnvelope,
                        keys: ClientKeys)
    : Outcome<Paired> {
    match verified
    case CertOk(c) =>
      if c.clientPubKey != HexEncode(keys.pub) || c.clientEncPubKey != HexEncode(keys.encPub) then Threw
      else if c.appId != appId then Threw
      else (match bundle
            case Err(_) => Threw
            case Ok(b) => Returned(Paired(IdentityFrom(cert, c, keys), b)))
    case _ => Threw
  }

  /** The user is not pinned on first pairing; the device's own keys and the app id are. */
  function Pair(p: Platform, appId: string, cert: CertEnvelope, box: SealedBoxes.SealedBox, keys: ClientKeys,
                nowSec: int): Outcome<Paired>
  {
    PairVerified(VerifyClientCert(p, cert, None, nowSec, CLOCK_SKEW_SEC), OpenClientBundle(p, box, keys.encPriv), appId,
                 cert, keys)
  }

  /** The identity holds both private keys of the device, each in its own field, and the certificate with
      what it says of the device, the user and the dates. */
  ghost predicate IdentityHolds(i: StoredIdentity, e: CertEnvelope, c: Schemas.CertPayload, keys: ClientKeys) {
    && i.clientId == c.clientId && i.userPubKey == c.userPubKey && i.exp == c.exp && i.iat == c.iat
    && i.signedCertBytes == e.payload && i.certSignature == e.sig
    && i.clientPriv.Some? && B.Decode(i.clientPriv.value) == Some(keys.priv)
    && i.clientEncPriv.Some? && B.Decode(i.clientEncPriv.value) == Some(keys.encPriv)
  }

  /** A device pairs exactly with a certificate that verifies, names both of its public keys and its app,
      and a bundle it can open; then it stores its keys, the certificate and that bundle. */
  lemma PairsExactly(p: Platform, appId: string, cert: CertEnvelope, box: SealedBoxes.SealedBox, keys: ClientKeys,
                     nowSec: int)
    ensures var r, v := Pair(p, appId, cert, box, keys, nowSec), VerifyClientCert(p, cert, None, nowSec, 60);
            var bundle := OpenClientBundle(p, box, keys.encPriv);
      && (r.Returned? <==>
            && v.CertOk? && v.payload.appId == appId && bundle.Ok?
            && v.payload.clientPubKey == HexEncode(keys.pub) && v.payload.clientEncPubKey == HexEncode(keys.encPub))
      && (r.Returned? ==> IdentityHolds(r.value.identity, cert, v.payload, keys) && Ok(r.value.bundle) == bundle)
  {
    B.RoundTrip(keys.priv);
    B.RoundTrip(keys.encPriv);
  }

  /** A certificate and a bundle built for this device and app pair it, with exactly the ticked servers
      whose K has arrived; an empty K among them makes the pairing fail. */
  lemma HonestPairing(p: Platform, x: PairCertInput, ticked: seq<Ticked>, issuedSec: int, d: SealedBoxes.Draw,
                      keys: ClientKeys, nowSec: int)
    requires Lawful(p) && |x.clientPubKey| == |x.clientEncPubKey| == |x.userEncPubKey| == |keys.encPriv| == KEY_LENGTH
    requires x.appId != "" && Schemas.IsUuid(x.clientId) && x.deviceName != "" && x.userId != ""
    requires IsSafeInt(x.nowSec) && IsSafeInt(PairCertPayload(p, x).exp) && IsSafeInt(issuedSec)
    requires x.clientPubKey == keys.pub && x.clientEncPubKey == keys.encPub == p.xPub(keys.encPriv)
    requires x.nowSec - 60 <= nowSec <= PairCertPayload(p, x).exp + 60
    requires forall i :: 0 <= i < |ticked| ==> |ticked[i].serverPubKey| == KEY_LENGTH
    requires BuildClientPairBundle(p, keys.encPub, ticked, issuedSec, d).Returned?
    ensures var box := BuildClientPairBundle(p, keys.encPub, ticked, issuedSec, d).value;
            var r := Pair(p, x.appId, BuildClientPairCert(p, x), box, keys, nowSec);
      && (r.Returned? <==> Schemas.AllValid(ValidTicked, ticked))
      && (r.Returned? ==>
            && r.value.bundle == Bundle(issuedSec, Usable(ticked))
            && HonestIdentity(p, r.value.identity, x, keys)
            && CertOfIdentity(r.value.identity) == BuildClientPairCert(p, x))
  {
    PairCertVerifies(p, x, None, nowSec, CLOCK_SKEW_SEC);
    PairCertSays(p, x, nowSec, CLOCK_SKEW_SEC);
    BundleIsDelivered(p, keys.encPriv, ticked, issuedSec, d);
    var box := BuildClientPairBundle(p, keys.encPub, ticked, issuedSec, d).value;
    PairingOver(p, BuildClientPairCert(p, x), PairCertPayload(p, x), box, OpenClientBundle(p, box, keys.encPriv), x,
                keys, nowSec);
  }

  lemma PairingOver(p: Platform, cert: CertEnvelope, c: Schemas.CertPayload, box: SealedBoxes.SealedBox,
                    bundle: Result<Bundle, BundleError>, x: PairCertInput, keys: ClientKeys, nowSec: int)
    requires VerifyClientCert(p, cert, None, nowSec, 60) == CertOk(c) && CertSays(p, c, x)
    requires c.clientPubKey == HexEncode(keys.pub) && c.clientEncPubKey == HexEncode(keys.encPub)
    requires OpenClientBundle(p, box, keys.encPriv) == bundle
    ensures var r := Pair(p, x.appId, cert, box, keys, nowSec);
      && (r.Returned? <==> bundle.Ok?)
      && (r.Returned? ==>
            && r.value.bundle == bundle.value && HonestIdentity(p, r.value.identity, x, keys)
            && CertOfIdentity(r.value.identity) == cert)
  {
    PairsExactly(p, x.appId, cert, box, keys, nowSec);
    if bundle.Ok? { HonestFrom(p, Pair(p, x.appId, cert, box, keys, nowSec).value.identity, cert, c, x, keys); }
  }

  lemma HonestFrom(p: Platform, i: StoredIdentity, cert: CertEnvelope, c: Schemas.CertPayload, x: PairCertInput,
                   keys: ClientKeys)
    requires IdentityHolds(i, cert, c, keys) && CertSays(p, c, x)
    ensures HonestIdentity(p, i, x, keys) && CertOfIdentity(i) == cert
  {
  }

  /** What the device then knows of itself and of its user. */
  ghost predicate HonestIdentity(p: Platform, i: StoredIdentity, x: PairCertInput, keys: ClientKeys) {
    && i.clientId == x.clientId && HexDecode(i.userPubKey) == Some(p.edPub(x.masterPriv))
    && i.iat == x.nowSec && i.exp == x.nowSec + (if x.ttlSec.Some? then x.ttlSec.value else 5_184_000)
    && i.clientPriv.Some? && B.Decode(i.clientPriv.value) == Some(keys.priv)
    && i.clientEncPriv.Some? && B.Decode(i.clientEncPriv.value) == Some(keys.encPriv)
  }

  ghost predicate DistinctServers(ticked: seq<Ticked>) {
    forall i, j :: 0 <= i < j < |ticked| ==> ticked[i].serverPubKey != ticked[j].serverPubKey
  }

  lemma {:induction false} NoKeyFor(ticked: seq<Ticked>, pub: Bytes)
    requires forall i :: 0 <= i < |ticked| ==> ticked[i].serverPubKey != pub
    ensures KeyIn(Usable(ticked), HexEncode(pub)) == None
  {
    if ticked != [] {
      var n := |ticked| - 1;
      NoKeyFor(ticked[..n], pub);
      if ticked[n].connInfoKey.Some? {
        HexRoundTrip(pub);
        HexRoundTrip(ticked[n].serverPubKey);
        KeyInAppended(Usable(ticked[..n]), ServerFor(ticked[n], ticked[n].connInfoKey.value), HexEncode(pub));
      }
    }
  }

  /** A paired device finds the K of every server that was ticked. */
  lemma {:induction false} EveryKIsFound(ticked: seq<Ticked>, i: nat)
    requires DistinctServers(ticked) && i < |ticked|
    ensures KeyIn(Usable(ticked), HexEncode(ticked[i].serverPubKey)) ==
            match ticked[i].connInfoKey case None => None case Some(k) => Some(B.Encode(k))
  {
    var n, server := |ticked| - 1, HexEncode(ticked[i].serverPubKey);
    if i < n {
      EveryKIsFound(ticked[..n], i);
      HexRoundTrip(ticked[i].serverPubKey);
      HexRoundTrip(ticked[n].serverPubKey);
    } else {
      NoKeyFor(ticked[..n], ticked[n].serverPubKey);
    }
    if ticked[n].connInfoKey.Some? {
      KeyInAppended(Usable(ticked[..n]), ServerFor(ticked[n], ticked[n].connInfoKey.value), server);
    }
  }

  // ----- signing in with what is stored -----

  /** A certificate that was accepted once is later judged by its window alone. */
  lemma VerdictMovesWithTime(p: Platform, e: CertEnvelope, nowSec: int, o: SessionOptions)
    requires VerifyClientCert(p, e, None, nowSec, o.clockSkewSec).CertOk?
    ensures VerifyClientCert(p, e, None, o.nowSec, o.clockSkewSec) ==
            CertVerdictAt(VerifyClientCert(p, e, None, nowSec, o.clockSkewSec).payload, o)
  {
    ReadVerdictMoves(p, ReadCert(p, e.payload), e.sig, nowSec, o);
  }

  lemma ReadVerdictMoves(p: Platform, read: Result<(Bytes, Schemas.CertPayload), CertError>, sig: string, nowSec: int,
                         o: SessionOptions)
    requires CheckCert(p, read, sig, None, nowSec, o.clockSkewSec).CertOk?
    ensures CheckCert(p, read, sig, None, o.nowSec, o.clockSkewSec) ==
            CertVerdictAt(CheckCert(p, read, sig, None, nowSec, o.clockSkewSec).payload, o)
  {
  }

  /** A paired device signs in: a session assertion over its stored certificate, signed with its stored key,
      is judged by window, server, challenge and age alone. */
  lemma PairedDeviceSignsIn(p: Platform, appId: string, cert: CertEnvelope, box: SealedBoxes.SealedBox,
                            keys: ClientKeys, nowSec: int, challenge: string, serverPubKey: Bytes, ts: int,
                            t: Json.Json, o: SessionOptions)
    requires Lawful(p) && keys.pub == p.edPub(keys.priv) && |serverPubKey| == |o.serverPubKey| == KEY_LENGTH
    requires Pair(p, appId, cert, box, keys, nowSec).Returned? && o.clockSkewSec == 60
    requires var i := Pair(p, appId, cert, box, keys, nowSec).value.identity;
      && i.clientPriv.Some? && B.Decode(i.clientPriv.value).Some? && Json.WellFormed(t)
      && Jcs.SameContent(t, BuildSessionAssertion(p, CertOfIdentity(i), challenge, serverPubKey,
                                                  B.Decode(i.clientPriv.value).value, ts))
    ensures IsSessionAssertion(t)
    ensures VerifySessionAssertion(p, t, o) ==
            ExpectedOutcome(VerifyClientCert(p, cert, None, nowSec, 60).payload, challenge, serverPubKey, ts, o)
  {
    PairsExactly(p, appId, cert, box, keys, nowSec);
    VerdictMovesWithTime(p, cert, nowSec, o);
    SessionOverEnvelope(p, VerifyClientCert(p, cert, None, nowSec, 60).payload, cert, keys.priv, challenge,
                        serverPubKey, ts, t, o);
  }

  // ----- renewal -----

  datatype RenewAnswer = NewCert(signedCertBytes: string, certSignature: string) | TowerRefused | RequestBroke

  datatype RenewResult = Renewed | NotNeeded | Unavailable | RenewalFailed | RenewalThrew

  function CertOfIdentity(i: StoredIdentity): CertEnvelope {
    CertEnvelope(i.signedCertBytes, i.certSignature)
  }

  function WithCert(i: StoredIdentity, cert: CertEnvelope, c: Schemas.CertPayload): StoredIdentity {
    i.(signedCertBytes := cert.payload, certSignature := cert.sig, exp := c.exp, iat := c.iat)
  }

  function AcceptRenewed(i: StoredIdentity, cert: CertEnvelope, verified: CertResult): (StoredIdentity, RenewResult) {
    match verified
    case CertOk(c) => (WithCert(i, cert, c), Renewed)
    case CertErr(_) => (i, RenewalFailed)
    case CertThrew => (i, RenewalThrew)
  }

  /** The new certificate is pinned to the stored user, at the later instant of its verification. */
  function RenewWith(p: Platform, i: StoredIdentity, answer: RenewAnswer,
                     verifiedMs: int): (StoredIdentity, RenewResult)
  {
    match answer
    case TowerRefused => (i, RenewalFailed)
    case RequestBroke => (i, RenewalThrew)
    case NewCert(bytes, sig) =>
      var cert := CertEnvelope(bytes, sig);
      AcceptRenewed(i, cert, VerifyClientCert(p, cert, Some(Keys.KeyText(i.userPubKey)), verifiedMs / 1000,
                                              CLOCK_SKEW_SEC))
  }

  /** `nowMs` is read before Tower is asked and `verifiedMs` when the answer is verified. */
  function Renew(p: Platform, identity: Option<StoredIdentity>, answer: RenewAnswer, withinDays: int, nowMs: int,
                 verifiedMs: int)
    : (Option<StoredIdentity>, RenewResult) {
    match identity
    case None => (None, Unavailable)
    case Some(i) =>
      if i.exp * 1000 - nowMs > withinDays * DAY_MS then (identity, NotNeeded)
      else
        var (i', r) := RenewWith(p, i, answer, verifiedMs);
        (Some(i'), r)
  }

  lemma PinnedText(text: string)
    requires IsHex32(text)
    ensures Keys.AsKey(Keys.KeyText(text)).Some? && HexEncode(Keys.AsKey(Keys.KeyText(text)).value) == text
  {
    HexDecodes(text);
  }

  lemma PinnedVerdict(p: Platform, userPubKey: string, c: Schemas.CertPayload, masterPriv: Bytes, nowSec: int)
    requires Lawful(p) && IsHex32(userPubKey)
    requires Schemas.ValidCert(c) && c.userPubKey == HexEncode(p.edPub(masterPriv))
    ensures var r := VerifyClientCert(p, BuildClientCert(p, c, masterPriv), Some(Keys.KeyText(userPubKey)), nowSec, 60);
      if c.userPubKey == userPubKey && c.iat - 60 <= nowSec <= c.exp + 60 then r == CertOk(c) else r.CertErr?
  {
    PinnedText(userPubKey);
    BuiltCertVerifies(p, c, masterPriv, Some(Keys.KeyText(userPubKey)), nowSec, 60);
  }

  lemma RenewWithExactly(p: Platform, i: StoredIdentity, cert: CertEnvelope, c: Schemas.CertPayload, verifiedMs: int)
    requires var r := VerifyClientCert(p, cert, Some(Keys.KeyText(i.userPubKey)), verifiedMs / 1000, 60);
      if c.userPubKey == i.userPubKey && c.iat - 60 <= verifiedMs / 1000 <= c.exp + 60 then r == CertOk(c)
      else r.CertErr?
    ensures RenewWith(p, i, NewCert(cert.payload, cert.sig), verifiedMs) ==
      if c.userPubKey == i.userPubKey && c.iat - 60 <= verifiedMs / 1000 <= c.exp + 60
      then (i.(signedCertBytes := cert.payload, certSignature := cert.sig, exp := c.exp, iat := c.iat), Renewed)
      else (i, RenewalFailed)
  {
  }

  /** What a renewal comes to when Tower answers with a certificate some user signed: nothing is asked while
      more than the given number of days remain; a certificate of the stored user in its window replaces
      the stored one with its dates; any other is refused and leaves the identity as it was. */
  lemma RenewalExactly(p: Platform, i: StoredIdentity, c: Schemas.CertPayload, masterPriv: Bytes, withinDays: int,
                       nowMs: int, verifiedMs: int)
    requires Lawful(p) && IsHex32(i.userPubKey)
    requires Schemas.ValidCert(c) && c.userPubKey == HexEncode(p.edPub(masterPriv))
    ensures var cert := BuildClientCert(p, c, masterPriv);
      Renew(p, Some(i), NewCert(cert.payload, cert.sig), withinDays, nowMs, verifiedMs) ==
      if i.exp * 1000 - nowMs > withinDays * 86_400_000 then (Some(i), NotNeeded)
      else if c.userPubKey == i.userPubKey && c.iat - 60 <= verifiedMs / 1000 <= c.exp + 60 then
        (Some(i.(signedCertBytes := cert.payload, certSignature := cert.sig, exp := c.exp, iat := c.iat)), Renewed)
      else (Some(i), RenewalFailed)
  {
    PinnedVerdict(p, i.userPubKey, c, masterPriv, verifiedMs / 1000);
    RenewWithExactly(p, i, BuildClientCert(p, c, masterPriv), c, verifiedMs);
  }

  /** For any answer of Tower: which result is reported, and that only a success changes anything. */
  lemma RenewalReportsExactly(p: Platform, identity: Option<StoredIdentity>, answer: RenewAnswer, withinDays: int,
                              nowMs: int, verifiedMs: int)
    ensures var (identity', r) := Renew(p, identity, answer, withinDays, nowMs, verifiedMs);
            var asked := identity.Some? && identity.value.exp * 1000 - nowMs <= withinDays * 86_400_000;
      && (r == Unavailable <==> identity.None?)
      && (r == NotNeeded <==> identity.Some? && !asked)
      && (asked && answer == TowerRefused ==> r == RenewalFailed)
      && (asked && answer == RequestBroke ==> r == RenewalThrew)
      && (r != Renewed ==> identity' == identity)
      && (r == Renewed ==> asked && answer.NewCert? && identity'.Some?)
  {
  }

  // ----- the invariant -----

  /** The identity's user and validity are those of the certificate it carries, which its user signed. */
  ghost predicate MatchesItsCert(p: Platform, i: StoredIdentity) {
    var read := ReadCert(p, i.signedCertBytes);
    && read.Ok? && read.value.1.userPubKey == i.userPubKey && read.value.1.exp == i.exp && read.value.1.iat == i.iat
    && SignedByUser(p, read.value.0, i)
  }

  ghost predicate SignedByUser(p: Platform, bytes: Bytes, i: StoredIdentity) {
    && B.Decode(i.certSignature).Some? && HexDecode(i.userPubKey).Some?
    && p.verify(bytes, B.Decode(i.certSignature).value, HexDecode(i.userPubKey).value)
  }

  ghost predicate IdentityOk(p: Platform, identity: Option<StoredIdentity>) {
    identity.Some? ==> MatchesItsCert(p, identity.value)
  }

  lemma PairedMatches(p: Platform, appId: string, cert: CertEnvelope, box: SealedBoxes.SealedBox, keys: ClientKeys,
                      nowSec: int)
    requires Pair(p, appId, cert, box, keys, nowSec).Returned?
    ensures MatchesItsCert(p, Pair(p, appId, cert, box, keys, nowSec).value.identity)
  {
    var bytes := AcceptedCertIsSigned(p, cert, None, nowSec, CLOCK_SKEW_SEC);
  }

  /** An accepted certificate is for the pinned user. */
  lemma PinnedUser(p: Platform, cert: CertEnvelope, userPubKey: string, nowSec: int, c: Schemas.CertPayload)
    requires IsHex32(userPubKey)
    requires VerifyClientCert(p, cert, Some(Keys.KeyText(userPubKey)), nowSec, CLOCK_SKEW_SEC) == CertOk(c)
    ensures c.userPubKey == userPubKey
  {
    var bytes := AcceptedCertIsSigned(p, cert, Some(Keys.KeyText(userPubKey)), nowSec, CLOCK_SKEW_SEC);
    HexDecodes(userPubKey);
  }

  lemma RenewedMatches(p: Platform, i: StoredIdentity, answer: RenewAnswer, verifiedMs: int)
    requires MatchesItsCert(p, i)
    ensures MatchesItsCert(p, RenewWith(p, i, answer, verifiedMs).0)
    ensures RenewWith(p, i, answer, verifiedMs).0.userPubKey == i.userPubKey
  {
    if RenewWith(p, i, answer, verifiedMs).1 == Renewed {
      var cert := CertEnvelope(answer.signedCertBytes, answer.certSignature);
      ReadCertIsHex(p, i.signedCertBytes);
      NewCertMatches(p, i, cert, verifiedMs / 1000);
    }
  }

  lemma NewCertMatches(p: Platform, i: StoredIdentity, cert: CertEnvelope, nowSec: int)
    requires IsHex32(i.userPubKey)
    requires VerifyClientCert(p, cert, Some(Keys.KeyText(i.userPubKey)), nowSec, CLOCK_SKEW_SEC).CertOk?
    ensures var verified := VerifyClientCert(p, cert, Some(Keys.KeyText(i.userPubKey)), nowSec, CLOCK_SKEW_SEC);
      MatchesItsCert(p, WithCert(i, cert, verified.payload))
  {
    var c := VerifyClientCert(p, cert, Some(Keys.KeyText(i.userPubKey)), nowSec, CLOCK_SKEW_SEC).payload;
    PinnedUser(p, cert, i.userPubKey, nowSec, c);
    var bytes := AcceptedCertIsSigned(p, cert, Some(Keys.KeyText(i.userPubKey)), nowSec, CLOCK_SKEW_SEC);
  }

  // ----- runs of pairing, renewal and signing out -----

  datatype Op =
    | DoPair(cert: CertEnvelope, box: SealedBoxes.SealedBox, keys: ClientKeys, nowSec: int)
    | DoRenew(answer: RenewAnswer, withinDays: int, nowMs: int, verifiedMs: int)
    | DoSignOut

  function After(p: Platform, appId: string, identity: Option<StoredIdentity>, op: Op): Option<StoredIdentity> {
    match op
    case DoPair(cert, box, keys, nowSec) =>
      (match Pair(p, appId, cert, box, keys, nowSec) case Threw => identity case Returned(x) => Some(x.identity))
    case DoRenew(answer, withinDays, nowMs, verifiedMs) => Renew(p, identity, answer, withinDays, nowMs, verifiedMs).0
    case DoSignOut => None
  }

  function AfterAll(p: Platform, appId: string, identity: Option<StoredIdentity>,
                    ops: seq<Op>): Option<StoredIdentity>
  {
    if ops == [] then identity else After(p, appId, AfterAll(p, appId, identity, ops[..|ops| - 1]), ops[|ops| - 1])
  }

  lemma AfterMatches(p: Platform, appId: string, identity: Option<StoredIdentity>, op: Op)
    requires IdentityOk(p, identity)
    ensures IdentityOk(p, After(p, appId, identity, op))
    ensures op.DoRenew? && identity.Some? ==>
              && After(p, appId, identity, op).Some?
              && After(p, appId, identity, op).value.userPubKey == identity.value.userPubKey
  {
    match op {
      case DoPair(cert, box, keys, nowSec) =>
        if Pair(p, appId, cert, box, keys, nowSec).Returned? { PairedMatches(p, appId, cert, box, keys, nowSec); }
      case DoRenew(answer, withinDays, nowMs, verifiedMs) =>
        if identity.Some? { RenewedMatches(p, identity.value, answer, verifiedMs); }
      case DoSignOut =>
    }
  }

  /** Over any run, from an empty device on: the identity is null or agrees with the verified
      certificate it carries. */
  lemma {:induction false} IdentityInvariant(p: Platform, appId: string, ops: seq<Op>)
    ensures IdentityOk(p, AfterAll(p, appId, None, ops))
  {
    if ops != [] {
      IdentityInvariant(p, appId, ops[..|ops| - 1]);
      AfterMatches(p, appId, AfterAll(p, appId, None, ops[..|ops| - 1]), ops[|ops| - 1]);
    }
  }

  /** Any number of renewals leaves the user as it was. */
  lemma {:induction false} RenewalsKeepTheUser(p: Platform, appId: string, identity: Option<StoredIdentity>,
                                               ops: seq<Op>)
    requires IdentityOk(p, identity) && identity.Some? && forall i :: 0 <= i < |ops| ==> ops[i].DoRenew?
    ensures var last := AfterAll(p, appId, identity, ops);
      last.Some? && IdentityOk(p, last) && last.value.userPubKey == identity.value.userPubKey
  {
    if ops != [] {
      RenewalsKeepTheUser(p, appId, identity, ops[..|ops| - 1]);
      AfterMatches(p, appId, AfterAll(p, appId, identity, ops[..|ops| - 1]), ops[|ops| - 1]);
    }
  }

  /** `not-needed`, for a non-negative number of days, means the stored certificate is not expired now. */
  lemma NotNeededIsNotExpired(p: Platform, i: StoredIdentity, answer: RenewAnswer, withinDays: int, nowMs: int,
                              verifiedMs: int)
    requires MatchesItsCert(p, i) && withinDays >= 0
    requires Renew(p, Some(i), answer, withinDays, nowMs, verifiedMs).1 == NotNeeded
    ensures VerifyClientCert(p, CertOfIdentity(i), None, nowMs / 1000, CLOCK_SKEW_SEC) != CertErr(Expired)
  {
    StillRenewing(p, i, answer, verifiedMs);
    assert nowMs / 1000 <= i.exp;
    Unexpired(p, ReadCert(p, i.signedCertBytes), i.certSignature, nowMs / 1000);
  }

  lemma StillRenewing(p: Platform, i: StoredIdentity, answer: RenewAnswer, verifiedMs: int)
    ensures RenewWith(p, i, answer, verifiedMs).1 != NotNeeded
  {
  }

  lemma Unexpired(p: Platform, read: Result<(Bytes, Schemas.CertPayload), CertError>, sig: string, nowSec: int)
    requires read.Ok? && nowSec <= read.value.1.exp
    ensures CheckCert(p, read, sig, None, nowSec, CLOCK_SKEW_SEC) != CertErr(Expired)
  {
  }

  // ----- signing out -----

  /** Only the tokens of the servers in the bundle are dropped, and only if there is an identity. */
  function SignedOut(s: Stored): Stored {
    Stored(None, None,
           if s.identity.Some? && s.bundle.Some? then s.tokens - ServerNames(s.bundle.value.servers) else s.tokens)
  }

  function ServerNames(servers: seq<BundleServer>): set<string> {
    set s | s in servers :: s.serverPubKey
  }

  /** Signing out is documented to drop all local state: it does exactly when no token is left, or
      there is an identity and every token belongs to a server of the current bundle. */
  lemma SignOutDropsEverythingExactly(s: Stored)
    ensures SignedOut(s) == NOTHING <==>
      s.tokens == map[] || (s.identity.Some? && s.bundle.Some? && s.tokens.Keys <= ServerNames(s.bundle.value.servers))
  {
    if s.identity.Some? && s.bundle.Some? {
      var names := ServerNames(s.bundle.value.servers);
      if s.tokens.Keys <= names {
        assert s.tokens - names == map[];
      } else {
        var k :| k in s.tokens && k !in names;
        assert k in s.tokens - names;
      }
    }
  }
}
