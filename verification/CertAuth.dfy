/** The media server's half of the challenge handshake: `begin` hands out a challenge to a registered,
    unrevoked client, `complete` takes a signed assertion over it. */
module CertAuth {
  import opened Options
  import opened Text
  import opened Json
  import Jcs
  import opened Platform
  import opened Schemas
  import opened Sessions
  import opened AuthStores

  datatype Refusal =
    | BadCert(certError: CertError)
    | BadSession(sessionError: SessionError)
    | ChallengeUnknownOrConsumed
    | UserNotRegistered
    | ClientRevoked

  datatype Reply =
    | Begun(challenge: string, cert: CertPayload)
    | Completed(userId: string, cert: CertPayload)
    | Refused(status: int, reason: Refusal)
    | Crashed  // an exception leaves the call

  datatype AuthState = AuthState(challenges: Challenges, clients: Clients, users: Users)

  const SESSION_MAX_AGE_MS := 300_000

  /** The largest time value of an ECMAScript date, in milliseconds; toISOString throws beyond it. */
  const MAX_DATE_MS := 8_640_000_000_000_000

  predicate IsDate(ms: int) {
    -MAX_DATE_MS <= ms <= MAX_DATE_MS
  }

  /** What the handshake takes from its surroundings: the two verifiers, given the time in
      milliseconds, the challenge an assertion names, and the text form of a date. */
  datatype Env = Env(
    checkCert: (CertEnvelope, int) -> CertResult,
    checkSession: (Json, int) -> SessionResult,
    challengeOf: Json -> string,
    iso: int -> string)

  /** The environment of a server with this key. */
  function ServerEnv(p: Platform, serverPubKey: Bytes, iso: int -> string): Env {
    Env((e, nowMs) => VerifyClientCert(p, e, None, nowMs / 1000, CLOCK_SKEW_SEC),
        (a, nowMs) =>
          if IsSessionAssertion(a) then VerifySessionAssertion(p, a, CompleteOptions(a, serverPubKey, nowMs))
          else SessionThrew,
        a => TextAt(MembersOf(a), "challenge"),
        iso)
  }

  function CompleteOptions(a: Json, serverPubKey: Bytes, nowMs: int): SessionOptions {
    SessionOptions(serverPubKey, TextAt(MembersOf(a), "challenge"), SESSION_MAX_AGE_MS, nowMs, nowMs / 1000,
                   CLOCK_SKEW_SEC)
  }

  function RowFor(env: Env, user: UserRow, c: CertPayload, nowMs: int): ClientRow {
    ClientRow(c.clientId, user.id, c.clientPubKey, c.clientEncPubKey, c.deviceName, env.iso(c.exp * 1000),
              env.iso(nowMs), false)
  }

  // ----- one call at a time -----

  function Begin(env: Env, s: AuthState, cert: CertEnvelope, random: Bytes, nowMs: int): (AuthState, Reply) {
    match env.checkCert(cert, nowMs)
    case CertThrew => (s, Crashed)
    case CertErr(e) => (s, Refused(400, BadCert(e)))
    case CertOk(c) =>
      if c.userPubKey !in s.users then (s, Refused(403, UserNotRegistered))
      else if Revoked(s.clients, c.clientId) then (s, Refused(403, ClientRevoked))
      else (s.(challenges := s.challenges[HexEncode(random) := nowMs]), Begun(HexEncode(random), c))
  }

  function Complete(env: Env, s: AuthState, a: Json, nowMs: int): (AuthState, Reply) {
    match env.checkSession(a, nowMs)
    case SessionThrew => (s, Crashed)
    case SessionErr(e) => (s, Refused(401, BadSession(e)))
    case SessionOk(c) =>
      if env.challengeOf(a) !in s.challenges then (s, Refused(401, ChallengeUnknownOrConsumed))
      else
        var s' := s.(challenges := s.challenges - {env.challengeOf(a)});
        if c.userPubKey !in s.users then (s', Refused(403, UserNotRegistered))
        else if Revoked(s.clients, c.clientId) then (s', Refused(403, ClientRevoked))
        else if !IsDate(c.exp * 1000) then (s', Crashed)
        else
          var user := s.users[c.userPubKey];
          (s'.(clients := s.clients[c.clientId := RowFor(env, user, c, nowMs)]), Completed(user.id, c))
  }

  method BeginChallenge(env: Env, cert: CertEnvelope, challengeStore: SessionChallengeStore,
                        userStore: IdentityUserStore, clientStore: IdentityClientStore, random: Bytes, nowMs: int)
    returns (r: Reply)
    requires |random| == CHALLENGE_BYTES
    modifies challengeStore
    ensures var before := AuthState(old(challengeStore.rows), clientStore.rows, userStore.rowsByPub.at);
            (before.(challenges := challengeStore.rows), r) == Begin(env, before, cert, random, nowMs)
  {
    var certResult := env.checkCert(cert, nowMs);
    match certResult {
      case CertThrew => return Crashed;
      case CertErr(e) => return Refused(400, BadCert(e));
      case CertOk(c) =>
        var user := userStore.GetByPublicKey(c.userPubKey);
        if user.None? {
          return Refused(403, UserNotRegistered);
        }
        var revoked := clientStore.IsRevoked(c.clientId);
        if revoked {
          return Refused(403, ClientRevoked);
        }
        var challenge := challengeStore.Create(random, nowMs);
        return Begun(challenge, c);
    }
  }

  method CompleteChallenge(env: Env, a: Json, challengeStore: SessionChallengeStore, userStore: IdentityUserStore,
                           clientStore: IdentityClientStore, nowMs: int) returns (r: Reply)
    modifies challengeStore, clientStore
    ensures var before := AuthState(old(challengeStore.rows), old(clientStore.rows), userStore.rowsByPub.at);
            (AuthState(challengeStore.rows, clientStore.rows, userStore.rowsByPub.at), r) ==
            Complete(env, before, a, nowMs)
  {
    var result := env.checkSession(a, nowMs);
    match result {
      case SessionThrew => return Crashed;
      case SessionErr(e) => return Refused(401, BadSession(e));
      case SessionOk(c) =>
        var consumed := challengeStore.Consume(env.challengeOf(a));
        if consumed.None? {
          assert challengeStore.rows == old(challengeStore.rows);
          return Refused(401, ChallengeUnknownOrConsumed);
        }
        var user := userStore.GetByPublicKey(c.userPubKey);
        if user.None? {
          return Refused(403, UserNotRegistered);
        }
        var revoked := clientStore.IsRevoked(c.clientId);
        if revoked {
          return Refused(403, ClientRevoked);
        }
        if !IsDate(c.exp * 1000) {
          return Crashed;
        }
        clientStore.Upsert(RowFor(env, user.value, c, nowMs));
        return Completed(user.value.id, c);
    }
  }

  // ----- calls that end in an exception -----

  /** A completion throws exactly when its assertion makes the verifier throw, or when everything up to the
      write passes and the certificate's expiry is no date; in the second case its challenge is gone. */
  lemma CompletionCrashesExactly(env: Env, s: AuthState, a: Json, nowMs: int)
    ensures var (s', r) := Complete(env, s, a, nowMs);
      r == Crashed <==>
        || env.checkSession(a, nowMs) == SessionThrew
        || (ReachesTheWrite(env, s, a, nowMs) && !IsDate(env.checkSession(a, nowMs).cert.exp * 1000))
    ensures ReachesTheWrite(env, s, a, nowMs) ==> env.challengeOf(a) !in Complete(env, s, a, nowMs).0.challenges
  {
  }

  /** A verified assertion over a live challenge, by an unrevoked client of a registered user. */
  predicate ReachesTheWrite(env: Env, s: AuthState, a: Json, nowMs: int) {
    var v := env.checkSession(a, nowMs);
    && v.SessionOk? && env.challengeOf(a) in s.challenges
    && v.cert.userPubKey in s.users && !Revoked(s.clients, v.cert.clientId)
  }

  /** Where a begin should refuse a malformed certificate signature it throws, and nothing changes. */
  lemma BeginCrashesExactly(p: Platform, serverPubKey: Bytes, iso: int -> string, s: AuthState, e: CertEnvelope,
                            random: Bytes, nowMs: int)
    ensures Begin(ServerEnv(p, serverPubKey, iso), s, e, random, nowMs).1 == Crashed <==>
            ReadCert(p, e.payload).Ok? && B.Decode(e.sig).None?
    ensures Begin(ServerEnv(p, serverPubKey, iso), s, e, random, nowMs).1 == Crashed ==>
            Begin(ServerEnv(p, serverPubKey, iso), s, e, random, nowMs).0 == s
  {
    CertThrowsExactly(p, e, None, nowMs / 1000, CLOCK_SKEW_SEC);
    BeginCrashes(ServerEnv(p, serverPubKey, iso), s, e, random, nowMs);
    EnvChecksCert(p, serverPubKey, iso, e, nowMs);
  }

  lemma BeginCrashes(env: Env, s: AuthState, e: CertEnvelope, random: Bytes, nowMs: int)
    ensures Begin(env, s, e, random, nowMs).1 == Crashed <==> env.checkCert(e, nowMs) == CertThrew
    ensures Begin(env, s, e, random, nowMs).1 == Crashed ==> Begin(env, s, e, random, nowMs).0 == s
  {
  }

  /** A signature of one base64url character passes the wire schema and encodes no bytes. */
  lemma LoneSymbol()
    ensures B.IsBase64Url("A") && B.Decode("A") == None
  {
  }

  /** A genuine certificate whose signature was replaced by one the wire schema still accepts: begin ends
      in an exception. */
  lemma MalformedSignatureCrashes(p: Platform, serverPubKey: Bytes, iso: int -> string, s: AuthState, c: CertPayload,
                                  masterPrivKey: Bytes, random: Bytes, nowMs: int)
    requires ValidCert(c)
    ensures B.IsBase64Url("A")
    ensures var altered := BuildClientCert(p, c, masterPrivKey).(sig := "A");
            Begin(ServerEnv(p, serverPubKey, iso), s, altered, random, nowMs) == (s, Crashed)
  {
    LoneSymbol();
    BuiltCertReads(p, c, masterPrivKey);
    BeginCrashesExactly(p, serverPubKey, iso, s, BuildClientCert(p, c, masterPrivKey).(sig := "A"), random, nowMs);
  }

  /** One second past the last date: a client that does everything right loses its challenge to an
      exception. */
  lemma UndatableCompletion(p: Platform, serverPubKey: Bytes, iso: int -> string, s: AuthState, c: CertPayload,
                            masterPrivKey: Bytes, clientPrivKey: Bytes, challenge: string, ts: int, t: Json, nowMs: int)
    requires Lawful(p) && ValidCert(c) && |serverPubKey| == KEY_LENGTH && c.exp == 8_640_000_000_001
    requires c.userPubKey == HexEncode(p.edPub(masterPrivKey)) && c.clientPubKey == HexEncode(p.edPub(clientPrivKey))
    requires c.iat - 60 <= nowMs / 1000 <= c.exp + 60 && nowMs - ts <= 300_000
    requires WellFormed(t) && Jcs.SameContent(
               t, BuildSessionAssertion(p, BuildClientCert(p, c, masterPrivKey), challenge, serverPubKey, clientPrivKey,
                                        ts))
    requires challenge in s.challenges && c.userPubKey in s.users && !Revoked(s.clients, c.clientId)
    ensures Complete(ServerEnv(p, serverPubKey, iso), s, t, nowMs) ==
            (s.(challenges := s.challenges - {challenge}), Crashed)
  {
    ServerVerdict(p, serverPubKey, iso, c, masterPrivKey, clientPrivKey, challenge, serverPubKey, ts, t, nowMs);
    UndatableOver(ServerEnv(p, serverPubKey, iso), s, t, c, nowMs);
  }

  lemma UndatableOver(env: Env, s: AuthState, t: Json, c: CertPayload, nowMs: int)
    requires env.checkSession(t, nowMs) == SessionOk(c) && !IsDate(c.exp * 1000)
    requires env.challengeOf(t) in s.challenges && c.userPubKey in s.users && !Revoked(s.clients, c.clientId)
    ensures Complete(env, s, t, nowMs) == (s.(challenges := s.challenges - {env.challengeOf(t)}), Crashed)
  {
  }

  // ----- what a completion stores -----

  /** The row of a client that has just completed: its certificate's keys and device, its user, and the
      two dates. */
  ghost predicate RowOf(row: ClientRow, c: CertPayload, userId: string, iso: int -> string, nowMs: int) {
    && row.clientId == c.clientId && row.userId == userId && row.deviceName == c.deviceName
    && row.clientPubKey == c.clientPubKey && row.clientEncPubKey == c.clientEncPubKey
    && row.certExpiresAt == iso(c.exp * 1000) && row.lastSeenAt == iso(nowMs) && !row.revoked
  }

  /** A completion consumes its challenge, files the client under its id with the registered user's id, and
      touches no other client and no user. */
  lemma CompletedStoresTheClient(env: Env, s: AuthState, a: Json, nowMs: int)
    requires Complete(env, s, a, nowMs).1.Completed?
    ensures var (s', r) := Complete(env, s, a, nowMs);
      && env.checkSession(a, nowMs) == SessionOk(r.cert) && env.challengeOf(a) in s.challenges
      && r.cert.userPubKey in s.users && r.userId == s.users[r.cert.userPubKey].id
      && r.cert.clientId in s'.clients && RowOf(s'.clients[r.cert.clientId], r.cert, r.userId, env.iso, nowMs)
      && s'.clients - {r.cert.clientId} == s.clients - {r.cert.clientId}
      && s'.users == s.users && s'.challenges == s.challenges - {env.challengeOf(a)}
  {
  }

  ghost predicate SignedUnder(p: Platform, parts: Parts, pubKeyHex: string) {
    && B.Decode(parts.sig).Some? && HexDecode(pubKeyHex).Some?
    && p.verify(parts.canonical, B.Decode(parts.sig).value, HexDecode(pubKeyHex).value)
  }

  /** The key a server stores for a client is the one that signed the session it accepted, over the challenge
      it consumed, for this server, within the last five minutes. */
  lemma StoredKeySignedTheSession(p: Platform, serverPubKey: Bytes, iso: int -> string, s: AuthState, a: Json,
                                  nowMs: int)
    requires IsSessionAssertion(a) && Complete(ServerEnv(p, serverPubKey, iso), s, a, nowMs).1.Completed?
    ensures var (s', r) := Complete(ServerEnv(p, serverPubKey, iso), s, a, nowMs);
            var parts := PartsOf(a);
      && r.cert.clientId in s'.clients
      && SignedUnder(p, parts, s'.clients[r.cert.clientId].clientPubKey)
      && parts.challenge in s.challenges && parts.challenge !in s'.challenges
      && parts.serverId == HexEncode(serverPubKey) && nowMs - parts.ts <= 300_000
  {
    var env := ServerEnv(p, serverPubKey, iso);
    CompletedStoresTheClient(env, s, a, nowMs);
    var certBytes := AcceptedSessionIsSigned(p, a, CompleteOptions(a, serverPubKey, nowMs));
  }

  // ----- the honest handshake -----

  /** What a genuine certificate gets: a challenge, or the first reason against it. */
  lemma HonestBeginExactly(p: Platform, serverPubKey: Bytes, iso: int -> string, s: AuthState, c: CertPayload,
                           masterPrivKey: Bytes, random: Bytes, nowMs: int)
    requires Lawful(p) && ValidCert(c) && c.userPubKey == HexEncode(p.edPub(masterPrivKey))
    ensures Begin(ServerEnv(p, serverPubKey, iso), s, BuildClientCert(p, c, masterPrivKey), random, nowMs) ==
      if nowMs / 1000 < c.iat - 60 then (s, Refused(400, BadCert(NotYetValid)))
      else if nowMs / 1000 > c.exp + 60 then (s, Refused(400, BadCert(Expired)))
      else if c.userPubKey !in s.users then (s, Refused(403, UserNotRegistered))
      else if c.clientId in s.clients && s.clients[c.clientId].revoked then (s, Refused(403, ClientRevoked))
      else (s.(challenges := s.challenges[HexEncode(random) := nowMs]), Begun(HexEncode(random), c))
  {
    ServerVerdictOnCert(p, serverPubKey, iso, c, masterPrivKey, nowMs);
    BeginOver(ServerEnv(p, serverPubKey, iso), s, BuildClientCert(p, c, masterPrivKey), c, random, nowMs);
  }

  function GenuineVerdict(c: CertPayload, nowMs: int): CertResult {
    if nowMs / 1000 < c.iat - 60 then CertErr(NotYetValid)
    else if nowMs / 1000 > c.exp + 60 then CertErr(Expired)
    else CertOk(c)
  }

  lemma ServerVerdictOnCert(p: Platform, serverPubKey: Bytes, iso: int -> string, c: CertPayload, masterPrivKey: Bytes,
                            nowMs: int)
    requires Lawful(p) && ValidCert(c) && c.userPubKey == HexEncode(p.edPub(masterPrivKey))
    ensures ServerEnv(p, serverPubKey, iso).checkCert(BuildClientCert(p, c, masterPrivKey), nowMs) ==
            GenuineVerdict(c, nowMs)
  {
    EnvChecksCert(p, serverPubKey, iso, BuildClientCert(p, c, masterPrivKey), nowMs);
    VerdictOnCert(p, c, masterPrivKey, nowMs);
  }

  lemma EnvChecksCert(p: Platform, serverPubKey: Bytes, iso: int -> string, e: CertEnvelope, nowMs: int)
    ensures ServerEnv(p, serverPubKey, iso).checkCert(e, nowMs) == VerifyClientCert(p, e, None, nowMs / 1000, 60)
  {
  }

  lemma VerdictOnCert(p: Platform, c: CertPayload, masterPrivKey: Bytes, nowMs: int)
    requires Lawful(p) && ValidCert(c) && c.userPubKey == HexEncode(p.edPub(masterPrivKey))
    ensures VerifyClientCert(p, BuildClientCert(p, c, masterPrivKey), None, nowMs / 1000, 60) ==
            GenuineVerdict(c, nowMs)
  {
    BuiltCertVerifies(p, c, masterPrivKey, None, nowMs / 1000, 60);
  }

  lemma BeginOver(env: Env, s: AuthState, e: CertEnvelope, c: CertPayload, random: Bytes, nowMs: int)
    requires env.checkCert(e, nowMs) == GenuineVerdict(c, nowMs)
    ensures Begin(env, s, e, random, nowMs) ==
      if nowMs / 1000 < c.iat - 60 then (s, Refused(400, BadCert(NotYetValid)))
      else if nowMs / 1000 > c.exp + 60 then (s, Refused(400, BadCert(Expired)))
      else if c.userPubKey !in s.users then (s, Refused(403, UserNotRegistered))
      else if c.clientId in s.clients && s.clients[c.clientId].revoked then (s, Refused(403, ClientRevoked))
      else (s.(challenges := s.challenges[HexEncode(random) := nowMs]), Begun(HexEncode(random), c))
  {
  }

  /** What the server makes of an assertion the client built for some challenge and some server. */
  lemma ServerVerdict(p: Platform, serverPubKey: Bytes, iso: int -> string, c: CertPayload, masterPrivKey: Bytes,
                      clientPrivKey: Bytes, challenge: string, named: Bytes, ts: int, t: Json, nowMs: int)
    requires Lawful(p) && ValidCert(c) && |serverPubKey| == |named| == KEY_LENGTH
    requires c.userPubKey == HexEncode(p.edPub(masterPrivKey)) && c.clientPubKey == HexEncode(p.edPub(clientPrivKey))
    requires WellFormed(t) && Jcs.SameContent(
               t, BuildSessionAssertion(p, BuildClientCert(p, c, masterPrivKey), challenge, named, clientPrivKey, ts))
    ensures var env := ServerEnv(p, serverPubKey, iso);
      && env.challengeOf(t) == challenge
      && env.checkSession(t, nowMs) ==
           if !(c.iat - 60 <= nowMs / 1000 <= c.exp + 60) then SessionErr(CertInvalid)
           else if named != serverPubKey then SessionErr(WrongServer)
           else if nowMs - ts > 300_000 then SessionErr(StaleAssertion)
           else SessionOk(c)
  {
    BuiltSessionParts(p, BuildClientCert(p, c, masterPrivKey), challenge, named, clientPrivKey, ts, t);
    Names(t);
    BuiltSessionVerifiesExactly(p, c, masterPrivKey, clientPrivKey, challenge, named, ts, t,
                                CompleteOptions(t, serverPubKey, nowMs));
    VerdictOver(p, serverPubKey, iso, c, challenge, named, ts, t, nowMs);
  }

  lemma Names(t: Json)
    requires IsSessionAssertion(t)
    ensures TextAt(MembersOf(t), "challenge") == PartsOf(t).challenge
  {
  }

  lemma VerdictOver(p: Platform, serverPubKey: Bytes, iso: int -> string, c: CertPayload, challenge: string,
                    named: Bytes, ts: int, t: Json, nowMs: int)
    requires IsSessionAssertion(t) && TextAt(MembersOf(t), "challenge") == challenge
    requires VerifySessionAssertion(p, t, CompleteOptions(t, serverPubKey, nowMs)) ==
             ExpectedOutcome(c, challenge, named, ts, CompleteOptions(t, serverPubKey, nowMs))
    ensures var env := ServerEnv(p, serverPubKey, iso);
      && env.challengeOf(t) == challenge
      && env.checkSession(t, nowMs) ==
           if !(c.iat - 60 <= nowMs / 1000 <= c.exp + 60) then SessionErr(CertInvalid)
           else if named != serverPubKey then SessionErr(WrongServer)
           else if nowMs - ts > 300_000 then SessionErr(StaleAssertion)
           else SessionOk(c)
  {
  }

  /** What a genuine assertion gets, whatever order transport gives its members: the first reason against
      it, before its challenge is consumed or after, or success. */
  lemma HonestCompleteExactly(p: Platform, serverPubKey: Bytes, iso: int -> string, s: AuthState, c: CertPayload,
                              masterPrivKey: Bytes, clientPrivKey: Bytes, challenge: string, named: Bytes, ts: int,
                              t: Json, nowMs: int)
    requires Lawful(p) && ValidCert(c) && |serverPubKey| == |named| == KEY_LENGTH
    requires c.userPubKey == HexEncode(p.edPub(masterPrivKey)) && c.clientPubKey == HexEncode(p.edPub(clientPrivKey))
    requires WellFormed(t) && Jcs.SameContent(
               t, BuildSessionAssertion(p, BuildClientCert(p, c, masterPrivKey), challenge, named, clientPrivKey, ts))
    ensures var (s', r) := Complete(ServerEnv(p, serverPubKey, iso), s, t, nowMs);
            var consumed := s.(challenges := s.challenges - {challenge});
      if !(c.iat - 60 <= nowMs / 1000 <= c.exp + 60) then (s', r) == (s, Refused(401, BadSession(CertInvalid)))
      else if named != serverPubKey then (s', r) == (s, Refused(401, BadSession(WrongServer)))
      else if nowMs - ts > 300_000 then (s', r) == (s, Refused(401, BadSession(StaleAssertion)))
      else if challenge !in s.challenges then (s', r) == (s, Refused(401, ChallengeUnknownOrConsumed))
      else if c.userPubKey !in s.users then (s', r) == (consumed, Refused(403, UserNotRegistered))
      else if c.clientId in s.clients && s.clients[c.clientId].revoked then
        (s', r) == (consumed, Refused(403, ClientRevoked))
      else if !(-8_640_000_000_000_000 <= c.exp * 1000 <= 8_640_000_000_000_000) then (s', r) == (consumed, Crashed)
      else r == Completed(s.users[c.userPubKey].id, c)
  {
    ServerVerdict(p, serverPubKey, iso, c, masterPrivKey, clientPrivKey, challenge, named, ts, t, nowMs);
    CompleteOver(ServerEnv(p, serverPubKey, iso), s, t, nowMs);
  }

  lemma CompleteOver(env: Env, s: AuthState, t: Json, nowMs: int)
    ensures var (s', r) := Complete(env, s, t, nowMs);
            var consumed := s.(challenges := s.challenges - {env.challengeOf(t)});
      match env.checkSession(t, nowMs)
      case SessionThrew => (s', r) == (s, Crashed)
      case SessionErr(e) => (s', r) == (s, Refused(401, BadSession(e)))
      case SessionOk(c) =>
        if env.challengeOf(t) !in s.challenges then (s', r) == (s, Refused(401, ChallengeUnknownOrConsumed))
        else if c.userPubKey !in s.users then (s', r) == (consumed, Refused(403, UserNotRegistered))
        else if c.clientId in s.clients && s.clients[c.clientId].revoked then
          (s', r) == (consumed, Refused(403, ClientRevoked))
        else if !(-8_640_000_000_000_000 <= c.exp * 1000 <= 8_640_000_000_000_000) then (s', r) == (consumed, Crashed)
        else r == Completed(s.users[c.userPubKey].id, c)
  {
  }

  /** A registered client in its validity window begins, signs the challenge it was given, and
      completes at the same server within five minutes: accepted exactly once, whatever order
      transport gives the assertion's members, and from then on known by the keys it signed with. */
  lemma HonestHandshake(p: Platform, serverPubKey: Bytes, iso: int -> string, s: AuthState, c: CertPayload,
                        masterPrivKey: Bytes, clientPrivKey: Bytes, random: Bytes, beginMs: int, ts: int, t: Json,
                        completeMs: int)
    requires Lawful(p) && ValidCert(c) && |serverPubKey| == KEY_LENGTH && |random| == CHALLENGE_BYTES
    requires c.userPubKey == HexEncode(p.edPub(masterPrivKey)) && c.clientPubKey == HexEncode(p.edPub(clientPrivKey))
    requires c.userPubKey in s.users && !Revoked(s.clients, c.clientId) && IsDate(c.exp * 1000)
    requires c.iat - 60 <= beginMs / 1000 <= completeMs / 1000 <= c.exp + 60 && completeMs - ts <= 300_000
    requires WellFormed(t) && Jcs.SameContent(
               t, BuildSessionAssertion(p, BuildClientCert(p, c, masterPrivKey), HexEncode(random), serverPubKey,
                                        clientPrivKey, ts))
    ensures var env := ServerEnv(p, serverPubKey, iso);
            var (s1, begun) := Begin(env, s, BuildClientCert(p, c, masterPrivKey), random, beginMs);
            var (s2, completed) := Complete(env, s1, t, completeMs);
      && begun == Begun(HexEncode(random), c)
      && completed == Completed(s.users[c.userPubKey].id, c)
      && c.clientId in s2.clients
      && RowOf(s2.clients[c.clientId], c, s.users[c.userPubKey].id, iso, completeMs)
      && s2.clients[c.clientId].clientPubKey == HexEncode(p.edPub(clientPrivKey))
      && Complete(env, s2, t, completeMs) == (s2, Refused(401, ChallengeUnknownOrConsumed))
  {
    var env, e := ServerEnv(p, serverPubKey, iso), BuildClientCert(p, c, masterPrivKey);
    ServerVerdictOnCert(p, serverPubKey, iso, c, masterPrivKey, beginMs);
    ServerVerdict(p, serverPubKey, iso, c, masterPrivKey, clientPrivKey, HexEncode(random), serverPubKey, ts, t,
                  completeMs);
    HandshakeOver(env, s, e, c, random, beginMs, t, completeMs);
  }

  lemma HandshakeOver(env: Env, s: AuthState, e: CertEnvelope, c: CertPayload, random: Bytes, beginMs: int, t: Json,
                      completeMs: int)
    requires env.checkCert(e, beginMs) == CertOk(c) && env.checkSession(t, completeMs) == SessionOk(c)
    requires env.challengeOf(t) == HexEncode(random)
    requires c.userPubKey in s.users && !Revoked(s.clients, c.clientId) && IsDate(c.exp * 1000)
    ensures var (s1, begun) := Begin(env, s, e, random, beginMs);
            var (s2, completed) := Complete(env, s1, t, completeMs);
      && begun == Begun(HexEncode(random), c)
      && completed == Completed(s.users[c.userPubKey].id, c)
      && c.clientId in s2.clients
      && RowOf(s2.clients[c.clientId], c, s.users[c.userPubKey].id, env.iso, completeMs)
      && Complete(env, s2, t, completeMs) == (s2, Refused(401, ChallengeUnknownOrConsumed))
  {
  }

  // ----- runs of whole calls -----

  datatype Request =
    | BeginRequest(cert: CertEnvelope, random: Bytes)
    | CompleteRequest(assertion: Json)
    | RevokeRequest(clientId: string)
    | ExpireChallenge(challenge: string)
    | SeedUser(user: UserRow)

  function Serve(env: Env, s: AuthState, q: Request, nowMs: int): (AuthState, Option<Reply>) {
    match q
    case BeginRequest(cert, random) => var (s', r) := Begin(env, s, cert, random, nowMs); (s', Some(r))
    case CompleteRequest(a) => var (s', r) := Complete(env, s, a, nowMs); (s', Some(r))
    case RevokeRequest(id) => (s.(clients := WithRevoked(s.clients, id)), None)
    case ExpireChallenge(ch) => (s.(challenges := s.challenges - {ch}), None)
    case SeedUser(u) => (s.(users := WithUser(s.users, u)), None)
  }

  function ServeAll(env: Env, s: AuthState, qs: seq<(Request, int)>): (AuthState, seq<Option<Reply>>) {
    if qs == [] then (s, [])
    else
      var (s1, rs) := ServeAll(env, s, qs[..|qs| - 1]);
      var (s2, r) := Serve(env, s1, qs[|qs| - 1].0, qs[|qs| - 1].1);
      (s2, rs + [r])
  }

  predicate SucceedsFor(r: Option<Reply>, clientId: string) {
    match r
    case Some(Begun(_, c)) => c.clientId == clientId
    case Some(Completed(_, c)) => c.clientId == clientId
    case _ => false
  }

  /** When calls do not overlap: once a client is revoked, no call for it succeeds and no call
      clears the flag, whatever follows. */
  lemma {:induction false} RevocationIsFinal(env: Env, s: AuthState, clientId: string, qs: seq<(Request, int)>)
    requires Revoked(s.clients, clientId)
    ensures Revoked(ServeAll(env, s, qs).0.clients, clientId)
    ensures var rs := ServeAll(env, s, qs).1;
      |rs| == |qs| && forall i :: 0 <= i < |rs| ==> !SucceedsFor(rs[i], clientId)
  {
    if qs != [] {
      RevocationIsFinal(env, s, clientId, qs[..|qs| - 1]);
    }
  }

  /** Revoking works exactly on clients the store knows. */
  lemma RevokeExactly(env: Env, s: AuthState, clientId: string, nowMs: int)
    ensures Revoked(Serve(env, s, RevokeRequest(clientId), nowMs).0.clients, clientId) <==> clientId in s.clients
    ensures clientId !in s.clients ==> Serve(env, s, RevokeRequest(clientId), nowMs).0 == s
  {
  }
}
