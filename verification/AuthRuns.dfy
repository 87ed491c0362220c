/** Overlapping handshake calls.  A call runs without interruption up to the store operation it awaits,
    so it is a program counter that advances one store operation at a time, and anything may happen
    in between: other calls, expiring challenges, revocations, new users. */
module AuthRuns {
  import opened Options
  import opened Text
  import Json
  import Schemas
  import Sessions
  import opened AuthStores
  import opened CertAuth

  /** Where a call stands, and what the store operation it awaits has answered. */
  datatype Call =
    | BeginLookedUp(cert: Schemas.CertPayload, user: Option<UserRow>)
    | BeginAsked(cert: Schemas.CertPayload, revoked: bool)
    | BeginCreated(cert: Schemas.CertPayload, issued: string)
    | CompleteTook(cert: Schemas.CertPayload, challenge: string, row: Option<int>)
    | CompleteLookedUp(cert: Schemas.CertPayload, challenge: string, user: Option<UserRow>)
    | CompleteAsked(cert: Schemas.CertPayload, challenge: string, owner: UserRow, revoked: bool)
    | CompleteStored(cert: Schemas.CertPayload, challenge: string, owner: UserRow)
    | BeginDone(reply: Reply)
    | CompleteDone(challenge: string, reply: Reply)

  datatype System = System(s: AuthState, calls: seq<Call>)

  datatype Action =
    | StartBegin(envelope: Sessions.CertEnvelope)
    | StartComplete(assertion: Json.Json)
    | Advance(i: nat, random: Bytes)
    | Expire(expired: string)
    | Revoke(clientId: string)
    | Seed(row: UserRow)

  /** The part of `beginChallenge` up to its first await. */
  function OpenBegin(env: Env, s: AuthState, e: Sessions.CertEnvelope, nowMs: int): Call {
    match env.checkCert(e, nowMs)
    case CertThrew => BeginDone(Crashed)
    case CertErr(error) => BeginDone(Refused(400, BadCert(error)))
    case CertOk(c) => BeginLookedUp(c, Find(s.users, c.userPubKey))
  }

  /** The part of `completeChallenge` up to its first await: verify, then take the challenge. */
  function OpenComplete(env: Env, s: AuthState, a: Json.Json, nowMs: int): (AuthState, Call) {
    var ch := env.challengeOf(a);
    match env.checkSession(a, nowMs)
    case SessionThrew => (s, CompleteDone(ch, Crashed))
    case SessionErr(error) => (s, CompleteDone(ch, Refused(401, BadSession(error))))
    case SessionOk(c) => (s.(challenges := s.challenges - {ch}), CompleteTook(c, ch, Find(s.challenges, ch)))
  }

  /** One await further. */
  function Resume(env: Env, s: AuthState, call: Call, random: Bytes, nowMs: int): (AuthState, Call) {
    match call
    case BeginLookedUp(c, user) =>
      (s, if user.None? then BeginDone(Refused(403, UserNotRegistered))
          else BeginAsked(c, Revoked(s.clients, c.clientId)))
    case BeginAsked(c, revoked) =>
      if revoked then (s, BeginDone(Refused(403, ClientRevoked)))
      else (s.(challenges := s.challenges[HexEncode(random) := nowMs]), BeginCreated(c, HexEncode(random)))
    case BeginCreated(c, issued) => (s, BeginDone(Begun(issued, c)))
    case CompleteTook(c, ch, row) =>
      (s, if row.None? then CompleteDone(ch, Refused(401, ChallengeUnknownOrConsumed))
          else CompleteLookedUp(c, ch, Find(s.users, c.userPubKey)))
    case CompleteLookedUp(c, ch, user) =>
      (s, match user
          case None => CompleteDone(ch, Refused(403, UserNotRegistered))
          case Some(owner) => CompleteAsked(c, ch, owner, Revoked(s.clients, c.clientId)))
    case CompleteAsked(c, ch, owner, revoked) =>
      if revoked then (s, CompleteDone(ch, Refused(403, ClientRevoked)))
      else if !IsDate(c.exp * 1000) then (s, CompleteDone(ch, Crashed))
      else (s.(clients := s.clients[c.clientId := RowFor(env, owner, c, nowMs)]), CompleteStored(c, ch, owner))
    case CompleteStored(c, ch, owner) => (s, CompleteDone(ch, Completed(owner.id, c)))
    case _ => (s, call)
  }

  function Step(env: Env, y: System, a: Action, nowMs: int): System {
    match a
    case StartBegin(e) => y.(calls := y.calls + [OpenBegin(env, y.s, e, nowMs)])
    case StartComplete(t) =>
      var (s, call) := OpenComplete(env, y.s, t, nowMs);
      System(s, y.calls + [call])
    case Advance(i, random) =>
      if i < |y.calls| then
        var (s, call) := Resume(env, y.s, y.calls[i], random, nowMs);
        System(s, y.calls[i := call])
      else y
    case Expire(ch) => y.(s := y.s.(challenges := y.s.challenges - {ch}))
    case Revoke(id) => y.(s := y.s.(clients := WithRevoked(y.s.clients, id)))
    case Seed(row) => y.(s := y.s.(users := WithUser(y.s.users, row)))
  }

  function Steps(env: Env, y: System, acts: seq<(Action, int)>): System {
    if acts == [] then y
    else
      var n := |acts| - 1;
      Step(env, Steps(env, y, acts[..n]), acts[n].0, acts[n].1)
  }

  // ----- a call that is not interrupted is the call of CertAuth -----

  function FinalReply(call: Call): Option<Reply> {
    match call
    case BeginDone(r) => Some(r)
    case CompleteDone(_, r) => Some(r)
    case _ => None
  }

  function ResumeTimes(env: Env, s: AuthState, call: Call, random: Bytes, nowMs: int, n: nat): (AuthState, Call)
    decreases n
  {
    if n == 0 then (s, call)
    else
      var (s', call') := Resume(env, s, call, random, nowMs);
      ResumeTimes(env, s', call', random, nowMs, n - 1)
  }

  lemma UninterruptedBeginIsAtomic(env: Env, s: AuthState, e: Sessions.CertEnvelope, random: Bytes, nowMs: int)
    ensures var (s', call) := ResumeTimes(env, s, OpenBegin(env, s, e, nowMs), random, nowMs, 3);
      (s', FinalReply(call)) == (Begin(env, s, e, random, nowMs).0, Some(Begin(env, s, e, random, nowMs).1))
  {
  }

  lemma UninterruptedCompleteIsAtomic(env: Env, s: AuthState, a: Json.Json, random: Bytes, nowMs: int)
    ensures var (s1, open1) := OpenComplete(env, s, a, nowMs);
            var (s', call) := ResumeTimes(env, s1, open1, random, nowMs, 4);
      (s', FinalReply(call)) == (Complete(env, s, a, nowMs).0, Some(Complete(env, s, a, nowMs).1))
  {
    assert env.challengeOf(a) !in s.challenges ==> s.challenges - {env.challengeOf(a)} == s.challenges;
  }

  // ----- challenges are single-use -----

  /** The call created this challenge. */
  predicate Issued(call: Call, ch: string) {
    match call
    case BeginCreated(_, issued) => issued == ch
    case BeginDone(Begun(issued, _)) => issued == ch
    case _ => false
  }

  /** The call took this challenge out of the store and has not failed since. */
  predicate Holds(call: Call, ch: string) {
    match call
    case CompleteTook(_, c, row) => c == ch && row.Some?
    case CompleteLookedUp(_, c, _) => c == ch
    case CompleteAsked(_, c, _, _) => c == ch
    case CompleteStored(_, c, _) => c == ch
    case CompleteDone(c, r) => c == ch && r.Completed?
    case _ => false
  }

  predicate Succeeded(call: Call, ch: string) {
    call.CompleteDone? && call.challenge == ch && call.reply.Completed?
  }

  function Count(calls: seq<Call>, p: Call -> bool): nat {
    if calls == [] then 0
    else Count(calls[..|calls| - 1], p) + if p(calls[|calls| - 1]) then 1 else 0
  }

  lemma {:induction false} CountUpdate(calls: seq<Call>, i: nat, call: Call, p: Call -> bool)
    requires i < |calls|
    ensures Count(calls[i := call], p) + (if p(calls[i]) then 1 else 0) == Count(calls, p) + if p(call) then 1 else 0
  {
    var n := |calls| - 1;
    if i == n {
      assert calls[i := call][..n] == calls[..n];
    } else {
      assert calls[i := call][..n] == calls[..n][i := call];
      CountUpdate(calls[..n], i, call, p);
    }
  }

  lemma CountAppend(calls: seq<Call>, call: Call, p: Call -> bool)
    ensures Count(calls + [call], p) == Count(calls, p) + if p(call) then 1 else 0
  {
    assert (calls + [call])[..|calls|] == calls;
  }

  lemma {:induction false} CountImplies(calls: seq<Call>, p: Call -> bool, q: Call -> bool)
    requires forall c :: p(c) ==> q(c)
    ensures Count(calls, p) <= Count(calls, q)
  {
    if calls != [] { CountImplies(calls[..|calls| - 1], p, q); }
  }

  function InStore(s: AuthState, ch: string): nat {
    if ch in s.challenges then 1 else 0
  }

  function Holder(ch: string): Call -> bool { c => Holds(c, ch) }
  function Issuer(ch: string): Call -> bool { c => Issued(c, ch) }
  function Winner(ch: string): Call -> bool { c => Succeeded(c, ch) }

  /** Every token of a challenge, in the store or held by a call, comes from a creation. */
  ghost predicate Covered(y: System, ch: string) {
    Count(y.calls, Holder(ch)) + InStore(y.s, ch) <= Count(y.calls, Issuer(ch))
  }

  function One(b: bool): nat {
    if b then 1 else 0
  }

  lemma ResumeTokens(env: Env, s: AuthState, call: Call, random: Bytes, nowMs: int, ch: string)
    ensures var (s', call') := Resume(env, s, call, random, nowMs);
      One(Holds(call', ch)) + InStore(s', ch) + One(Issued(call, ch)) <=
        One(Holds(call, ch)) + InStore(s, ch) + One(Issued(call', ch))
  {
  }

  lemma OpenTokens(env: Env, s: AuthState, e: Sessions.CertEnvelope, a: Json.Json, nowMs: int, ch: string)
    ensures !Holds(OpenBegin(env, s, e, nowMs), ch)
    ensures var (s', call) := OpenComplete(env, s, a, nowMs);
      One(Holds(call, ch)) + InStore(s', ch) == InStore(s, ch) && !Issued(call, ch)
  {
  }

  lemma AdvanceCovered(y: System, i: nat, s: AuthState, call: Call, ch: string)
    requires Covered(y, ch) && i < |y.calls|
    requires One(Holds(call, ch)) + InStore(s, ch) + One(Issued(y.calls[i], ch)) <=
               One(Holds(y.calls[i], ch)) + InStore(y.s, ch) + One(Issued(call, ch))
    ensures Covered(System(s, y.calls[i := call]), ch)
  {
    CountUpdate(y.calls, i, call, Holder(ch));
    CountUpdate(y.calls, i, call, Issuer(ch));
  }

  lemma AppendCovered(y: System, s: AuthState, call: Call, ch: string)
    requires Covered(y, ch) && One(Holds(call, ch)) + InStore(s, ch) <= InStore(y.s, ch) + One(Issued(call, ch))
    ensures Covered(System(s, y.calls + [call]), ch)
  {
    CountAppend(y.calls, call, Holder(ch));
    CountAppend(y.calls, call, Issuer(ch));
  }

  lemma StepCovered(env: Env, y: System, a: Action, nowMs: int, ch: string)
    requires Covered(y, ch)
    ensures Covered(Step(env, y, a, nowMs), ch)
  {
    match a {
      case StartBegin(e) =>
        OpenTokens(env, y.s, e, Json.Null, nowMs, ch);
        AppendCovered(y, y.s, OpenBegin(env, y.s, e, nowMs), ch);
      case StartComplete(t) =>
        OpenTokens(env, y.s, Sessions.CertEnvelope("", ""), t, nowMs, ch);
        AppendCovered(y, OpenComplete(env, y.s, t, nowMs).0, OpenComplete(env, y.s, t, nowMs).1, ch);
      case Advance(i, random) =>
        if i < |y.calls| {
          var (s, call) := Resume(env, y.s, y.calls[i], random, nowMs);
          ResumeTokens(env, y.s, y.calls[i], random, nowMs, ch);
          AdvanceCovered(y, i, s, call, ch);
        }
      case _ =>
    }
  }

  lemma {:induction false} StepsCovered(env: Env, y: System, acts: seq<(Action, int)>, ch: string)
    requires Covered(y, ch)
    ensures Covered(Steps(env, y, acts), ch)
  {
    if acts != [] {
      var n := |acts| - 1;
      StepsCovered(env, y, acts[..n], ch);
      StepCovered(env, Steps(env, y, acts[..n]), acts[n].0, acts[n].1, ch);
    }
  }

  /** However calls, expiries and revocations interleave: the completions that succeed on a challenge
      are never more than its creations, and while one is unused there is still one to spare. */
  lemma ChallengesAreSingleUse(env: Env, clients: Clients, users: Users, acts: seq<(Action, int)>, ch: string)
    ensures var y := Steps(env, System(AuthState(map[], clients, users), []), acts);
      Count(y.calls, Winner(ch)) + InStore(y.s, ch) <= Count(y.calls, Issuer(ch))
  {
    StepsCovered(env, System(AuthState(map[], clients, users), []), acts, ch);
    CountImplies(Steps(env, System(AuthState(map[], clients, users), []), acts).calls, Winner(ch), Holder(ch));
  }

  /** A challenge leaves the store exactly when its timer fires or an assertion over it verifies;
      a call whose assertion fails verification removes nothing. */
  lemma OnlyVerifiedAssertionsTakeChallenges(env: Env, y: System, a: Action, nowMs: int, ch: string)
    requires ch in y.s.challenges
    ensures ch !in Step(env, y, a, nowMs).s.challenges <==>
            || a == Expire(ch)
            || (&& a.StartComplete? && env.checkSession(a.assertion, nowMs).SessionOk?
                && env.challengeOf(a.assertion) == ch)
  {
  }

  // ----- revocation while calls overlap -----

  /** The call has asked whether the client is revoked, was told no, and will go on to write. */
  predicate PastTheCheck(call: Call, clientId: string) {
    match call
    case BeginAsked(c, revoked) => c.clientId == clientId && !revoked
    case CompleteAsked(c, _, _, revoked) => c.clientId == clientId && !revoked
    case _ => false
  }

  predicate WillStore(call: Call, clientId: string) {
    PastTheCheck(call, clientId) && call.CompleteAsked? && IsDate(call.cert.exp * 1000)
  }

  /** The call has already had its effect for this client. */
  predicate Through(call: Call, clientId: string) {
    match call
    case BeginCreated(c, _) => c.clientId == clientId
    case CompleteStored(c, _, _) => c.clientId == clientId
    case BeginDone(r) => SucceedsFor(Some(r), clientId)
    case CompleteDone(_, r) => SucceedsFor(Some(r), clientId)
    case _ => false
  }

  ghost predicate NoneWillStore(y: System, clientId: string) {
    forall i :: 0 <= i < |y.calls| ==> !WillStore(y.calls[i], clientId)
  }

  lemma StepKeepsRevoked(env: Env, y: System, a: Action, nowMs: int, clientId: string)
    requires Revoked(y.s.clients, clientId) && NoneWillStore(y, clientId)
    ensures Revoked(Step(env, y, a, nowMs).s.clients, clientId) && NoneWillStore(Step(env, y, a, nowMs), clientId)
  {
    if a.Advance? && a.i < |y.calls| {
      assert !WillStore(y.calls[a.i], clientId);
    }
  }

  lemma {:induction false} StepsKeepRevoked(env: Env, y: System, acts: seq<(Action, int)>, clientId: string)
    requires Revoked(y.s.clients, clientId) && NoneWillStore(y, clientId)
    ensures Revoked(Steps(env, y, acts).s.clients, clientId) && NoneWillStore(Steps(env, y, acts), clientId)
  {
    if acts != [] {
      var n := |acts| - 1;
      StepsKeepRevoked(env, y, acts[..n], clientId);
      StepKeepsRevoked(env, Steps(env, y, acts[..n]), acts[n].0, acts[n].1, clientId);
    }
  }

  ghost predicate StaysRevoked(env: Env, y: System, clientId: string) {
    forall acts: seq<(Action, int)> :: Revoked(Steps(env, y, acts).s.clients, clientId)
  }

  /** A revocation survives every continuation exactly when, at that moment, no completion for the
      client stands between its revocation check and its write. */
  lemma RevocationSticksExactly(env: Env, y: System, clientId: string)
    requires Revoked(y.s.clients, clientId)
    ensures StaysRevoked(env, y, clientId) <==> NoneWillStore(y, clientId)
  {
    if NoneWillStore(y, clientId) {
      forall acts: seq<(Action, int)> ensures Revoked(Steps(env, y, acts).s.clients, clientId) {
        StepsKeepRevoked(env, y, acts, clientId);
      }
    } else {
      var i :| 0 <= i < |y.calls| && WillStore(y.calls[i], clientId);
      var acts := [(Advance(i, []), 0)];
      assert Steps(env, y, acts[..0]) == y;
      assert Steps(env, y, acts) == Step(env, y, Advance(i, []), 0);
      assert !Revoked(Steps(env, y, acts).s.clients, clientId);
    }
  }

  /** Such a moment occurs in every otherwise successful completion by a client the store knows: a
      revocation landing there is overwritten. */
  lemma RevocationCanBeLost(env: Env, s: AuthState, a: Json.Json, c: Schemas.CertPayload, nowMs: int)
    requires env.checkSession(a, nowMs) == Sessions.SessionOk(c) && env.challengeOf(a) in s.challenges
    requires c.userPubKey in s.users && c.clientId in s.clients && !Revoked(s.clients, c.clientId)
    requires IsDate(c.exp * 1000)
    ensures var asked := Step(env, Step(env, Step(env, System(s, []), StartComplete(a), nowMs), Advance(0, []), nowMs),
                              Advance(0, []), nowMs);
            var revoked := Step(env, asked, Revoke(c.clientId), nowMs);
      Revoked(revoked.s.clients, c.clientId) && !StaysRevoked(env, revoked, c.clientId)
  {
    var y0 := Step(env, System(s, []), StartComplete(a), nowMs);
    assert y0.calls == [CompleteTook(c, env.challengeOf(a), Some(s.challenges[env.challengeOf(a)]))];
    var asked := Step(env, Step(env, y0, Advance(0, []), nowMs), Advance(0, []), nowMs);
    var revoked := Step(env, asked, Revoke(c.clientId), nowMs);
    assert WillStore(revoked.calls[0], c.clientId);
    RevocationSticksExactly(env, revoked, c.clientId);
  }

  /** The call stands past its revocation check and its next step takes effect for the client. */
  predicate WillSucceed(call: Call, clientId: string) {
    (call.BeginAsked? && PastTheCheck(call, clientId)) || WillStore(call, clientId)
  }

  ghost predicate NoneWillSucceed(y: System, clientId: string) {
    forall i :: 0 <= i < |y.calls| ==> !WillSucceed(y.calls[i], clientId)
  }

  /** The calls that were through at `y`, and no others, are through later. */
  ghost predicate NoNewSuccess(y: System, z: System, clientId: string) {
    && |y.calls| <= |z.calls|
    && forall i :: 0 <= i < |z.calls| && Through(z.calls[i], clientId) ==>
                     i < |y.calls| && Through(y.calls[i], clientId)
  }

  lemma StepNoNewSuccess(env: Env, y: System, z: System, a: Action, nowMs: int, clientId: string)
    requires Revoked(z.s.clients, clientId) && NoneWillSucceed(z, clientId) && NoNewSuccess(y, z, clientId)
    ensures var w := Step(env, z, a, nowMs);
      Revoked(w.s.clients, clientId) && NoneWillSucceed(w, clientId) && NoNewSuccess(y, w, clientId)
  {
    if a.Advance? && a.i < |z.calls| {
      assert !WillSucceed(z.calls[a.i], clientId);
    }
  }

  lemma {:induction false} StepsNoNewSuccess(env: Env, y: System, acts: seq<(Action, int)>, clientId: string)
    requires Revoked(y.s.clients, clientId) && NoneWillSucceed(y, clientId)
    ensures var z := Steps(env, y, acts);
      Revoked(z.s.clients, clientId) && NoneWillSucceed(z, clientId) && NoNewSuccess(y, z, clientId)
  {
    if acts != [] {
      var n := |acts| - 1;
      StepsNoNewSuccess(env, y, acts[..n], clientId);
      StepNoNewSuccess(env, y, Steps(env, y, acts[..n]), acts[n].0, acts[n].1, clientId);
    }
  }

  ghost predicate NeverSucceedsAgain(env: Env, y: System, clientId: string) {
    forall acts: seq<(Action, int)> :: NoNewSuccess(y, Steps(env, y, acts), clientId)
  }

  /** Once a client is revoked, no call for it, running or yet to come, succeeds in any continuation exactly
      when no call of its own stands between the revocation check and a step that takes effect. */
  lemma NoSuccessAfterRevocation(env: Env, y: System, clientId: string)
    requires Revoked(y.s.clients, clientId)
    ensures NeverSucceedsAgain(env, y, clientId) <==> NoneWillSucceed(y, clientId)
  {
    if NoneWillSucceed(y, clientId) {
      forall acts: seq<(Action, int)> ensures NoNewSuccess(y, Steps(env, y, acts), clientId) {
        StepsNoNewSuccess(env, y, acts, clientId);
      }
    } else {
      var i :| 0 <= i < |y.calls| && WillSucceed(y.calls[i], clientId);
      var acts := [(Advance(i, []), 0)];
      assert Steps(env, y, acts[..0]) == y;
      var z := Steps(env, y, acts);
      assert z == Step(env, y, Advance(i, []), 0);
      assert Through(z.calls[i], clientId) && !Through(y.calls[i], clientId);
    }
  }
}
