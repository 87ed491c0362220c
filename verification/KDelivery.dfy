/** Delivery of K: the pairing service verifies the user's assertion, seals K to the encryption key it
    names, and the user opens the response. */
module KDelivery {
  import opened Options
  import opened Text
  import Jcs
  import opened Platform
  import opened Schemas
  import opened Keys
  import opened SealedBoxes
  import AuthStores
  import opened PairingAssertions
  import opened PairingResponses
  import B = Base64Url

  // ----- verification, per kind -----

  /** What the kind-specific verifiers hand out, and the only thing `respondWithK` accepts. */
  datatype Verified = Verified(userPubKey: string, userEncPubKey: string, userId: string)

  datatype VerifyResult = VerifyOk(v: Verified) | VerifyErr(error: AssertionError) | VerifyThrew

  function ResultOf(r: AssertionResult): VerifyResult {
    match r
    case AssertionOk(a) => VerifyOk(Verified(a.userPubKey, a.userEncPubKey, a.userId))
    case AssertionErr(e) => VerifyErr(e)
    case AssertionThrew => VerifyThrew
  }

  /** What the host passes in with an envelope. */
  datatype Request = Request(requestId: string, kind: PairKind, userPubKey: Option<Bytes>, maxAgeMs: int, nowMs: int)

  const DEFAULT_MAX_AGE_MS := 300_000

  /** Only the sign-in verifier lets its caller pin the user. */
  function ExpectationFor(q: Request, serverPubKey: Bytes): Expectation {
    Expectation(q.kind, serverPubKey, Some(q.requestId), if q.kind == ServerSignIn then q.userPubKey else None,
                q.maxAgeMs, q.nowMs)
  }

  // ----- answering a request -----

  function RespondWithK(p: Platform, serverKey: ServerKey, k: Bytes, v: Verified, nowSec: int,
                        d: Draw): Outcome<Response>
  {
    var x := ResponseInput(k, serverKey, KeyText(v.userEncPubKey), KeyText(v.userPubKey), nowSec,
                           Some(v.userEncPubKey));
    Build(p, x, d)
  }

  function RespondVerified(p: Platform, serverKey: ServerKey, k: Bytes, r: AssertionResult, nowSec: int, d: Draw)
    : Outcome<Response> {
    match ResultOf(r)
    case VerifyOk(v) => RespondWithK(p, serverKey, k, v, nowSec, d)
    case _ => Threw
  }

  function RespondWithKFromEnvelope(p: Platform, serverKey: ServerKey, k: Bytes, e: Envelope, q: Request, nowSec: int,
                                    d: Draw)
    : Outcome<Response> {
    RespondVerified(p, serverKey, k, VerifyPairingAssertion(p, e, ExpectationFor(q, serverKey.pub)), nowSec, d)
  }

  // ----- what the user gets -----

  /** K cannot be read when it is empty: its base64url form is then the empty string. */
  function DeliveredK(k: Bytes, serverPubKey: Bytes, nowSec: int): Result<ResponseSealed, ResponseError> {
    if k == [] then Err(ShapeInvalid) else Ok(ResponseSealed(B.Encode(k), nowSec, HexEncode(serverPubKey)))
  }

  lemma PlainReads(p: Platform, k: Bytes, serverPubKey: Bytes, nowSec: int)
    requires |serverPubKey| == KEY_LENGTH && IsSafeInt(nowSec)
    ensures var plain := Jcs.JcsBytes(ResponseJson(ResponseSealed(B.Encode(k), nowSec, HexEncode(serverPubKey))));
      ReadPlain(p, Some(plain), HexEncode(serverPubKey)) == DeliveredK(k, serverPubKey, nowSec)
  {
    var r := ResponseSealed(B.Encode(k), nowSec, HexEncode(serverPubKey));
    KeyHex(serverPubKey);
    ResponseRoundTrip(r);
    ParseBytesJcs(p, ResponseJson(r));
    EncodedIsBase64Url(k);
  }

  lemma SignedBoxOpens(p: Platform, serverPriv: Bytes, box: SealedBox, userEncPriv: Bytes, expected: Option<Bytes>)
    requires Lawful(p) && |userEncPriv| == KEY_LENGTH && (expected.Some? ==> expected.value == p.xPub(userEncPriv))
    ensures var serverKey := ServerKey(p.edPub(serverPriv), serverPriv);
      Open(p, Sign(p, serverKey, box), userEncPriv, serverKey.pub, expected) ==
      Returned(ReadPlain(p, Decrypt(p, box, userEncPriv, []), HexEncode(serverKey.pub)))
  {
    B.RoundTrip(p.sign(SigMessage(HexEncode(p.edPub(serverPriv)), box), serverPriv));
  }

  lemma SealedFor(p: Platform, x: ResponseInput, d: Draw, userEncPriv: Bytes)
    requires Lawful(p) && |userEncPriv| == KEY_LENGTH && Recipient(x) == Some(p.xPub(userEncPriv))
    requires Build(p, x, d).Returned?
    ensures var r := Build(p, x, d).value;
      && r == Sign(p, x.serverKey, r.sealed)
      && Decrypt(p, r.sealed, userEncPriv, []) == Some(Jcs.JcsBytes(ResponseJson(SealedPlain(x))))
  {
    var plain := Jcs.JcsBytes(ResponseJson(SealedPlain(x)));
    SelfCheckIsSound(p, plain, p.xPub(userEncPriv), [], d);
    BoxRoundTrip(p, plain, userEncPriv, [], d);
  }

  lemma RecipientIs(x: ResponseInput, enc: Bytes)
    requires |enc| == KEY_LENGTH && x.userEncPubKey == KeyText(HexEncode(enc))
    ensures Recipient(x).Some? ==> Recipient(x) == Some(enc)
  {
    KeySpellings(HexEncode(enc), enc);
  }

  lemma VerifiedDelivers(p: Platform, serverPriv: Bytes, k: Bytes, v: Verified, nowSec: int, d: Draw,
                         userEncPriv: Bytes, expected: Option<Bytes>)
    requires Lawful(p) && |userEncPriv| == KEY_LENGTH && IsSafeInt(nowSec)
    requires v.userEncPubKey == HexEncode(p.xPub(userEncPriv))
    requires expected.Some? ==> expected.value == p.xPub(userEncPriv)
    requires RespondWithK(p, ServerKey(p.edPub(serverPriv), serverPriv), k, v, nowSec, d).Returned?
    ensures Open(p, RespondWithK(p, ServerKey(p.edPub(serverPriv), serverPriv), k, v, nowSec, d).value, userEncPriv,
                 p.edPub(serverPriv), expected) == Returned(DeliveredK(k, p.edPub(serverPriv), nowSec))
  {
    var serverKey := ServerKey(p.edPub(serverPriv), serverPriv);
    var x := ResponseInput(k, serverKey, KeyText(v.userEncPubKey), KeyText(v.userPubKey), nowSec,
                           Some(v.userEncPubKey));
    RecipientIs(x, p.xPub(userEncPriv));
    SealedFor(p, x, d, userEncPriv);
    SignedBoxOpens(p, serverPriv, Build(p, x, d).value.sealed, userEncPriv, expected);
    PlainReads(p, k, serverKey.pub, nowSec);
  }

  /** End to end, for every kind of pairing and whatever envelope was approved: if the service
      responds, the holder of the private key behind the assertion's encryption key opens exactly the
      K that was sent, from the same server; only an empty K arrives unreadable. */
  lemma KIsDelivered(p: Platform, serverPriv: Bytes, k: Bytes, e: Envelope, q: Request, nowSec: int, d: Draw,
                     userEncPriv: Bytes, expected: Option<Bytes>)
    requires Lawful(p) && |userEncPriv| == KEY_LENGTH && IsSafeInt(nowSec)
    requires expected.Some? ==> expected.value == p.xPub(userEncPriv)
    requires RespondWithKFromEnvelope(p, ServerKey(p.edPub(serverPriv), serverPriv), k, e, q, nowSec, d).Returned?
    ensures var r := VerifyPairingAssertion(p, e, ExpectationFor(q, p.edPub(serverPriv)));
      && r.AssertionOk?
      && (r.payload.userEncPubKey == HexEncode(p.xPub(userEncPriv)) ==>
            Open(p, RespondWithKFromEnvelope(p, ServerKey(p.edPub(serverPriv), serverPriv), k, e, q, nowSec, d).value,
                 userEncPriv, p.edPub(serverPriv), expected) == Returned(DeliveredK(k, p.edPub(serverPriv), nowSec)))
  {
    Delivers(p, serverPriv, k, VerifyPairingAssertion(p, e, ExpectationFor(q, p.edPub(serverPriv))), nowSec, d,
             userEncPriv, expected);
  }

  lemma Delivers(p: Platform, serverPriv: Bytes, k: Bytes, r: AssertionResult, nowSec: int, d: Draw, userEncPriv: Bytes,
                 expected: Option<Bytes>)
    requires Lawful(p) && |userEncPriv| == KEY_LENGTH && IsSafeInt(nowSec)
    requires expected.Some? ==> expected.value == p.xPub(userEncPriv)
    requires RespondVerified(p, ServerKey(p.edPub(serverPriv), serverPriv), k, r, nowSec, d).Returned?
    ensures r.AssertionOk?
    ensures r.payload.userEncPubKey == HexEncode(p.xPub(userEncPriv)) ==>
              Open(p, RespondVerified(p, ServerKey(p.edPub(serverPriv), serverPriv), k, r, nowSec, d).value,
                   userEncPriv, p.edPub(serverPriv), expected) == Returned(DeliveredK(k, p.edPub(serverPriv), nowSec))
  {
    var a := r.payload;
    if a.userEncPubKey == HexEncode(p.xPub(userEncPriv)) {
      VerifiedDelivers(p, serverPriv, k, Verified(a.userPubKey, a.userEncPubKey, a.userId), nowSec, d, userEncPriv,
                       expected);
    }
  }

  /** The delivered text is K. */
  lemma DeliveredIsK(k: Bytes, serverPubKey: Bytes, nowSec: int)
    ensures DeliveredK(k, serverPubKey, nowSec).Ok? ==>
            B.Decode(DeliveredK(k, serverPubKey, nowSec).value.connInfoKey) == Some(k)
  {
    B.RoundTrip(k);
  }

  // ----- when the service responds -----

  /** Whatever envelope is answered: it names this very request, its kind and this server, for a sign-in the
      pinned user, it is no older than allowed, and the user key it names signed the bytes it was read
      from. */
  lemma AnsweredIsTheRequestAsked(p: Platform, serverKey: ServerKey, k: Bytes, e: Envelope, q: Request, nowSec: int,
                                  d: Draw)
    returns (canonical: Bytes, a: AssertionPayload)
    requires RespondWithKFromEnvelope(p, serverKey, k, e, q, nowSec, d).Returned?
    ensures ReadAssertion(p, e.signedAssertionBytes, q.kind) == Ok((canonical, a))
    ensures a.requestId == q.requestId && a.kind == q.kind && a.serverPubKey == HexEncode(serverKey.pub)
    ensures q.kind == ServerSignIn && q.userPubKey.Some? ==> a.userPubKey == HexEncode(q.userPubKey.value)
    ensures q.nowMs - a.ts <= q.maxAgeMs && a.userPubKey != a.userEncPubKey
    ensures SignedByItsUser(p, canonical, a, e.assertionSignature)
  {
    canonical := AcceptedAssertionIsSigned(p, e, ExpectationFor(q, serverKey.pub));
    a := VerifyPairingAssertion(p, e, ExpectationFor(q, serverKey.pub)).payload;
  }

  /** The assertion is the one the request asks for. */
  ghost predicate Meets(a: AssertionPayload, q: Request, serverPub: Bytes) {
    && a.kind == q.kind && a.requestId == q.requestId
    && |serverPub| == 32 && a.serverPubKey == HexEncode(serverPub)
    && (q.kind == ServerSignIn && q.userPubKey.Some? ==>
          |q.userPubKey.value| == 32 && a.userPubKey == HexEncode(q.userPubKey.value))
    && a.userPubKey != a.userEncPubKey && q.nowMs - a.ts <= q.maxAgeMs
  }

  lemma ExpectedMeets(a: AssertionPayload, q: Request, serverPub: Bytes)
    ensures ExpectedResult(a, ExpectationFor(q, serverPub)).AssertionOk? <==> Meets(a, q, serverPub)
    ensures Meets(a, q, serverPub) ==> ExpectedResult(a, ExpectationFor(q, serverPub)) == AssertionOk(a)
  {
  }

  /** An assertion the user built is answered exactly when it is for this request, kind and server, by the
      pinned user of a sign-in, not too old, and its encryption key can receive: it is not the master key,
      not all zeros, not the server's own key, and not degenerate. */
  lemma RespondsExactly(p: Platform, serverKey: ServerKey, k: Bytes, a: AssertionPayload, masterPriv: Bytes,
                        encPub: Bytes, q: Request, nowSec: int, d: Draw)
    requires Lawful(p) && ValidAssertion(a) && a.userPubKey == HexEncode(p.edPub(masterPriv))
    requires |encPub| == KEY_LENGTH && a.userEncPubKey == HexEncode(encPub)
    ensures var e := BuildPairingAssertion(p, a, masterPriv);
            RespondWithKFromEnvelope(p, serverKey, k, e, q, nowSec, d).Returned? <==>
            && Meets(a, q, serverKey.pub)
            && encPub != Zeros() && encPub != serverKey.pub && p.shared(d.ephPriv, encPub).Some?
  {
    BuiltAssertionVerifiesExactly(p, a, masterPriv, ExpectationFor(q, serverKey.pub));
    ExpectedMeets(a, q, serverKey.pub);
    if Meets(a, q, serverKey.pub) {
      AnswersExactly(p, serverKey, k, Verified(a.userPubKey, a.userEncPubKey, a.userId), p.edPub(masterPriv), encPub,
                     nowSec, d);
    }
  }

  lemma AnswersExactly(p: Platform, serverKey: ServerKey, k: Bytes, v: Verified, userPub: Bytes, encPub: Bytes,
                       nowSec: int, d: Draw)
    requires Lawful(p) && |userPub| == KEY_LENGTH && |encPub| == KEY_LENGTH
    requires v.userPubKey == HexEncode(userPub) && v.userEncPubKey == HexEncode(encPub)
    requires v.userPubKey != v.userEncPubKey
    ensures RespondWithK(p, serverKey, k, v, nowSec, d).Returned? <==>
            encPub != Zeros() && encPub != serverKey.pub && p.shared(d.ephPriv, encPub).Some?
  {
    var x := ResponseInput(k, serverKey, KeyText(v.userEncPubKey), KeyText(v.userPubKey), nowSec,
                           Some(v.userEncPubKey));
    KeySpellings(v.userPubKey, userPub);
    KeySpellings(v.userEncPubKey, encPub);
    SelfCheckIsSound(p, Jcs.JcsBytes(ResponseJson(SealedPlain(x))), encPub, [], d);
  }

  // ----- remembering the user's encryption key -----

  /** `verifyAndPersist`: a verified link or sign-in rotates the registered user's encryption key; an
      operator link never touches it, and nothing happens when verification fails. */
  method VerifyAndPersist(p: Platform, e: Envelope, serverPubKey: Bytes, requestId: string, kind: PairKind,
                          nowMs: int, userStore: AuthStores.IdentityUserStore)
    returns (r: VerifyResult)
    requires userStore.rowsByPub.Valid()
    modifies userStore
    ensures r == ResultOf(VerifyPairingAssertion(
                   p, e, ExpectationFor(Request(requestId, kind, None, DEFAULT_MAX_AGE_MS, nowMs), serverPubKey)))
    ensures userStore.rowsByPub.Valid() && userStore.rowsByPub.keys == old(userStore.rowsByPub.keys)
    ensures userStore.rowsByPub.at == Persisted(old(userStore.rowsByPub.at), r, kind)
  {
    var q := Request(requestId, kind, None, DEFAULT_MAX_AGE_MS, nowMs);
    r := ResultOf(VerifyPairingAssertion(p, e, ExpectationFor(q, serverPubKey)));
    if !r.VerifyOk? {
      return;
    }
    if kind != OperatorLink {
      var existing := userStore.GetByPublicKey(r.v.userPubKey);
      if existing.Some? {
        userStore.UpsertUserEncPubKey(existing.value.id, r.v.userEncPubKey);
      }
    }
  }

  /** What `verifyAndPersist` takes from an assertion the user built: it must be for the request, kind and
      server given and at most five minutes old, and its two keys and user id are what is remembered. */
  lemma VerifiesForFiveMinutes(p: Platform, a: AssertionPayload, masterPriv: Bytes, serverPub: Bytes, requestId: string,
                               kind: PairKind, nowMs: int)
    requires Lawful(p) && ValidAssertion(a) && a.userPubKey == HexEncode(p.edPub(masterPriv)) && |serverPub| == 32
    ensures var q := Request(requestId, kind, None, DEFAULT_MAX_AGE_MS, nowMs);
            var r := ResultOf(VerifyPairingAssertion(p, BuildPairingAssertion(p, a, masterPriv),
                                                     ExpectationFor(q, serverPub)));
      && (r.VerifyOk? <==>
            && a.kind == kind && a.requestId == requestId && a.serverPubKey == HexEncode(serverPub)
            && a.userPubKey != a.userEncPubKey && nowMs - a.ts <= 300_000)
      && (r.VerifyOk? ==>
            r.v.userPubKey == a.userPubKey && r.v.userEncPubKey == a.userEncPubKey && r.v.userId == a.userId)
  {
    var q := Request(requestId, kind, None, DEFAULT_MAX_AGE_MS, nowMs);
    BuiltAssertionVerifiesExactly(p, a, masterPriv, ExpectationFor(q, serverPub));
    ResultOfExpected(a, q, serverPub);
  }

  lemma ResultOfExpected(a: AssertionPayload, q: Request, serverPub: Bytes)
    ensures var r := ResultOf(ExpectedResult(a, ExpectationFor(q, serverPub)));
      && (r.VerifyOk? <==> Meets(a, q, serverPub))
      && (r.VerifyOk? ==>
            r.v.userPubKey == a.userPubKey && r.v.userEncPubKey == a.userEncPubKey && r.v.userId == a.userId)
  {
    ExpectedMeets(a, q, serverPub);
  }

  function Persisted(users: AuthStores.Users, r: VerifyResult, kind: PairKind): AuthStores.Users {
    if r.VerifyOk? && kind != OperatorLink && r.v.userPubKey in users
    then AuthStores.WithEncKey(users, users[r.v.userPubKey].id, r.v.userEncPubKey)
    else users
  }

  predicate Rotates(users: AuthStores.Users, r: VerifyResult, kind: PairKind, pub: string)
    requires pub in users
  {
    r.VerifyOk? && kind != OperatorLink && r.v.userPubKey in users && users[r.v.userPubKey].id == users[pub].id
  }

  /** Only encryption keys change, only of rows of the verified user's id, and only to the verified one. */
  lemma PersistingRotatesOneUser(users: AuthStores.Users, r: VerifyResult, kind: PairKind, pub: string)
    requires pub in users
    ensures var users' := Persisted(users, r, kind);
      && users'.Keys == users.Keys
      && users'[pub].(userEncPubKey := users[pub].userEncPubKey) == users[pub]
      && (users'[pub] == users[pub] || Rotates(users, r, kind, pub))
      && (Rotates(users, r, kind, pub) ==> users'[pub].userEncPubKey == r.v.userEncPubKey)
  {
  }

  // ----- the request rows -----

  datatype Purpose = Invite | LinkExistingUser | ForOperatorLink | ForServerSignIn

  datatype RequestRow = RequestRow(
    code: string, createdAtMs: int, inviteToken: Option<string>, localUserId: Option<string>, purpose: Purpose,
    requestId: string, towerExpiresAt: string)

  /** What Tower answers to a registration. */
  datatype Registration = Registration(requestId: string, code: string, expiresAt: string)

  class PairingRequestStore {
    var rows: map<string, RequestRow>

    constructor ()
      ensures rows == map[]
    {
      rows := map[];
    }

    method Put(row: RequestRow)
      modifies this
      ensures rows == old(rows)[row.requestId := row]
    {
      rows := rows[row.requestId := row];
    }

    method Consume(requestId: string) returns (row: Option<RequestRow>)
      modifies this
      ensures row == AuthStores.Find(old(rows), requestId) && rows == old(rows) - {requestId}
    {
      row := AuthStores.Find(rows, requestId);
      if row.Some? {
        rows := rows - {requestId};
      }
    }
  }

  /** The row of a started request, with what it is for. */
  ghost predicate Registered(row: RequestRow, kind: PairKind, inviteToken: Option<string>, localUserId: Option<string>,
                       reg: Registration, nowMs: int) {
    && row.code == reg.code && row.requestId == reg.requestId && row.towerExpiresAt == reg.expiresAt
    && row.createdAtMs == nowMs && row.inviteToken == inviteToken && row.localUserId == localUserId
    && (row.purpose == ForServerSignIn <==> kind == ServerSignIn)
    && (row.purpose == ForOperatorLink <==> kind == OperatorLink)
    && (row.purpose == Invite <==> kind == ServerLink && inviteToken.Some?)
    && (row.purpose == LinkExistingUser <==> kind == ServerLink && inviteToken.None?)
  }

  /** A link is for an invitation or for an existing user, never both and never neither; a refused
      start stores nothing. */
  method Start(store: PairingRequestStore, kind: PairKind, inviteToken: Option<string>, localUserId: Option<string>,
               reg: Registration, nowMs: int)
    returns (started: bool)
    modifies store
    ensures started <==> (kind == ServerLink ==> inviteToken.Some? != localUserId.Some?)
    ensures !started ==> store.rows == old(store.rows)
    ensures started ==>
              && reg.requestId in store.rows
              && store.rows == old(store.rows)[reg.requestId := store.rows[reg.requestId]]
              && Registered(store.rows[reg.requestId], kind, inviteToken, localUserId, reg, nowMs)
  {
    if kind == ServerLink && inviteToken.Some? == localUserId.Some? {
      return false;
    }
    var purpose :=
      if kind == ServerSignIn then ForServerSignIn
      else if kind == OperatorLink then ForOperatorLink
      else if inviteToken.Some? then Invite else LinkExistingUser;
    store.Put(RequestRow(reg.code, nowMs, inviteToken, localUserId, purpose, reg.requestId, reg.expiresAt));
    return true;
  }
}
