/** Pairing assertions: the user's master key signs the canonical form of who links to which server,
    for which request, and with which encryption key. */
module PairingAssertions {
  import opened Options
  import opened Text
  import Jcs
  import opened Platform
  import opened Schemas
  import B = Base64Url

  datatype Envelope = Envelope(signedAssertionBytes: string, assertionSignature: string)

  datatype AssertionError =
    | PayloadDecodeFailed
    | PayloadShapeInvalid
    | WrongKind
    | WrongServer
    | WrongRequestId
    | UserPubKeyMismatch
    | SignatureInvalid
    | EncPubKeyEqualsMaster
    | Stale

  datatype AssertionResult =
    | AssertionOk(payload: AssertionPayload)
    | AssertionErr(error: AssertionError)
    | AssertionThrew

  datatype Expectation = Expectation(
    kind: PairKind, serverPubKey: Bytes, requestId: Option<string>, userPubKey: Option<Bytes>,
    maxAgeMs: int, nowMs: int)

  function BuildPairingAssertion(p: Platform, a: AssertionPayload, masterPrivKey: Bytes): Envelope {
    var canonical := Jcs.JcsBytes(AssertionJson(a));
    Envelope(B.Encode(canonical), B.Encode(p.sign(canonical, masterPrivKey)))
  }

  function ReadAssertion(p: Platform, signed: string,
                         kind: PairKind): Result<(Bytes, AssertionPayload), AssertionError>
  {
    match B.Decode(signed)
    case None => Err(PayloadDecodeFailed)
    case Some(canonical) =>
      match ParseBytes(p, canonical)
      case None => Err(PayloadDecodeFailed)
      case Some(j) =>
        match AssertionOf(j, kind)
        case None => Err(PayloadShapeInvalid)
        case Some(a) => Ok((canonical, a))
  }

  /** The first of the checks before the signature's that ends the verification.  Reading an expected key
      that is not 32 bytes throws. */
  function Mismatch(a: AssertionPayload, x: Expectation): Option<AssertionResult> {
    if a.kind != x.kind then Some(AssertionErr(WrongKind))
    else if |x.serverPubKey| != KEY_LENGTH then Some(AssertionThrew)
    else if a.serverPubKey != HexEncode(x.serverPubKey) then Some(AssertionErr(WrongServer))
    else if x.requestId.Some? && a.requestId != x.requestId.value then Some(AssertionErr(WrongRequestId))
    else if x.userPubKey.Some? && |x.userPubKey.value| != KEY_LENGTH then Some(AssertionThrew)
    else if x.userPubKey.Some? && a.userPubKey != HexEncode(x.userPubKey.value) then
      Some(AssertionErr(UserPubKeyMismatch))
    else None
  }

  /** Decoding the signature happens outside the source's try block. */
  function CheckAssertion(p: Platform, read: Result<(Bytes, AssertionPayload), AssertionError>, sig: string,
                          x: Expectation)
    : AssertionResult {
    match read
    case Err(error) => AssertionErr(error)
    case Ok((canonical, a)) =>
      match Mismatch(a, x)
      case Some(end) => end
      case None =>
        match (B.Decode(sig), HexDecode(a.userPubKey))
        case (Some(s), Some(userPubKey)) =>
          if !p.verify(canonical, s, userPubKey) then AssertionErr(SignatureInvalid)
          else if a.userPubKey == a.userEncPubKey then AssertionErr(EncPubKeyEqualsMaster)
          else if x.nowMs - a.ts > x.maxAgeMs then AssertionErr(Stale)
          else AssertionOk(a)
        case _ => AssertionThrew
  }

  function VerifyPairingAssertion(p: Platform, e: Envelope, x: Expectation): AssertionResult {
    CheckAssertion(p, ReadAssertion(p, e.signedAssertionBytes, x.kind), e.assertionSignature, x)
  }

  lemma BuiltAssertionReads(p: Platform, a: AssertionPayload, masterPrivKey: Bytes, kind: PairKind)
    requires ValidAssertion(a)
    ensures ReadAssertion(p, BuildPairingAssertion(p, a, masterPrivKey).signedAssertionBytes, kind) ==
      if a.kind == kind then Ok((Jcs.JcsBytes(AssertionJson(a)), a)) else Err(PayloadShapeInvalid)
  {
    AssertionRoundTrip(a, kind);
    ParseBytesJcs(p, AssertionJson(a));
    B.RoundTrip(Jcs.JcsBytes(AssertionJson(a)));
  }

  function ExpectedResult(a: AssertionPayload, x: Expectation): AssertionResult {
    if a.kind != x.kind then AssertionErr(PayloadShapeInvalid)
    else if |x.serverPubKey| != KEY_LENGTH then AssertionThrew
    else if a.serverPubKey != HexEncode(x.serverPubKey) then AssertionErr(WrongServer)
    else if x.requestId.Some? && a.requestId != x.requestId.value then AssertionErr(WrongRequestId)
    else if x.userPubKey.Some? && |x.userPubKey.value| != KEY_LENGTH then AssertionThrew
    else if x.userPubKey.Some? && a.userPubKey != HexEncode(x.userPubKey.value) then AssertionErr(UserPubKeyMismatch)
    else if a.userPubKey == a.userEncPubKey then AssertionErr(EncPubKeyEqualsMaster)
    else if x.nowMs - a.ts > x.maxAgeMs then AssertionErr(Stale)
    else AssertionOk(a)
  }

  /** An assertion the user built passes exactly when it names the expected kind, server, request and
      user, gives an encryption key other than the master key, and is not too old. */
  lemma BuiltAssertionVerifiesExactly(p: Platform, a: AssertionPayload, masterPrivKey: Bytes, x: Expectation)
    requires Lawful(p) && ValidAssertion(a) && a.userPubKey == HexEncode(p.edPub(masterPrivKey))
    ensures VerifyPairingAssertion(p, BuildPairingAssertion(p, a, masterPrivKey), x) == ExpectedResult(a, x)
  {
    BuiltAssertionReads(p, a, masterPrivKey, x.kind);
    CheckSigned(p, Jcs.JcsBytes(AssertionJson(a)), a, masterPrivKey, x);
  }

  lemma CheckSigned(p: Platform, canonical: Bytes, a: AssertionPayload, masterPrivKey: Bytes, x: Expectation)
    requires Lawful(p) && a.userPubKey == HexEncode(p.edPub(masterPrivKey))
    ensures CheckAssertion(p, if a.kind == x.kind then Ok((canonical, a)) else Err(PayloadShapeInvalid),
                           B.Encode(p.sign(canonical, masterPrivKey)), x) == ExpectedResult(a, x)
  {
    B.RoundTrip(p.sign(canonical, masterPrivKey));
    KeyHex(p.edPub(masterPrivKey));
  }

  lemma ReadAssertionIsValid(p: Platform, signed: string, kind: PairKind)
    requires ReadAssertion(p, signed, kind).Ok?
    ensures var a := ReadAssertion(p, signed, kind).value.1; ValidAssertion(a) && a.kind == kind
  {
  }

  ghost predicate NamesServer(a: AssertionPayload, x: Expectation) {
    a.serverPubKey == HexEncode(x.serverPubKey)
  }

  ghost predicate NamesRequest(a: AssertionPayload, x: Expectation) {
    x.requestId.Some? ==> a.requestId == x.requestId.value
  }

  ghost predicate NamesUser(a: AssertionPayload, x: Expectation) {
    x.userPubKey.Some? ==> a.userPubKey == HexEncode(x.userPubKey.value)
  }

  /** An accepted assertion has the expected kind, server, request and user, well-formed fields, and a
      signature by the master key it names over the very bytes it was read from. */
  lemma AcceptedAssertionIsSigned(p: Platform, e: Envelope, x: Expectation) returns (canonical: Bytes)
    requires VerifyPairingAssertion(p, e, x).AssertionOk?
    ensures var a := VerifyPairingAssertion(p, e, x).payload;
      && ReadAssertion(p, e.signedAssertionBytes, x.kind) == Ok((canonical, a))
      && ValidAssertion(a) && a.kind == x.kind && NamesServer(a, x) && NamesRequest(a, x) && NamesUser(a, x)
      && B.Decode(e.assertionSignature).Some? && HexDecode(a.userPubKey).Some?
      && p.verify(canonical, B.Decode(e.assertionSignature).value, HexDecode(a.userPubKey).value)
      && a.userPubKey != a.userEncPubKey && x.nowMs - a.ts <= x.maxAgeMs
  {
    canonical := ReadAssertion(p, e.signedAssertionBytes, x.kind).value.0;
    ReadAssertionIsValid(p, e.signedAssertionBytes, x.kind);
  }

  /** The schema already fixes the kind, so the later check of the kind never fires. */
  lemma WrongKindIsNeverReported(p: Platform, e: Envelope, x: Expectation)
    ensures VerifyPairingAssertion(p, e, x) != AssertionErr(WrongKind)
  {
    var read := ReadAssertion(p, e.signedAssertionBytes, x.kind);
    if read.Ok? {
      ReadAssertionIsValid(p, e.signedAssertionBytes, x.kind);
    }
  }

  ghost predicate KeysAreKeys(x: Expectation) {
    |x.serverPubKey| == KEY_LENGTH && (x.userPubKey.Some? ==> |x.userPubKey.value| == KEY_LENGTH)
  }

  lemma CheckAssertionThrows(p: Platform, read: Result<(Bytes, AssertionPayload), AssertionError>, sig: string,
                             x: Expectation)
    requires KeysAreKeys(x)
    requires read.Ok? ==> read.value.1.kind == x.kind && HexDecode(read.value.1.userPubKey).Some?
    ensures CheckAssertion(p, read, sig, x) == AssertionThrew <==>
      && read.Ok? && NamesServer(read.value.1, x) && NamesRequest(read.value.1, x) && NamesUser(read.value.1, x)
      && B.Decode(sig).None?
  {
  }

  /** With proper expected keys, an assertion makes its verifier throw exactly when its payload is well
      formed and as expected and its signature is not base64url. */
  lemma AssertionThrowsExactly(p: Platform, e: Envelope, x: Expectation)
    requires KeysAreKeys(x)
    ensures var read := ReadAssertion(p, e.signedAssertionBytes, x.kind);
      VerifyPairingAssertion(p, e, x) == AssertionThrew <==>
        && read.Ok? && NamesServer(read.value.1, x) && NamesRequest(read.value.1, x) && NamesUser(read.value.1, x)
        && B.Decode(e.assertionSignature).None?
  {
    var read := ReadAssertion(p, e.signedAssertionBytes, x.kind);
    if read.Ok? {
      ReadAssertionIsValid(p, e.signedAssertionBytes, x.kind);
      HexDecodes(read.value.1.userPubKey);
    }
    CheckAssertionThrows(p, read, e.assertionSignature, x);
  }

  /** The user key the assertion names signed the bytes it was read from. */
  ghost predicate SignedByItsUser(p: Platform, canonical: Bytes, a: AssertionPayload, sig: string) {
    && B.Decode(sig).Some? && HexDecode(a.userPubKey).Some?
    && p.verify(canonical, B.Decode(sig).value, HexDecode(a.userPubKey).value)
  }

  lemma CheckErrors(p: Platform, canonical: Bytes, a: AssertionPayload, sig: string, x: Expectation)
    requires KeysAreKeys(x) && B.Decode(sig).Some? && a.kind == x.kind && HexDecode(a.userPubKey).Some?
    ensures var r, signed := CheckAssertion(p, Ok((canonical, a)), sig, x), SignedByItsUser(p, canonical, a, sig);
            var named := NamesServer(a, x) && NamesRequest(a, x) && NamesUser(a, x);
      && (r == AssertionErr(WrongServer) <==> !NamesServer(a, x))
      && (r == AssertionErr(WrongRequestId) <==> NamesServer(a, x) && !NamesRequest(a, x))
      && (r == AssertionErr(UserPubKeyMismatch) <==> NamesServer(a, x) && NamesRequest(a, x) && !NamesUser(a, x))
      && (r == AssertionErr(SignatureInvalid) <==> named && !signed)
      && (r == AssertionErr(EncPubKeyEqualsMaster) <==> named && signed && a.userPubKey == a.userEncPubKey)
      && (r == AssertionErr(Stale) <==>
            named && signed && a.userPubKey != a.userEncPubKey && x.nowMs - a.ts > x.maxAgeMs)
      && (r == AssertionOk(a) <==>
            named && signed && a.userPubKey != a.userEncPubKey && x.nowMs - a.ts <= x.maxAgeMs)
  {
  }

  /** What the verifier reports for any assertion with a decodable signature, in order: text or JSON that
      does not decode, a shape or kind the schema refuses, another server, another request, another user, a
      bad signature, an encryption key equal to the master key, or an old stamp. */
  lemma AssertionErrorsExactly(p: Platform, e: Envelope, x: Expectation)
    requires KeysAreKeys(x) && B.Decode(e.assertionSignature).Some?
    ensures var r, bytes := VerifyPairingAssertion(p, e, x), B.Decode(e.signedAssertionBytes);
            var j := if bytes.None? then None else ParseBytes(p, bytes.value);
      && (r == AssertionErr(PayloadDecodeFailed) <==> j.None?)
      && (r == AssertionErr(PayloadShapeInvalid) <==> j.Some? && AssertionOf(j.value, x.kind).None?)
      && (j.Some? && AssertionOf(j.value, x.kind).Some? ==>
            var a := AssertionOf(j.value, x.kind).value;
            var named := NamesServer(a, x) && NamesRequest(a, x) && NamesUser(a, x);
            var signed := SignedByItsUser(p, bytes.value, a, e.assertionSignature);
            && (r == AssertionErr(WrongServer) <==> !NamesServer(a, x))
            && (r == AssertionErr(WrongRequestId) <==> NamesServer(a, x) && !NamesRequest(a, x))
            && (r == AssertionErr(UserPubKeyMismatch) <==>
                  NamesServer(a, x) && NamesRequest(a, x) && !NamesUser(a, x))
            && (r == AssertionErr(SignatureInvalid) <==> named && !signed)
            && (r == AssertionErr(EncPubKeyEqualsMaster) <==> named && signed && a.userPubKey == a.userEncPubKey)
            && (r == AssertionErr(Stale) <==>
                  named && signed && a.userPubKey != a.userEncPubKey && x.nowMs - a.ts > x.maxAgeMs)
            && (r == AssertionOk(a) <==>
                  named && signed && a.userPubKey != a.userEncPubKey && x.nowMs - a.ts <= x.maxAgeMs))
  {
    var read := ReadAssertion(p, e.signedAssertionBytes, x.kind);
    if read.Ok? {
      ReadAssertionIsValid(p, e.signedAssertionBytes, x.kind);
      HexDecodes(read.value.1.userPubKey);
      CheckErrors(p, read.value.0, read.value.1, e.assertionSignature, x);
    }
  }
}
