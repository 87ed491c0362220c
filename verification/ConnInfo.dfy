/** Sealed connection information: AES-GCM under the per-server key K, bound to the server and version
    by the AAD, and signed by the server over a hand-written canonical record. */
module ConnInfos {
  import opened Options
  import opened Text
  import Json
  import Jcs
  import opened Platform
  import opened Schemas
  import Stringified
  import opened ConnInfoPayloads
  import B = Base64Url

  // ----- 8-byte big-endian numbers -----

  const TWO_64 := 0x1_0000_0000_0000_0000

  /** The low `n` base-256 digits, most significant first. */
  function Digits(v: int, n: nat): (b: Bytes)
    ensures |b| == n
    decreases n
  {
    if n == 0 then [] else Digits(v / 256, n - 1) + [v % 256]
  }

  function Value(b: Bytes): nat {
    if b == [] then 0 else 256 * Value(b[..|b| - 1]) + b[|b| - 1]
  }

  function Pow256(n: nat): (r: int)
    ensures r >= 1
  {
    if n == 0 then 1 else 256 * Pow256(n - 1)
  }

  /** `v & 0xff` and `v >>= 8` on a BigInt are the remainder and the quotient rounded down. */
  method U64BE(n: int) returns (out: array<byte>)
    ensures fresh(out) && out[..] == Digits(n, 8)
  {
    out := new byte[8](i => 0);
    var v := n;
    var i := 7;
    while i >= 0
      invariant -1 <= i <= 7
      invariant Digits(v, i + 1) + out[i + 1..] == Digits(n, 8)
    {
      ghost var rest := out[i + 1..];
      out[i] := v % 256;
      assert out[i..] == [v % 256] + rest;
      v := v / 256;
      i := i - 1;
    }
    assert out[0..] == out[..];
  }

  lemma RemainderStep(v: int, m: int)
    requires m >= 1
    ensures v % (256 * m) == 256 * ((v / 256) % m) + v % 256
  {
    var q, r := v / 256, v % 256;
    var a, b := q / m, q % m;
    assert v == (256 * m) * a + (256 * b + r) by {
      assert q == m * a + b;
      assert 256 * q == 256 * (m * a) + 256 * b;
      assert 256 * (m * a) == (256 * m) * a;
    }
    RemainderIs(v, 256 * m, a, 256 * b + r);
  }

  lemma RemainderIs(x: int, m: int, q: int, r: int)
    requires x == m * q + r && 0 <= r < m
    ensures x % m == r
  {
    var k, s := x / m, x % m;
    assert x == m * k + s && 0 <= s < m;
    if k > q { MultiplesApart(m, k, q); }
    if k < q { MultiplesApart(m, q, k); }
  }

  lemma {:induction false} MultiplesApart(m: int, a: int, b: int)
    requires m >= 1 && a > b
    ensures m * a >= m * b + m
    decreases a - b
  {
    assert m * a == m * (a - 1) + m;
    if a - 1 > b { MultiplesApart(m, a - 1, b); }
  }

  lemma {:induction false} DigitsValue(v: int, n: nat)
    ensures Value(Digits(v, n)) == v % Pow256(n)
    decreases n
  {
    if n > 0 {
      DigitsValue(v / 256, n - 1);
      RemainderStep(v, Pow256(n - 1));
      assert Digits(v, n)[..n - 1] == Digits(v / 256, n - 1);
    }
  }

  /** Any integer, negative ones included, is written modulo 2^64. */
  lemma U64Value(n: int)
    ensures Value(Digits(n, 8)) == n % TWO_64
  {
    DigitsValue(n, 8);
  }

  /** Safe integers have distinct encodings. */
  lemma U64Injective(m: int, n: int)
    requires IsSafeInt(m) && IsSafeInt(n) && Digits(m, 8) == Digits(n, 8)
    ensures m == n
  {
    U64Value(m);
    U64Value(n);
    SafeIntsFit(m, n);
  }

  lemma SafeIntsFit(m: int, n: int)
    requires IsSafeInt(m) && IsSafeInt(n) && m % TWO_64 == n % TWO_64
    ensures m == n
  {
  }

  // ----- the AAD -----

  function AadPrefix(): Bytes {
    Ascii("aviato-server-conninfo-v1")
  }

  function ConnInfoAad(serverPubKeyHex: string, version: int): Bytes {
    AadPrefix() + Utf8(serverPubKeyHex) + Digits(version, 8)
  }

  lemma Concat3(p: Bytes, a: Bytes, b: Bytes, c: Bytes, d: Bytes)
    requires p + a + b == p + c + d && |a| == |c|
    ensures a == c && b == d
  {
    var x, y := p + a + b, p + c + d;
    assert a == x[|p|..|p| + |a|] && c == y[|p|..|p| + |c|];
    assert b == x[|p| + |a|..] && d == y[|p| + |c|..];
  }

  /** The AAD determines the server and the version. */
  lemma AadInjective(s: string, m: int, t: string, n: int)
    requires IsHex32(s) && IsHex32(t) && IsSafeInt(m) && IsSafeInt(n) && ConnInfoAad(s, m) == ConnInfoAad(t, n)
    ensures s == t && m == n
  {
    HexText(s);
    HexText(t);
    Concat3(AadPrefix(), Utf8(s), Digits(m, 8), Utf8(t), Digits(n, 8));
    Utf8Injective(s, t);
    U64Injective(m, n);
  }

  // ----- the signed record -----

  const CANONICAL_KEYS := ["ct", "nonce", "serverPubKey", "version"]

  datatype Unsigned = Unsigned(ct: string, nonce: string, serverPubKey: string, version: int)

  function CanonicalValues(u: Unsigned): seq<Json.Json> {
    [Json.Str(u.ct), Json.Str(u.nonce), Json.Str(u.serverPubKey), Json.Num(u.version)]
  }

  function ConnInfoCanonical(u: Unsigned): Bytes {
    Stringified.Stringify(Record(CANONICAL_KEYS, CanonicalValues(u)))
  }

  /** The hand-written bytes are the RFC 8785 form of the four-member object. */
  lemma CanonicalIsJcs(u: Unsigned)
    ensures ConnInfoCanonical(u) == Jcs.JcsBytes(Record(CANONICAL_KEYS, CanonicalValues(u)))
  {
    Stringified.SortedRecordIsCanonical(CANONICAL_KEYS, CanonicalValues(u));
  }

  /** `"name":"value"` */
  function TextPair(name: string, value: string): string {
    "\"" + name + "\":\"" + value + "\""
  }

  /** The text that is signed, for fields that need no escaping. */
  function CanonicalText(u: Unsigned): string
    requires u.version >= 0
  {
    "{" + FourTexts(TextPair("ct", u.ct), TextPair("nonce", u.nonce), TextPair("serverPubKey", u.serverPubKey),
                    "\"version\":" + Json.PrintNat(u.version, "")) + "}"
  }

  function FourTexts(a: string, b: string, c: string, d: string): string {
    a + ("," + (b + ("," + (c + ("," + d)))))
  }

  lemma PairText(name: string, value: string)
    requires Stringified.Plain(name) && Stringified.Plain(value)
    ensures Stringified.MemberText(Json.Member(name, Json.Str(value))) == TextPair(name, value)
  {
  }

  lemma VersionText(n: nat)
    ensures Stringified.MemberText(Json.Member("version", Json.Num(n))) == "\"version\":" + Json.PrintNat(n, "")
  {
  }

  /** The signed bytes, character by character. */
  lemma CanonicalIsText(u: Unsigned)
    requires Stringified.Plain(u.ct) && Stringified.Plain(u.nonce) && Stringified.Plain(u.serverPubKey)
    requires u.version >= 0
    ensures ConnInfoCanonical(u) == Utf8(CanonicalText(u))
  {
    var ms := Record(CANONICAL_KEYS, CanonicalValues(u)).members;
    CanonicalMembers(u);
    Stringified.PlainRecordText(CANONICAL_KEYS, CanonicalValues(u));
    FourListed(ms);
    PairText("ct", u.ct);
    PairText("nonce", u.nonce);
    PairText("serverPubKey", u.serverPubKey);
    VersionText(u.version);
  }

  lemma CanonicalMembers(u: Unsigned)
    ensures var ms := Record(CANONICAL_KEYS, CanonicalValues(u)).members;
      && |ms| == 4 && ms[0] == Json.Member("ct", Json.Str(u.ct)) && ms[1] == Json.Member("nonce", Json.Str(u.nonce))
      && ms[2] == Json.Member("serverPubKey", Json.Str(u.serverPubKey))
      && ms[3] == Json.Member("version", Json.Num(u.version))
  {
  }

  lemma FourListed(ms: seq<Json.Member>)
    requires |ms| == 4 && Stringified.PlainMembers(ms)
    ensures Stringified.Listed(ms) ==
      FourTexts(Stringified.MemberText(ms[0]), Stringified.MemberText(ms[1]), Stringified.MemberText(ms[2]),
                Stringified.MemberText(ms[3]))
  {
    var one, two, three := ms[1..], ms[2..], ms[3..];
    assert one[1..] == two && two[1..] == three;
    assert Stringified.Listed(three) == Stringified.MemberText(ms[3]);
    assert Stringified.Listed(two) == Stringified.MemberText(ms[2]) + ([','] + Stringified.Listed(three));
    assert Stringified.Listed(one) == Stringified.MemberText(ms[1]) + ([','] + Stringified.Listed(two));
  }

  /** The reader of the signed bytes. */
  function ReadCanonical(b: Bytes): Option<Unsigned> {
    match Stringified.Unstringify(b)
    case None => None
    case Some(j) =>
      var g := MembersOf(j);
      Some(Unsigned(TextAt(g, "ct"), TextAt(g, "nonce"), TextAt(g, "serverPubKey"), IntAt(g, "version")))
  }

  lemma CanonicalDecodes(u: Unsigned)
    ensures ReadCanonical(ConnInfoCanonical(u)) == Some(u)
  {
    var ks, vs := CANONICAL_KEYS, CanonicalValues(u);
    Stringified.SortedRecordReads(ks, vs, 0);
    Stringified.SortedRecordReads(ks, vs, 1);
    Stringified.SortedRecordReads(ks, vs, 2);
    Stringified.SortedRecordReads(ks, vs, 3);
    CanonicalNames(MembersOf(Stringified.Unstringify(ConnInfoCanonical(u)).value), vs);
  }

  lemma CanonicalNames(g: Getter, vs: seq<Json.Json>)
    requires |vs| == 4 && forall i :: 0 <= i < 4 ==> g(CANONICAL_KEYS[i]) == Some(vs[i])
    ensures g("ct") == Some(vs[0]) && g("nonce") == Some(vs[1]) && g("serverPubKey") == Some(vs[2])
    ensures g("version") == Some(vs[3])
  {
    var ks := CANONICAL_KEYS;
    assert g(ks[0]) == Some(vs[0]) && g(ks[1]) == Some(vs[1]) && g(ks[2]) == Some(vs[2]) && g(ks[3]) == Some(vs[3]);
  }

  lemma CanonicalInjective(u: Unsigned, w: Unsigned)
    requires ConnInfoCanonical(u) == ConnInfoCanonical(w)
    ensures u == w
  {
    CanonicalDecodes(u);
    CanonicalDecodes(w);
  }

  // ----- sealing and opening -----

  datatype Published = Published(body: Unsigned, sig: string)

  datatype OpenError = AeadDecryptFailed | PayloadShapeInvalid | RotationCounterMismatch

  function BodyOf(p: Platform, x: ConnInfo, k: Bytes, serverPub: Bytes, version: int, nonce: Bytes): Unsigned {
    var hex := HexEncode(serverPub);
    Unsigned(B.Encode(p.seal(k, nonce, Jcs.JcsBytes(ConnJson(x)), ConnInfoAad(hex, version))), B.Encode(nonce), hex,
             version)
  }

  function SignBody(p: Platform, u: Unsigned, serverPriv: Bytes): Published {
    Published(u, B.Encode(p.sign(ConnInfoCanonical(u), serverPriv)))
  }

  function SealServerConnInfo(p: Platform, x: ConnInfo, k: Bytes, serverPub: Bytes, serverPriv: Bytes, version: int,
                              nonce: Bytes)
    : Outcome<Published> {
    if x.rotationCounter != version then Threw
    else if |serverPub| != KEY_LENGTH || |nonce| != NONCE_LENGTH then Threw
    else if |k| != KEY_LENGTH || |serverPriv| != KEY_LENGTH then Threw
    else Returned(SignBody(p, BodyOf(p, x, k, serverPub, version, nonce), serverPriv))
  }

  function ReadPlain(p: Platform, plain: Option<Bytes>, version: int): Result<ConnInfo, OpenError> {
    match plain
    case None => Err(AeadDecryptFailed)
    case Some(bytes) =>
      match ParseBytes(p, bytes)
      case None => Err(PayloadShapeInvalid)
      case Some(j) =>
        match ConnOf(j)
        case None => Err(PayloadShapeInvalid)
        case Some(x) => if x.rotationCounter != version then Err(RotationCounterMismatch) else Ok(x)
  }

  /** A key or nonce of the wrong length fails like a wrong key; undecodable text throws. */
  function OpenServerConnInfo(p: Platform, u: Unsigned, k: Bytes): Outcome<Result<ConnInfo, OpenError>> {
    match (B.Decode(u.nonce), B.Decode(u.ct))
    case (Some(nonce), Some(ct)) =>
      var plain := if |k| != KEY_LENGTH || |nonce| != NONCE_LENGTH then None
                   else p.open(k, nonce, ct, ConnInfoAad(u.serverPubKey, u.version));
      Returned(ReadPlain(p, plain, u.version))
    case _ => Threw
  }

  function VerifyConnInfoRecordSig(p: Platform, r: Published): Outcome<bool> {
    match (B.Decode(r.sig), HexDecode(r.body.serverPubKey))
    case (Some(sig), Some(pub)) => Returned(p.verify(ConnInfoCanonical(r.body), sig, pub))
    case _ => Threw
  }

  /** For a record whose server key passed the wire schema, the check throws exactly when its signature
      is not base64url. */
  lemma RecordThrowsExactly(p: Platform, r: Published)
    requires IsHex32(r.body.serverPubKey)
    ensures VerifyConnInfoRecordSig(p, r) == Threw <==> B.Decode(r.sig).None?
  {
    HexDecodes(r.body.serverPubKey);
  }

  /** Whether the schema accepts the payload decides what opens. */
  function OpenedPayload(x: ConnInfo): Result<ConnInfo, OpenError> {
    if ValidConn(x) then Ok(Delivered(x)) else Err(PayloadShapeInvalid)
  }

  lemma PlainReads(p: Platform, x: ConnInfo)
    requires DistinctPaths(x)
    ensures ReadPlain(p, Some(Jcs.JcsBytes(ConnJson(x))), x.rotationCounter) == OpenedPayload(x)
  {
    ConnRoundTrip(x);
    ParseBytesJcs(p, ConnJson(x));
  }

  /** What is sealed opens to the payload, never to a rotation mismatch, and its signature verifies. */
  lemma SealOpens(p: Platform, x: ConnInfo, k: Bytes, serverPriv: Bytes, version: int, nonce: Bytes)
    requires Lawful(p) && DistinctPaths(x)
    requires SealServerConnInfo(p, x, k, p.edPub(serverPriv), serverPriv, version, nonce).Returned?
    ensures var r := SealServerConnInfo(p, x, k, p.edPub(serverPriv), serverPriv, version, nonce).value;
      && OpenServerConnInfo(p, r.body, k) == Returned(OpenedPayload(x))
      && VerifyConnInfoRecordSig(p, r) == Returned(true)
  {
    var u := BodyOf(p, x, k, p.edPub(serverPriv), version, nonce);
    BodyOpens(p, x, k, p.edPub(serverPriv), version, nonce);
    SignatureVerifies(p, u, serverPriv);
  }

  lemma BodyOpens(p: Platform, x: ConnInfo, k: Bytes, serverPub: Bytes, version: int, nonce: Bytes)
    requires Lawful(p) && DistinctPaths(x) && x.rotationCounter == version
    requires |k| == KEY_LENGTH && |nonce| == NONCE_LENGTH
    ensures OpenServerConnInfo(p, BodyOf(p, x, k, serverPub, version, nonce), k) == Returned(OpenedPayload(x))
  {
    B.RoundTrip(nonce);
    B.RoundTrip(p.seal(k, nonce, Jcs.JcsBytes(ConnJson(x)), ConnInfoAad(HexEncode(serverPub), version)));
    PlainReads(p, x);
  }

  lemma SignatureVerifies(p: Platform, u: Unsigned, serverPriv: Bytes)
    requires Lawful(p) && u.serverPubKey == HexEncode(p.edPub(serverPriv))
    ensures VerifyConnInfoRecordSig(p, SignBody(p, u, serverPriv)) == Returned(true)
  {
    B.RoundTrip(p.sign(ConnInfoCanonical(u), serverPriv));
    KeyHex(p.edPub(serverPriv));
  }

  /** Among the associated data tried in a run, the ciphertext of `u` opens under its own only. */
  ghost predicate BoundToItsAad(p: Platform, u: Unsigned, k: Bytes, aads: set<Bytes>) {
    B.Decode(u.nonce).Some? && B.Decode(u.ct).Some? ==>
      forall aad :: aad in aads && aad != ConnInfoAad(u.serverPubKey, u.version) ==>
                      p.open(k, B.Decode(u.nonce).value, B.Decode(u.ct).value, aad) == None
  }

  /** Moved to another server or another version of the run, a sealed record does not decrypt. */
  lemma OpensOnlyInItsSlot(p: Platform, u: Unsigned, k: Bytes, aads: set<Bytes>, serverPubKey: string, version: int)
    requires BoundToItsAad(p, u, k, aads) && ConnInfoAad(serverPubKey, version) in aads
    requires OpenServerConnInfo(p, u, k).Returned?
    requires IsHex32(u.serverPubKey) && IsHex32(serverPubKey) && IsSafeInt(u.version) && IsSafeInt(version)
    requires serverPubKey != u.serverPubKey || version != u.version
    ensures OpenServerConnInfo(p, u.(serverPubKey := serverPubKey, version := version), k) ==
            Returned(Err(AeadDecryptFailed))
  {
    if ConnInfoAad(serverPubKey, version) == ConnInfoAad(u.serverPubKey, u.version) {
      AadInjective(serverPubKey, version, u.serverPubKey, u.version);
    }
  }

  /** What a server sealed opens, in the slots of the run, in its own slot and in no other. */
  lemma SealedOpensExactlyInItsSlot(p: Platform, x: ConnInfo, k: Bytes, serverPriv: Bytes, version: int, nonce: Bytes,
                                    aads: set<Bytes>, otherPubKey: string, otherVersion: int)
    requires Lawful(p) && DistinctPaths(x) && ValidConn(x)
    requires SealServerConnInfo(p, x, k, p.edPub(serverPriv), serverPriv, version, nonce).Returned?
    requires var u := SealServerConnInfo(p, x, k, p.edPub(serverPriv), serverPriv, version, nonce).value.body;
      BoundToItsAad(p, u, k, aads) && ConnInfoAad(otherPubKey, otherVersion) in aads
    requires IsHex32(otherPubKey) && IsSafeInt(otherVersion)
    ensures var u := SealServerConnInfo(p, x, k, p.edPub(serverPriv), serverPriv, version, nonce).value.body;
      OpenServerConnInfo(p, u.(serverPubKey := otherPubKey, version := otherVersion), k) ==
        Returned(if otherPubKey == HexEncode(p.edPub(serverPriv)) && otherVersion == version then Ok(Delivered(x))
                 else Err(AeadDecryptFailed))
  {
    var u := SealServerConnInfo(p, x, k, p.edPub(serverPriv), serverPriv, version, nonce).value.body;
    SealOpens(p, x, k, serverPriv, version, nonce);
    KeyHex(p.edPub(serverPriv));
    if otherPubKey == u.serverPubKey && otherVersion == u.version {
      assert u.(serverPubKey := otherPubKey, version := otherVersion) == u;
    } else {
      OpensOnlyInItsSlot(p, u, k, aads, otherPubKey, otherVersion);
    }
  }

  /** That hypothesis is consistent with the laws, for a sealed record and any associated data tried. */
  lemma BindingPlatformExists(x: ConnInfo, k: Bytes, serverPub: Bytes, version: int, nonce: Bytes, aads: set<Bytes>)
    returns (p: Platform)
    ensures Lawful(p) && BoundToItsAad(p, BodyOf(p, x, k, serverPub, version, nonce), k, aads)
  {
    var own := ConnInfoAad(HexEncode(serverPub), version);
    p := AadBindingPlatformExists(own);
    B.RoundTrip(nonce);
    B.RoundTrip(p.seal(k, nonce, Jcs.JcsBytes(ConnJson(x)), own));
  }

  // ----- the client's side (server-conninfo.ts) -----

  datatype ResolveError = NotFound | TowerSigInvalid | StaleKOrDecryptFailed | ShapeInvalid

  /** What Tower's answer for a server resolves to. */
  function Resolve(p: Platform, fetched: Option<Published>, k: Bytes): Outcome<Result<ConnInfo, ResolveError>> {
    match fetched
    case None => Returned(Err(NotFound))
    case Some(r) =>
      match VerifyConnInfoRecordSig(p, r)
      case Threw => Threw
      case Returned(false) => Returned(Err(TowerSigInvalid))
      case Returned(true) =>
        match OpenServerConnInfo(p, r.body, k)
        case Threw => Threw
        case Returned(Err(AeadDecryptFailed)) => Returned(Err(StaleKOrDecryptFailed))
        case Returned(Err(_)) => Returned(Err(ShapeInvalid))
        case Returned(Ok(x)) => Returned(Ok(x))
  }

  /** A client that holds K resolves what the server sealed. */
  lemma ResolvesWhatWasSealed(p: Platform, x: ConnInfo, k: Bytes, serverPriv: Bytes, version: int, nonce: Bytes)
    requires Lawful(p) && DistinctPaths(x) && ValidConn(x)
    requires SealServerConnInfo(p, x, k, p.edPub(serverPriv), serverPriv, version, nonce).Returned?
    ensures Resolve(p, Some(SealServerConnInfo(p, x, k, p.edPub(serverPriv), serverPriv, version, nonce).value), k) ==
            Returned(Ok(Delivered(x)))
  {
    SealOpens(p, x, k, serverPriv, version, nonce);
  }

  // ----- what each answer of Tower comes to -----

  /** The server key in the record signed its canonical bytes. */
  ghost predicate SignedByItsServer(p: Platform, r: Published) {
    && B.Decode(r.sig).Some? && HexDecode(r.body.serverPubKey).Some?
    && p.verify(ConnInfoCanonical(r.body), B.Decode(r.sig).value, HexDecode(r.body.serverPubKey).value)
  }

  /** Both sealed parts are base64url. */
  ghost predicate Decodable(u: Unsigned) {
    B.Decode(u.nonce).Some? && B.Decode(u.ct).Some?
  }

  /** What K makes of the sealed part; None when it does not decrypt. */
  ghost function Plaintext(p: Platform, u: Unsigned, k: Bytes): Option<Bytes>
    requires Decodable(u)
  {
    if |k| != 32 || |B.Decode(u.nonce).value| != 12 then None
    else p.open(k, B.Decode(u.nonce).value, B.Decode(u.ct).value, ConnInfoAad(u.serverPubKey, u.version))
  }

  /** The payload these bytes carry, if the schema accepts it. */
  ghost function PayloadIn(p: Platform, bytes: Bytes): Option<ConnInfo> {
    match ParseBytes(p, bytes) case None => None case Some(j) => ConnOf(j)
  }

  /** What opening reports: first decryption, then the schema, then the counter. */
  lemma OpensExactly(p: Platform, u: Unsigned, k: Bytes)
    ensures OpenServerConnInfo(p, u, k) == Threw <==> !Decodable(u)
    ensures Decodable(u) ==>
      var plain := Plaintext(p, u, k);
      match OpenServerConnInfo(p, u, k).value
      case Err(AeadDecryptFailed) => plain.None?
      case Err(PayloadShapeInvalid) => plain.Some? && PayloadIn(p, plain.value).None?
      case Err(RotationCounterMismatch) =>
        plain.Some? && PayloadIn(p, plain.value).Some? && PayloadIn(p, plain.value).value.rotationCounter != u.version
      case Ok(x) => plain.Some? && PayloadIn(p, plain.value) == Some(x) && x.rotationCounter == u.version
  {
  }

  /** For a record that passed the wire schema, the signature check says whether the server key in the
      record signed it. */
  lemma RecordSignatureExactly(p: Platform, r: Published)
    requires IsHex32(r.body.serverPubKey) && B.Decode(r.sig).Some?
    ensures VerifyConnInfoRecordSig(p, r) == Returned(SignedByItsServer(p, r))
  {
    HexDecodes(r.body.serverPubKey);
  }

  /** What each answer of Tower resolves to: no record, a record its server did not sign, one that does
      not decrypt under K, one whose content is refused, or the payload, which then was signed. */
  lemma ResolvesExactly(p: Platform, fetched: Option<Published>, k: Bytes)
    requires fetched.Some? ==> IsHex32(fetched.value.body.serverPubKey) && B.Decode(fetched.value.sig).Some?
    requires fetched.Some? ==> Decodable(fetched.value.body)
    ensures Resolve(p, fetched, k).Returned?
    ensures var r := Resolve(p, fetched, k).value;
      && (r == Err(NotFound) <==> fetched.None?)
      && (r == Err(TowerSigInvalid) <==> fetched.Some? && !SignedByItsServer(p, fetched.value))
      && (r == Err(StaleKOrDecryptFailed) <==>
            && fetched.Some? && SignedByItsServer(p, fetched.value) && Plaintext(p, fetched.value.body, k).None?)
      && (r.Ok? ==>
            && fetched.Some? && SignedByItsServer(p, fetched.value) && Plaintext(p, fetched.value.body, k).Some?
            && PayloadIn(p, Plaintext(p, fetched.value.body, k).value) == Some(r.value)
            && r.value.rotationCounter == fetched.value.body.version)
      && (r == Err(ShapeInvalid) ==>
            && fetched.Some? && SignedByItsServer(p, fetched.value) && Plaintext(p, fetched.value.body, k).Some?
            && var x := PayloadIn(p, Plaintext(p, fetched.value.body, k).value);
               x.None? || x.value.rotationCounter != fetched.value.body.version)
  {
    if fetched.Some? {
      RecordSignatureExactly(p, fetched.value);
      OpensExactly(p, fetched.value.body, k);
    }
  }

  /** A record its server signed passes the wire schema's checks of key and signature. */
  lemma SealedIsWellFormed(p: Platform, u: Unsigned, serverPriv: Bytes)
    requires Lawful(p) && u.serverPubKey == HexEncode(p.edPub(serverPriv))
    ensures var r := SignBody(p, u, serverPriv);
      IsHex32(u.serverPubKey) && B.Decode(r.sig).Some? && SignedByItsServer(p, r)
  {
    B.RoundTrip(p.sign(ConnInfoCanonical(u), serverPriv));
    KeyHex(p.edPub(serverPriv));
  }
}
