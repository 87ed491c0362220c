/** The records that are signed or sealed as JSON, and the wire schemas that read them back.  Each
    `XOf` accepts what the schema accepts (unknown members are ignored) and each `XJson` is the
    object the SDK builds; `XRoundTrip` says the schema reads the canonical form back unchanged. */
module Schemas {
  import opened Options
  import opened Json
  import opened Jcs
  import opened Platform
  import B = Base64Url

  // ----- reading members -----

  /** How a schema looks at an object: by member name. */
  type Getter = string -> Option<Json>

  function MembersOf(j: Json): Getter {
    (k: string) => Get(j, k)
  }

  function TextAt(g: Getter, k: string): string {
    match g(k) case Some(Str(s)) => s case _ => ""
  }

  function IntAt(g: Getter, k: string): int {
    match g(k) case Some(Num(n)) => n case _ => 0
  }

  predicate HasText(g: Getter, k: string) {
    g(k).Some? && g(k).value.Str?
  }

  predicate HasNonEmpty(g: Getter, k: string) {
    HasText(g, k) && TextAt(g, k) != ""
  }

  predicate HasHex32(g: Getter, k: string) {
    HasText(g, k) && IsHex32(TextAt(g, k))
  }

  predicate HasBase64Url(g: Getter, k: string) {
    HasText(g, k) && B.IsBase64Url(TextAt(g, k))
  }

  /** z.number().int(): a safe integer. */
  predicate HasInt(g: Getter, k: string) {
    g(k).Some? && g(k).value.Num? && IsSafeInt(g(k).value.n)
  }

  predicate HasVersion1(g: Getter) {
    g("v") == Some(Num(1))
  }

  /** An object literal with these member names, in order. */
  function Record(keys: seq<string>, vals: seq<Json>): Json
    requires |keys| == |vals|
  {
    Obj(seq(|keys|, i requires 0 <= i < |keys| => Member(keys[i], vals[i])))
  }

  ghost predicate Reads(g: Getter, keys: seq<string>, vals: seq<Json>) {
    |keys| == |vals| && forall i :: 0 <= i < |keys| ==> g(keys[i]) == Some(Canon(vals[i]))
  }

  ghost predicate Names(keys: seq<string>) {
    forall i, j :: 0 <= i < j < |keys| ==> keys[i] != keys[j]
  }

  /** Every member of a literal can be read back from its canonical form. */
  lemma RecordReads(keys: seq<string>, vals: seq<Json>)
    requires |keys| == |vals| && Names(keys) && forall i :: 0 <= i < |vals| ==> WellFormed(vals[i])
    ensures WellFormed(Record(keys, vals)) && Reads(MembersOf(Canon(Record(keys, vals))), keys, vals)
  {
    var v := Record(keys, vals);
    assert forall i :: 0 <= i < |keys| ==> v.members[i] == Member(keys[i], vals[i]);
    forall i | 0 <= i < |keys| ensures MembersOf(Canon(v))(keys[i]) == Some(Canon(vals[i])) {
      GetMember(v, i);
      GetCanon(v, keys[i]);
    }
  }

  // ----- lists -----

  function ReadAll<T>(read: Json -> Option<T>, es: seq<Json>): Option<seq<T>> {
    if es == [] then Some([])
    else
      match (ReadAll(read, es[..|es| - 1]), read(es[|es| - 1]))
      case (Some(init), Some(x)) => Some(init + [x])
      case _ => None
  }

  function WriteAll<T>(write: T -> Json, xs: seq<T>): seq<Json> {
    seq(|xs|, i requires 0 <= i < |xs| => write(xs[i]))
  }

  predicate AllValid<T>(valid: T -> bool, xs: seq<T>) {
    forall i :: 0 <= i < |xs| ==> valid(xs[i])
  }

  lemma AllValidMore<T>(valid: T -> bool, xs: seq<T>, x: T)
    ensures AllValid(valid, xs + [x]) <==> AllValid(valid, xs) && valid(x)
  {
    assert forall i :: 0 <= i < |xs| ==> (xs + [x])[i] == xs[i];
    assert (xs + [x])[|xs|] == x;
  }

  lemma {:induction false} CanonElemsSplit(es: seq<Json>, e: Json)
    ensures CanonElems(es + [e]) == CanonElems(es) + [Canon(e)]
  {
    if es != [] {
      CanonElemsSplit(es[1..], e);
      assert (es + [e])[1..] == es[1..] + [e];
    }
  }

  lemma ReadAllMore<T>(read: Json -> Option<T>, es: seq<Json>, e: Json)
    ensures ReadAll(read, es + [e]) ==
      match (ReadAll(read, es), read(e))
      case (Some(init), Some(x)) => Some(init + [x])
      case _ => None
  {
    assert (es + [e])[..|es|] == es;
  }

  lemma WriteAllMore<T>(write: T -> Json, xs: seq<T>, x: T)
    ensures WriteAll(write, xs + [x]) == WriteAll(write, xs) + [write(x)]
  {
  }

  lemma OneMoreReads<T>(read: Json -> Option<T>, write: T -> Json, valid: T -> bool, xs: seq<T>, x: T)
    requires ReadAll(read, CanonElems(WriteAll(write, xs))) == if AllValid(valid, xs) then Some(xs) else None
    requires read(Canon(write(x))) == if valid(x) then Some(x) else None
    ensures ReadAll(read, CanonElems(WriteAll(write, xs + [x]))) ==
            if AllValid(valid, xs + [x]) then Some(xs + [x]) else None
  {
    WriteAllMore(write, xs, x);
    CanonElemsSplit(WriteAll(write, xs), write(x));
    ReadAllMore(read, CanonElems(WriteAll(write, xs)), Canon(write(x)));
    AllValidMore(valid, xs, x);
  }

  lemma {:induction false} ElementsReadBack<T(!new)>(read: Json -> Option<T>, write: T -> Json, valid: T -> bool,
                                                     xs: seq<T>)
    requires forall x :: read(Canon(write(x))) == if valid(x) then Some(x) else None
    ensures ReadAll(read, CanonElems(WriteAll(write, xs))) == if AllValid(valid, xs) then Some(xs) else None
  {
    if xs != [] {
      var n := |xs| - 1;
      ElementsReadBack(read, write, valid, xs[..n]);
      OneMoreReads(read, write, valid, xs[..n], xs[n]);
      assert xs == xs[..n] + [xs[n]];
    }
  }

  /** A list reads back exactly when every element does. */
  lemma ListRoundTrip<T(!new)>(read: Json -> Option<T>, write: T -> Json, valid: T -> bool, xs: seq<T>)
    requires forall x :: WellFormed(write(x)) && read(Canon(write(x))) == if valid(x) then Some(x) else None
    ensures WellFormed(Arr(WriteAll(write, xs)))
    ensures ReadAll(read, CanonElems(WriteAll(write, xs))) == if AllValid(valid, xs) then Some(xs) else None
  {
    ElementsReadBack(read, write, valid, xs);
  }

  function TextOf(j: Json): Option<string> {
    match j case Str(s) => Some(s) case _ => None
  }

  function TextsJson(ss: seq<string>): seq<Json> {
    WriteAll(s => Str(s), ss)
  }

  lemma TextsRoundTrip(ss: seq<string>)
    ensures WellFormed(Arr(TextsJson(ss))) && ReadAll(TextOf, CanonElems(TextsJson(ss))) == Some(ss)
  {
    ListRoundTrip(TextOf, s => Str(s), s => true, ss);
  }

  function TextsAt(g: Getter, k: string): Option<seq<string>> {
    match g(k) case Some(Arr(es)) => ReadAll(TextOf, es) case _ => None
  }

  // ----- client delegation certificates (packages/core/src/schemas/cert.ts) -----

  datatype CertPayload = CertPayload(
    appId: string, clientEncPubKey: string, clientId: string, clientPubKey: string, deviceName: string,
    exp: int, iat: int, scope: seq<string>, userEncPubKey: string, userId: string, userPubKey: string)

  predicate UuidChars(s: string, n: nat)
    requires n <= |s|
  {
    n == 0
    || (UuidChars(s, n - 1)
        && if n - 1 in {8, 13, 18, 23} then s[n - 1] == '-' else HexValueAnyCase(s[n - 1]).Some?)
  }

  /** zod's z.uuid(): RFC 9562 versions 1 to 8, or the nil or the max UUID. */
  predicate IsUuid(s: string) {
    || s == "00000000-0000-0000-0000-000000000000"
    || s == "ffffffff-ffff-ffff-ffff-ffffffffffff"
    || (|s| == 36 && UuidChars(s, 36) && '1' <= s[14] <= '8' && s[19] in {'8', '9', 'a', 'b', 'A', 'B'})
  }

  const CERT_KEYS := ["appId", "clientEncPubKey", "clientId", "clientPubKey", "deviceName", "exp", "iat", "scope",
                      "userEncPubKey", "userId", "userPubKey", "v"]

  function CertValues(c: CertPayload): seq<Json> {
    [Str(c.appId), Str(c.clientEncPubKey), Str(c.clientId), Str(c.clientPubKey), Str(c.deviceName), Num(c.exp),
     Num(c.iat), Arr(TextsJson(c.scope)), Str(c.userEncPubKey), Str(c.userId), Str(c.userPubKey), Num(1)]
  }

  function CertJson(c: CertPayload): Json {
    Record(CERT_KEYS, CertValues(c))
  }

  predicate CertShape(g: Getter) {
    && HasNonEmpty(g, "appId") && HasHex32(g, "clientEncPubKey")
    && HasText(g, "clientId") && IsUuid(TextAt(g, "clientId"))
    && HasHex32(g, "clientPubKey") && HasNonEmpty(g, "deviceName") && HasInt(g, "exp") && HasInt(g, "iat")
    && TextsAt(g, "scope").Some? && HasHex32(g, "userEncPubKey") && HasNonEmpty(g, "userId")
    && HasHex32(g, "userPubKey") && HasVersion1(g)
  }

  function CertFrom(g: Getter): Option<CertPayload> {
    if CertShape(g) then
      Some(CertPayload(TextAt(g, "appId"), TextAt(g, "clientEncPubKey"), TextAt(g, "clientId"),
                       TextAt(g, "clientPubKey"), TextAt(g, "deviceName"), IntAt(g, "exp"), IntAt(g, "iat"),
                       TextsAt(g, "scope").value, TextAt(g, "userEncPubKey"), TextAt(g, "userId"),
                       TextAt(g, "userPubKey")))
    else None
  }

  function CertOf(j: Json): Option<CertPayload> {
    CertFrom(MembersOf(j))
  }

  predicate ValidCert(c: CertPayload) {
    && c.appId != "" && IsHex32(c.clientEncPubKey) && IsUuid(c.clientId) && IsHex32(c.clientPubKey)
    && c.deviceName != "" && IsSafeInt(c.exp) && IsSafeInt(c.iat) && IsHex32(c.userEncPubKey)
    && c.userId != "" && IsHex32(c.userPubKey)
  }

  ghost predicate HoldsCert(g: Getter, c: CertPayload) {
    && g("appId") == Some(Str(c.appId)) && g("clientEncPubKey") == Some(Str(c.clientEncPubKey))
    && g("clientId") == Some(Str(c.clientId)) && g("clientPubKey") == Some(Str(c.clientPubKey))
    && g("deviceName") == Some(Str(c.deviceName)) && g("exp") == Some(Num(c.exp)) && g("iat") == Some(Num(c.iat))
    && g("scope") == Some(Arr(CanonElems(TextsJson(c.scope)))) && g("userEncPubKey") == Some(Str(c.userEncPubKey))
    && g("userId") == Some(Str(c.userId)) && g("userPubKey") == Some(Str(c.userPubKey)) && g("v") == Some(Num(1))
  }

  lemma CertNames(g: Getter, c: CertPayload)
    requires Reads(g, CERT_KEYS, CertValues(c))
    ensures HoldsCert(g, c)
  {
    var ks, vs := CERT_KEYS, CertValues(c);
    assert g(ks[0]) == Some(vs[0]) && g(ks[1]) == Some(vs[1]) && g(ks[2]) == Some(vs[2]) && g(ks[3]) == Some(vs[3]);
    assert g(ks[4]) == Some(vs[4]) && g(ks[5]) == Some(vs[5]) && g(ks[6]) == Some(vs[6]);
    assert g(ks[7]) == Some(Canon(vs[7]));
    assert g(ks[8]) == Some(vs[8]) && g(ks[9]) == Some(vs[9]) && g(ks[10]) == Some(vs[10]) && g(ks[11]) == Some(vs[11]);
  }

  lemma CertScope(g: Getter, ss: seq<string>)
    requires g("scope") == Some(Arr(CanonElems(TextsJson(ss))))
    ensures TextsAt(g, "scope") == Some(ss)
  {
    TextsRoundTrip(ss);
  }

  lemma TextLeaf(g: Getter, k: string, s: string)
    requires g(k) == Some(Str(s))
    ensures HasText(g, k) && TextAt(g, k) == s && (HasNonEmpty(g, k) <==> s != "") && (HasHex32(g, k) <==> IsHex32(s))
  {
  }

  /** The shape holds of exactly the valid payloads. */
  lemma CertHasShape(g: Getter, c: CertPayload)
    requires HoldsCert(g, c) && TextsAt(g, "scope") == Some(c.scope)
    ensures CertShape(g) <==> ValidCert(c)
  {
    TextLeaf(g, "appId", c.appId);
    TextLeaf(g, "clientEncPubKey", c.clientEncPubKey);
    TextLeaf(g, "clientId", c.clientId);
    TextLeaf(g, "clientPubKey", c.clientPubKey);
    TextLeaf(g, "deviceName", c.deviceName);
    TextLeaf(g, "userEncPubKey", c.userEncPubKey);
    TextLeaf(g, "userId", c.userId);
    TextLeaf(g, "userPubKey", c.userPubKey);
  }

  lemma CertReads(g: Getter, c: CertPayload)
    requires HoldsCert(g, c) && CertShape(g) && TextsAt(g, "scope") == Some(c.scope)
    ensures CertFrom(g) == Some(c)
  {
  }

  lemma CertGetter(g: Getter, c: CertPayload)
    requires Reads(g, CERT_KEYS, CertValues(c))
    ensures HoldsCert(g, c) && CertFrom(g) == if ValidCert(c) then Some(c) else None
  {
    CertNames(g, c);
    CertScope(g, c.scope);
    CertHasShape(g, c);
    if ValidCert(c) { CertReads(g, c); }
  }

  predicate Leaf(v: Json) {
    v.Str? || v.Num?
  }

  /** A row of leaves with one other value in it. */
  lemma LeavesAndOne(vs: seq<Json>, k: nat)
    requires k < |vs| && WellFormed(vs[k]) && forall i :: 0 <= i < |vs| && i != k ==> Leaf(vs[i])
    ensures forall i :: 0 <= i < |vs| ==> WellFormed(vs[i])
  {
    forall i | 0 <= i < |vs| ensures WellFormed(vs[i]) {
      if i != k { assert Leaf(vs[i]); }
    }
  }

  lemma CertLeaves(c: CertPayload)
    ensures var vs := CertValues(c);
      |vs| == 12 && vs[7] == Arr(TextsJson(c.scope)) && forall i :: 0 <= i < 12 && i != 7 ==> Leaf(vs[i])
  {
  }

  lemma CertWellFormed(c: CertPayload)
    ensures forall i :: 0 <= i < |CertValues(c)| ==> WellFormed(CertValues(c)[i])
  {
    TextsRoundTrip(c.scope);
    CertLeaves(c);
    LeavesAndOne(CertValues(c), 7);
  }

  /** The wire form names every field, and the schema reads back exactly the payloads that meet it. */
  lemma CertRoundTrip(c: CertPayload)
    ensures WellFormed(CertJson(c)) && HoldsCert(MembersOf(Canon(CertJson(c))), c)
    ensures CertOf(Canon(CertJson(c))) == if ValidCert(c) then Some(c) else None
  {
    CertWellFormed(c);
    RecordReads(CERT_KEYS, CertValues(c));
    CertGetter(MembersOf(Canon(CertJson(c))), c);
  }

  // ----- M-signed pairing assertions (packages/core/src/schemas/assertions.ts) -----

  datatype PairKind = ServerLink | ServerSignIn | OperatorLink

  function KindText(k: PairKind): string {
    match k
    case ServerLink => "server-link"
    case ServerSignIn => "server-sign-in"
    case OperatorLink => "operator-link"
  }

  datatype AssertionPayload = AssertionPayload(
    kind: PairKind, requestId: string, serverPubKey: string, ts: int, userEncPubKey: string, userId: string,
    userPubKey: string)

  const ASSERTION_KEYS := ["kind", "requestId", "serverPubKey", "ts", "userEncPubKey", "userId", "userPubKey", "v"]

  function AssertionValues(a: AssertionPayload): seq<Json> {
    [Str(KindText(a.kind)), Str(a.requestId), Str(a.serverPubKey), Num(a.ts), Str(a.userEncPubKey), Str(a.userId),
     Str(a.userPubKey), Num(1)]
  }

  function AssertionJson(a: AssertionPayload): Json {
    Record(ASSERTION_KEYS, AssertionValues(a))
  }

  /** The schema of one kind; another kind's payload is refused by its literal. */
  function AssertionFrom(g: Getter, kind: PairKind): Option<AssertionPayload> {
    if && HasText(g, "kind") && TextAt(g, "kind") == KindText(kind) && HasNonEmpty(g, "requestId")
       && HasHex32(g, "serverPubKey") && HasInt(g, "ts") && HasHex32(g, "userEncPubKey") && HasNonEmpty(g, "userId")
       && HasHex32(g, "userPubKey") && HasVersion1(g)
    then
      Some(AssertionPayload(kind, TextAt(g, "requestId"), TextAt(g, "serverPubKey"), IntAt(g, "ts"),
                            TextAt(g, "userEncPubKey"), TextAt(g, "userId"), TextAt(g, "userPubKey")))
    else None
  }

  function AssertionOf(j: Json, kind: PairKind): Option<AssertionPayload> {
    AssertionFrom(MembersOf(j), kind)
  }

  predicate ValidAssertion(a: AssertionPayload) {
    && a.requestId != "" && IsHex32(a.serverPubKey) && IsSafeInt(a.ts) && IsHex32(a.userEncPubKey)
    && a.userId != "" && IsHex32(a.userPubKey)
  }

  ghost predicate HoldsAssertion(g: Getter, a: AssertionPayload) {
    && g("kind") == Some(Str(match a.kind
                             case ServerLink => "server-link"
                             case ServerSignIn => "server-sign-in"
                             case OperatorLink => "operator-link"))
    && g("requestId") == Some(Str(a.requestId))
    && g("serverPubKey") == Some(Str(a.serverPubKey)) && g("ts") == Some(Num(a.ts))
    && g("userEncPubKey") == Some(Str(a.userEncPubKey)) && g("userId") == Some(Str(a.userId))
    && g("userPubKey") == Some(Str(a.userPubKey)) && g("v") == Some(Num(1))
  }

  lemma AssertionNames(g: Getter, a: AssertionPayload)
    requires Reads(g, ASSERTION_KEYS, AssertionValues(a))
    ensures HoldsAssertion(g, a)
  {
    var ks, vs := ASSERTION_KEYS, AssertionValues(a);
    assert g(ks[0]) == Some(vs[0]) && g(ks[1]) == Some(vs[1]) && g(ks[2]) == Some(vs[2]) && g(ks[3]) == Some(vs[3]);
    assert g(ks[4]) == Some(vs[4]) && g(ks[5]) == Some(vs[5]) && g(ks[6]) == Some(vs[6]) && g(ks[7]) == Some(vs[7]);
  }

  lemma AssertionReads(g: Getter, a: AssertionPayload, kind: PairKind)
    requires HoldsAssertion(g, a)
    ensures AssertionFrom(g, kind) == if a.kind == kind && ValidAssertion(a) then Some(a) else None
  {
    TextLeaf(g, "requestId", a.requestId);
    TextLeaf(g, "serverPubKey", a.serverPubKey);
    TextLeaf(g, "userEncPubKey", a.userEncPubKey);
    TextLeaf(g, "userId", a.userId);
    TextLeaf(g, "userPubKey", a.userPubKey);
    TextLeaf(g, "kind", KindText(a.kind));
    assert KindText(a.kind) == KindText(kind) <==> a.kind == kind;
  }

  /** The wire form names every field, and its own kind's schema reads back exactly the valid ones. */
  lemma AssertionRoundTrip(a: AssertionPayload, kind: PairKind)
    ensures WellFormed(AssertionJson(a)) && HoldsAssertion(MembersOf(Canon(AssertionJson(a))), a)
    ensures AssertionOf(Canon(AssertionJson(a)), kind) == if a.kind == kind && ValidAssertion(a) then Some(a) else None
  {
    RecordReads(ASSERTION_KEYS, AssertionValues(a));
    AssertionNames(MembersOf(Canon(AssertionJson(a))), a);
    AssertionReads(MembersOf(Canon(AssertionJson(a))), a, kind);
  }

  // ----- the sealed pairing response (packages/core/src/schemas/conn-info.ts) -----

  datatype ResponseSealed = ResponseSealed(connInfoKey: string, issuedAtSec: int, serverPubKey: string)

  const RESPONSE_KEYS := ["connInfoKey", "issuedAtSec", "serverPubKey", "v"]

  function ResponseValues(r: ResponseSealed): seq<Json> {
    [Str(r.connInfoKey), Num(r.issuedAtSec), Str(r.serverPubKey), Num(1)]
  }

  function ResponseJson(r: ResponseSealed): Json {
    Record(RESPONSE_KEYS, ResponseValues(r))
  }

  function ResponseFrom(g: Getter): Option<ResponseSealed> {
    if HasBase64Url(g, "connInfoKey") && HasInt(g, "issuedAtSec") && HasHex32(g, "serverPubKey") && HasVersion1(g)
    then Some(ResponseSealed(TextAt(g, "connInfoKey"), IntAt(g, "issuedAtSec"), TextAt(g, "serverPubKey")))
    else None
  }

  function ResponseOf(j: Json): Option<ResponseSealed> {
    ResponseFrom(MembersOf(j))
  }

  ghost predicate HoldsResponse(g: Getter, r: ResponseSealed) {
    && g("connInfoKey") == Some(Str(r.connInfoKey)) && g("issuedAtSec") == Some(Num(r.issuedAtSec))
    && g("serverPubKey") == Some(Str(r.serverPubKey)) && g("v") == Some(Num(1))
  }

  lemma ResponseNames(g: Getter, r: ResponseSealed)
    requires Reads(g, RESPONSE_KEYS, ResponseValues(r))
    ensures HoldsResponse(g, r)
  {
    var ks, vs := RESPONSE_KEYS, ResponseValues(r);
    assert g(ks[0]) == Some(vs[0]) && g(ks[1]) == Some(vs[1]) && g(ks[2]) == Some(vs[2]) && g(ks[3]) == Some(vs[3]);
  }

  predicate ValidResponse(r: ResponseSealed) {
    B.IsBase64Url(r.connInfoKey) && IsSafeInt(r.issuedAtSec) && IsHex32(r.serverPubKey)
  }

  lemma ResponseReads(g: Getter, r: ResponseSealed)
    requires HoldsResponse(g, r)
    ensures ResponseFrom(g) == if ValidResponse(r) then Some(r) else None
  {
    TextLeaf(g, "connInfoKey", r.connInfoKey);
    TextLeaf(g, "serverPubKey", r.serverPubKey);
  }

  /** The wire form names every field, and the schema reads back exactly the payloads that meet it. */
  lemma ResponseRoundTrip(r: ResponseSealed)
    ensures WellFormed(ResponseJson(r)) && HoldsResponse(MembersOf(Canon(ResponseJson(r))), r)
    ensures ResponseOf(Canon(ResponseJson(r))) == if ValidResponse(r) then Some(r) else None
  {
    RecordReads(RESPONSE_KEYS, ResponseValues(r));
    ResponseNames(MembersOf(Canon(ResponseJson(r))), r);
    ResponseReads(MembersOf(Canon(ResponseJson(r))), r);
  }
}
