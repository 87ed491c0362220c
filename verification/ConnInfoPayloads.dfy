/** The connection-information payload a media server publishes: where and how to reach it. */
module ConnInfoPayloads {
  import opened Options
  import opened Json
  import opened Jcs
  import KeySort
  import opened Platform
  import opened Schemas

  /** `paths` is an object of strings, listed in the order of its members. */
  datatype ConnInfo = ConnInfo(
    fingerprint: Option<string>, issuedAtSec: int, paths: Option<seq<(string, string)>>, port: int, protocol: string,
    publicHost: string, rotationCounter: int)

  // ----- an object of strings -----

  function PathMember(x: (string, string)): Member {
    Member(x.0, Str(x.1))
  }

  function PathMembers(ps: seq<(string, string)>): seq<Member> {
    seq(|ps|, i requires 0 <= i < |ps| => PathMember(ps[i]))
  }

  function PathsJson(ps: seq<(string, string)>): Json {
    Obj(PathMembers(ps))
  }

  function PathsOf(j: Json): Option<seq<(string, string)>> {
    if j.Obj? && forall i :: 0 <= i < |j.members| ==> j.members[i].value.Str? then
      Some(seq(|j.members|, i requires 0 <= i < |j.members| && j.members[i].value.Str? =>
                 (j.members[i].key, j.members[i].value.s)))
    else None
  }

  function PathName(x: (string, string)): string {
    x.0
  }

  function SortedPaths(ps: seq<(string, string)>): seq<(string, string)> {
    KeySort.SortBy(PathName, ps)
  }

  lemma PathMembersStep(x: (string, string), ps: seq<(string, string)>)
    ensures PathMembers([x] + ps) == [PathMember(x)] + PathMembers(ps)
  {
  }

  lemma {:induction false} InsertPath(x: (string, string), ps: seq<(string, string)>)
    ensures KeySort.InsertBy(KeyOf, PathMember(x), PathMembers(ps)) == PathMembers(KeySort.InsertBy(PathName, x, ps))
  {
    PathMembersStep(x, ps);
    if ps != [] {
      var h, t := ps[0], ps[1..];
      assert ps == [h] + t;
      PathMembersStep(h, t);
      InsertPath(x, t);
      PathMembersStep(h, KeySort.InsertBy(PathName, x, t));
      assert PathMembers(ps)[1..] == PathMembers(t);
    }
  }

  lemma {:induction false} SortPaths(ps: seq<(string, string)>)
    ensures KeySort.SortBy(KeyOf, PathMembers(ps)) == PathMembers(SortedPaths(ps))
  {
    if ps != [] {
      assert ps == [ps[0]] + ps[1..];
      PathMembersStep(ps[0], ps[1..]);
      assert PathMembers(ps)[1..] == PathMembers(ps[1..]);
      SortPaths(ps[1..]);
      InsertPath(ps[0], SortedPaths(ps[1..]));
    }
  }

  /** Transport sorts the paths by name and changes nothing else. */
  lemma PathsRoundTrip(ps: seq<(string, string)>)
    requires KeySort.DistinctBy(PathName, ps)
    ensures WellFormed(PathsJson(ps)) && PathsOf(Canon(PathsJson(ps))) == Some(SortedPaths(ps))
  {
    var ms := PathMembers(ps);
    forall i, j | 0 <= i < j < |ms| ensures ms[i].key != ms[j].key {
      assert PathName(ps[i]) != PathName(ps[j]);
    }
    assert CanonMembers(ms) == ms;
    SortPaths(ps);
    assert Canon(PathsJson(ps)) == PathsJson(SortedPaths(ps));
    PathsOfMembers(SortedPaths(ps));
  }

  lemma PathsOfMembers(ps: seq<(string, string)>)
    ensures PathsOf(PathsJson(ps)) == Some(ps)
  {
    var ms := PathMembers(ps);
    forall i | 0 <= i < |ms| ensures ms[i].value.Str? && (ms[i].key, ms[i].value.s) == ps[i] {
      assert ms[i] == PathMember(ps[i]);
    }
    assert PathsOf(PathsJson(ps)).value == ps;
  }

  // ----- the payload -----

  const FIXED_KEYS := ["issuedAtSec", "port", "protocol", "publicHost", "rotationCounter", "v"]

  function ConnKeys(x: ConnInfo): seq<string> {
    FIXED_KEYS + (if x.fingerprint.Some? then ["fingerprint"] else []) + (if x.paths.Some? then ["paths"] else [])
  }

  function ConnValues(x: ConnInfo): seq<Json> {
    [Num(x.issuedAtSec), Num(x.port), Str(x.protocol), Str(x.publicHost), Num(x.rotationCounter), Num(1)]
    + (match x.fingerprint case Some(s) => [Str(s)] case None => [])
    + (match x.paths case Some(ps) => [PathsJson(ps)] case None => [])
  }

  function ConnJson(x: ConnInfo): Json {
    Record(ConnKeys(x), ConnValues(x))
  }

  function PathsAt(g: Getter): Option<seq<(string, string)>> {
    match g("paths") case Some(j) => PathsOf(j) case None => None
  }

  function ConnFrom(g: Getter): Option<ConnInfo> {
    if && (g("fingerprint").None? || HasHex32(g, "fingerprint"))
       && HasInt(g, "issuedAtSec") && (g("paths").None? || PathsAt(g).Some?)
       && HasInt(g, "port") && IntAt(g, "port") > 0
       && HasText(g, "protocol") && TextAt(g, "protocol") in {"http", "https"}
       && HasNonEmpty(g, "publicHost") && HasInt(g, "rotationCounter") && HasVersion1(g)
    then
      Some(ConnInfo(if g("fingerprint").None? then None else Some(TextAt(g, "fingerprint")), IntAt(g, "issuedAtSec"),
                    PathsAt(g), IntAt(g, "port"), TextAt(g, "protocol"), TextAt(g, "publicHost"),
                    IntAt(g, "rotationCounter")))
    else None
  }

  function ConnOf(j: Json): Option<ConnInfo> {
    ConnFrom(MembersOf(j))
  }

  predicate ValidConn(x: ConnInfo) {
    && (x.fingerprint.Some? ==> IsHex32(x.fingerprint.value))
    && IsSafeInt(x.issuedAtSec) && IsSafeInt(x.port) && x.port > 0 && x.protocol in {"http", "https"}
    && x.publicHost != "" && IsSafeInt(x.rotationCounter)
  }

  /** An object has each member once. */
  ghost predicate DistinctPaths(x: ConnInfo) {
    x.paths.Some? ==> KeySort.DistinctBy(PathName, x.paths.value)
  }

  function Delivered(x: ConnInfo): ConnInfo {
    x.(paths := match x.paths case None => None case Some(ps) => Some(SortedPaths(ps)))
  }

  lemma RecordLacks(keys: seq<string>, vals: seq<Json>, k: string)
    requires |keys| == |vals| && Names(keys) && (forall i :: 0 <= i < |vals| ==> WellFormed(vals[i])) && k !in keys
    ensures MembersOf(Canon(Record(keys, vals)))(k) == None
  {
    var v := Record(keys, vals);
    RecordReads(keys, vals);
    GetCanon(v, k);
    assert forall i :: 0 <= i < |v.members| ==> v.members[i].key == keys[i];
  }

  ghost predicate HoldsFixed(g: Getter, x: ConnInfo) {
    && g("issuedAtSec") == Some(Num(x.issuedAtSec)) && g("port") == Some(Num(x.port))
    && g("protocol") == Some(Str(x.protocol)) && g("publicHost") == Some(Str(x.publicHost))
    && g("rotationCounter") == Some(Num(x.rotationCounter)) && g("v") == Some(Num(1))
  }

  ghost predicate HoldsOptional(g: Getter, x: ConnInfo) {
    && g("fingerprint") == (match x.fingerprint case Some(s) => Some(Str(s)) case None => None)
    && g("paths") == (match x.paths case Some(ps) => Some(Canon(PathsJson(ps))) case None => None)
  }

  lemma ConnNames(x: ConnInfo)
    ensures Names(ConnKeys(x)) && |ConnKeys(x)| == |ConnValues(x)|
  {
  }

  lemma ConnWellFormed(x: ConnInfo)
    requires DistinctPaths(x)
    ensures forall i :: 0 <= i < |ConnValues(x)| ==> WellFormed(ConnValues(x)[i])
  {
    if x.paths.Some? { PathsRoundTrip(x.paths.value); }
    forall i | 0 <= i < |ConnValues(x)| ensures WellFormed(ConnValues(x)[i]) {
      var v := ConnValues(x)[i];
      assert v.Num? || v.Str? || (x.paths.Some? && v == PathsJson(x.paths.value));
    }
  }

  lemma FixedNames(g: Getter, x: ConnInfo)
    requires Reads(g, ConnKeys(x), ConnValues(x))
    ensures HoldsFixed(g, x)
  {
    var ks, vs := ConnKeys(x), ConnValues(x);
    assert ks[0] == "issuedAtSec" && ks[1] == "port" && ks[2] == "protocol" && ks[3] == "publicHost";
    assert ks[4] == "rotationCounter" && ks[5] == "v";
    assert g(ks[0]) == Some(vs[0]) && g(ks[1]) == Some(vs[1]) && g(ks[2]) == Some(vs[2]) && g(ks[3]) == Some(vs[3]);
    assert g(ks[4]) == Some(vs[4]) && g(ks[5]) == Some(vs[5]);
  }

  /** A member that is there only sometimes. */
  lemma OptionalMember(keys: seq<string>, vals: seq<Json>, k: string, i: Option<nat>)
    requires |keys| == |vals| && Names(keys) && forall j :: 0 <= j < |vals| ==> WellFormed(vals[j])
    requires match i case Some(n) => n < |keys| && keys[n] == k case None => k !in keys
    ensures MembersOf(Canon(Record(keys, vals)))(k) == match i case Some(n) => Some(Canon(vals[n])) case None => None
  {
    RecordReads(keys, vals);
    if i.None? { RecordLacks(keys, vals, k); }
  }

  function FingerprintAt(x: ConnInfo): Option<nat> {
    if x.fingerprint.Some? then Some(6) else None
  }

  function PathsIndex(x: ConnInfo): Option<nat> {
    if x.paths.None? then None else if x.fingerprint.Some? then Some(7) else Some(6)
  }

  lemma Positions(x: ConnInfo)
    ensures match FingerprintAt(x)
            case Some(n) => n < |ConnKeys(x)| == |ConnValues(x)| && ConnKeys(x)[n] == "fingerprint"
                            && ConnValues(x)[n] == Str(x.fingerprint.value)
            case None => "fingerprint" !in ConnKeys(x)
    ensures match PathsIndex(x)
            case Some(n) => n < |ConnKeys(x)| == |ConnValues(x)| && ConnKeys(x)[n] == "paths"
                            && ConnValues(x)[n] == PathsJson(x.paths.value)
            case None => "paths" !in ConnKeys(x)
  {
  }

  lemma OptionalNames(x: ConnInfo)
    requires DistinctPaths(x)
    ensures HoldsOptional(MembersOf(Canon(ConnJson(x))), x)
  {
    ConnNames(x);
    ConnWellFormed(x);
    Positions(x);
    OptionalMember(ConnKeys(x), ConnValues(x), "fingerprint", FingerprintAt(x));
    OptionalMember(ConnKeys(x), ConnValues(x), "paths", PathsIndex(x));
  }

  lemma PathsRead(g: Getter, x: ConnInfo)
    requires DistinctPaths(x) && HoldsOptional(g, x)
    ensures PathsAt(g) == Delivered(x).paths && (g("paths").None? <==> x.paths.None?)
  {
    if x.paths.Some? { PathsRoundTrip(x.paths.value); }
  }

  lemma ConnReads(g: Getter, x: ConnInfo)
    requires HoldsFixed(g, x) && HoldsOptional(g, x) && PathsAt(g) == Delivered(x).paths
    requires g("paths").None? <==> x.paths.None?
    ensures ConnFrom(g) == if ValidConn(x) then Some(Delivered(x)) else None
  {
    assert TextAt(g, "protocol") == x.protocol && TextAt(g, "publicHost") == x.publicHost;
    assert x.fingerprint.Some? ==> TextAt(g, "fingerprint") == x.fingerprint.value;
  }

  lemma ConnRoundTrip(x: ConnInfo)
    requires DistinctPaths(x)
    ensures WellFormed(ConnJson(x)) && ConnOf(Canon(ConnJson(x))) == if ValidConn(x) then Some(Delivered(x)) else None
  {
    var g := MembersOf(Canon(ConnJson(x)));
    ConnNames(x);
    ConnWellFormed(x);
    RecordReads(ConnKeys(x), ConnValues(x));
    FixedNames(g, x);
    OptionalNames(x);
    PathsRead(g, x);
    ConnReads(g, x);
  }
}
