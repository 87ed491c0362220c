/** JSON values, their text and their canonical form.
    `Print` is JSON.stringify without white space, `Parse` is JSON.parse, and `Jcs` is the JSON
    Canonicalization Scheme: sections 3.2.2 and 3.2.3 of RFC 8785.  Numbers are integers. */
module Json {
  import opened Options
  import opened Text

  datatype Json =
    | Null
    | Bool(b: bool)
    | Num(n: int)
    | Str(s: string)
    | Arr(elems: seq<Json>)
    | Obj(members: seq<Member>)

  datatype Member = Member(key: string, value: Json)

  predicate UniqueKeys(ms: seq<Member>) {
    forall i, j :: 0 <= i < j < |ms| ==> ms[i].key != ms[j].key
  }

  /** What a JavaScript object graph satisfies: no object has two members of the same name. */
  predicate WellFormed(v: Json) {
    match v
    case Arr(es) => forall i :: 0 <= i < |es| ==> WellFormed(es[i])
    case Obj(ms) => UniqueKeys(ms) && forall i :: 0 <= i < |ms| ==> WellFormed(ms[i].value)
    case _ => true
  }

  // ----- member access -----

  function IndexOf(ms: seq<Member>, k: string): (i: int)
    ensures -1 <= i < |ms|
    ensures 0 <= i ==> ms[i].key == k
    ensures i == -1 ==> forall j :: 0 <= j < |ms| ==> ms[j].key != k
  {
    if ms == [] then -1
    else if ms[0].key == k then 0
    else var i := IndexOf(ms[1..], k); if i < 0 then -1 else i + 1
  }

  function Get(v: Json, k: string): Option<Json> {
    if !v.Obj? then None
    else var i := IndexOf(v.members, k); if i < 0 then None else Some(v.members[i].value)
  }

  lemma GetMember(v: Json, i: nat)
    requires v.Obj? && UniqueKeys(v.members) && i < |v.members|
    ensures Get(v, v.members[i].key) == Some(v.members[i].value)
  {
    var j := IndexOf(v.members, v.members[i].key);
    assert j == i by { if 0 <= j < i {} else if i < j {} }
  }

  // ----- text; every printer takes the text that follows -----

  function Digit(n: int): char
    requires 0 <= n < 10
  {
    '0' + n as char
  }

  function PrintNat(n: nat, rest: string): string {
    if n < 10 then [Digit(n)] + rest else PrintNat(n / 10, [Digit(n % 10)] + rest)
  }

  function EscapeChar(c: char, rest: string): string {
    if c == '"' then ['\\', '"'] + rest
    else if c == '\\' then ['\\', '\\'] + rest
    else if c == '\U{0008}' then ['\\', 'b'] + rest
    else if c == '\t' then ['\\', 't'] + rest
    else if c == '\n' then ['\\', 'n'] + rest
    else if c == '\U{000C}' then ['\\', 'f'] + rest
    else if c == '\r' then ['\\', 'r'] + rest
    else if c < ' ' then ['\\', 'u', '0', '0', HexDigit(c as int / 16), HexDigit(c as int % 16)] + rest
    else [c] + rest
  }

  function Escape(s: string, rest: string): string {
    if s == "" then rest else EscapeChar(s[0], Escape(s[1..], rest))
  }

  function PrintStr(s: string, rest: string): string {
    ['"'] + Escape(s, ['"'] + rest)
  }

  function PrintOn(v: Json, rest: string): string
    decreases v, 0
  {
    match v
    case Null => "null" + rest
    case Bool(b) => (if b then "true" else "false") + rest
    case Num(n) => if n < 0 then ['-'] + PrintNat(-n, rest) else PrintNat(n, rest)
    case Str(s) => PrintStr(s, rest)
    case Arr(es) => ['['] + if es == [] then [']'] + rest else PrintElems(es, rest)
    case Obj(ms) => ['{'] + if ms == [] then ['}'] + rest else PrintMembers(ms, rest)
  }

  function PrintElems(es: seq<Json>, rest: string): string
    requires es != []
    decreases es, 0
  {
    PrintOn(es[0], if |es| == 1 then [']'] + rest else [','] + PrintElems(es[1..], rest))
  }

  function PrintMembers(ms: seq<Member>, rest: string): string
    requires ms != []
    decreases ms, 0
  {
    PrintStr(ms[0].key, [':'] + PrintOn(ms[0].value,
                                        if |ms| == 1 then ['}'] + rest else [','] + PrintMembers(ms[1..], rest)))
  }

  function Print(v: Json): string {
    PrintOn(v, "")
  }

  // ----- parsing -----

  predicate IsSpace(c: char) {
    c == ' ' || c == '\t' || c == '\n' || c == '\r'
  }

  predicate IsDigit(c: char) {
    '0' <= c <= '9'
  }

  function SkipSpace(s: string): (t: string)
    ensures |t| <= |s|
    ensures s == "" || !IsSpace(s[0]) ==> t == s
  {
    if s != "" && IsSpace(s[0]) then SkipSpace(s[1..]) else s
  }

  function ParseDigits(s: string, acc: nat): (r: (nat, string))
    ensures |r.1| <= |s|
    ensures s != "" && IsDigit(s[0]) ==> |r.1| < |s|
  {
    if s == "" || !IsDigit(s[0]) then (acc, s)
    else ParseDigits(s[1..], 10 * acc + (s[0] as int - '0' as int))
  }

  /** The characters that would continue a number. */
  predicate ContinuesNumber(s: string) {
    s != "" && (IsDigit(s[0]) || s[0] == '.' || s[0] == 'e' || s[0] == 'E')
  }

  function ParseNat(s: string): (r: Option<(nat, string)>)
    ensures r.Some? ==> |r.value.1| < |s|
  {
    if s == "" || !IsDigit(s[0]) || (s[0] == '0' && |s| > 1 && IsDigit(s[1])) then None
    else
      var r := ParseDigits(s, 0);
      if ContinuesNumber(r.1) then None else Some(r)
  }

  function HexValueAnyCase(c: char): (v: Option<int>)
    ensures v.Some? ==> 0 <= v.value < 16
    ensures HexValue(c).Some? ==> v == HexValue(c)
  {
    if 'A' <= c <= 'F' then Some(c as int - 'A' as int + 10) else HexValue(c)
  }

  /** The character a backslash escape stands for, and how many characters the escape takes. */
  function Unescape(s: string): (r: Option<(char, nat)>)
    requires s != ""
    ensures r.Some? ==> 1 <= r.value.1 <= |s|
  {
    var c := s[0];
    if c == '"' || c == '\\' || c == '/' then Some((c, 1))
    else if c == 'b' then Some(('\U{0008}', 1))
    else if c == 't' then Some(('\t', 1))
    else if c == 'n' then Some(('\n', 1))
    else if c == 'f' then Some(('\U{000C}', 1))
    else if c == 'r' then Some(('\r', 1))
    else if c == 'u' && |s| >= 5 then
      match (HexValueAnyCase(s[1]), HexValueAnyCase(s[2]), HexValueAnyCase(s[3]), HexValueAnyCase(s[4])) {
        case (Some(x), Some(y), Some(z), Some(w)) =>
          var n := ((16 * x + y) * 16 + z) * 16 + w;
          if IsScalar(n) then Some((n as char, 5)) else None
        case _ => None
      }
    else None
  }

  /** Reads the inside of a string and its closing quote. */
  function ParseStr(s: string): (r: Option<(string, string)>)
    ensures r.Some? ==> |r.value.1| < |s|
    decreases |s|
  {
    if s == "" || s[0] < ' ' then None
    else if s[0] == '"' then Some(("", s[1..]))
    else if s[0] == '\\' then
      if |s| == 1 then None
      else
        match Unescape(s[1..])
        case None => None
        case Some((c, k)) =>
          match ParseStr(s[1 + k..])
          case None => None
          case Some((t, rest)) => Some(([c] + t, rest))
    else
      match ParseStr(s[1..])
      case None => None
      case Some((t, rest)) => Some(([s[0]] + t, rest))
  }

  function PutMember(ms: seq<Member>, m: Member): seq<Member> {
    var i := IndexOf(ms, m.key);
    if i < 0 then ms + [m] else ms[i := m]
  }

  /** A repeated name keeps its place and takes the later value, as in JSON.parse. */
  function Collapse(ms: seq<Member>): seq<Member> {
    if ms == [] then [] else PutMember(Collapse(ms[..|ms| - 1]), ms[|ms| - 1])
  }

  function ParseValue(s: string): (r: Option<(Json, string)>)
    ensures r.Some? ==> |r.value.1| < |s|
    decreases |s|, 0
  {
    var t := SkipSpace(s);
    if t == "" then None
    else if t[0] == '"' then
      match ParseStr(t[1..])
      case None => None
      case Some((x, rest)) => Some((Str(x), rest))
    else if t[0] == '[' then
      var u := SkipSpace(t[1..]);
      if u != "" && u[0] == ']' then Some((Arr([]), u[1..]))
      else
        match ParseElems(u)
        case None => None
        case Some((es, rest)) => Some((Arr(es), rest))
    else if t[0] == '{' then
      var u := SkipSpace(t[1..]);
      if u != "" && u[0] == '}' then Some((Obj([]), u[1..]))
      else
        match ParseMembers(u)
        case None => None
        case Some((ms, rest)) => Some((Obj(Collapse(ms)), rest))
    else if "null" <= t then Some((Null, t[4..]))
    else if "true" <= t then Some((Bool(true), t[4..]))
    else if "false" <= t then Some((Bool(false), t[5..]))
    else if t[0] == '-' then
      match ParseNat(t[1..])
      case None => None
      case Some((n, rest)) => Some((Num(0 - n), rest))
    else
      match ParseNat(t)
      case None => None
      case Some((n, rest)) => Some((Num(n), rest))
  }

  function ParseElems(s: string): (r: Option<(seq<Json>, string)>)
    ensures r.Some? ==> |r.value.1| < |s|
    decreases |s|, 1
  {
    match ParseValue(s)
    case None => None
    case Some((v, after)) =>
      var t := SkipSpace(after);
      if t == "" then None
      else if t[0] == ']' then Some(([v], t[1..]))
      else if t[0] == ',' then
        match ParseElems(t[1..])
        case None => None
        case Some((es, rest)) => Some(([v] + es, rest))
      else None
  }

  function ParseKey(s: string): (r: Option<(string, string)>)
    ensures r.Some? ==> |r.value.1| < |s|
  {
    var t := SkipSpace(s);
    if t == "" || t[0] != '"' then None
    else
      match ParseStr(t[1..])
      case None => None
      case Some((k, after)) =>
        var u := SkipSpace(after);
        if u == "" || u[0] != ':' then None else Some((k, u[1..]))
  }

  function ParseMembers(s: string): (r: Option<(seq<Member>, string)>)
    ensures r.Some? ==> |r.value.1| < |s|
    decreases |s|, 1
  {
    match ParseKey(s)
    case None => None
    case Some((k, afterKey)) =>
      match ParseValue(afterKey)
      case None => None
      case Some((v, after)) =>
        var t := SkipSpace(after);
        if t == "" then None
        else if t[0] == '}' then Some(([Member(k, v)], t[1..]))
        else if t[0] == ',' then
          match ParseMembers(t[1..])
          case None => None
          case Some((ms, rest)) => Some(([Member(k, v)] + ms, rest))
        else None
  }

  function Parse(s: string): Option<Json> {
    match ParseValue(s)
    case None => None
    case Some((v, rest)) => if SkipSpace(rest) == "" then Some(v) else None
  }

  // ----- the parser inverts the printer -----

  lemma {:induction false} ParseDigitsPrint(n: nat, rest: string)
    ensures ParseDigits(PrintNat(n, rest), 0) == ParseDigits(rest, n)
    ensures PrintNat(n, rest) != "" && IsDigit(PrintNat(n, rest)[0])
    ensures n > 0 ==> PrintNat(n, rest)[0] != '0'
    decreases n
  {
    if n < 10 {
      assert ([Digit(n)] + rest)[1..] == rest;
    } else {
      var more := [Digit(n % 10)] + rest;
      ParseDigitsPrint(n / 10, more);
      assert more[1..] == rest;
    }
  }

  lemma ParseNatPrint(n: nat, rest: string)
    requires !ContinuesNumber(rest)
    ensures ParseNat(PrintNat(n, rest)) == Some((n, rest))
  {
    ParseDigitsPrint(n, rest);
  }

  lemma UnescapeEscape(c: char, rest: string)
    ensures var e := EscapeChar(c, rest);
      if e[0] == '\\' then
        |e| > 1 && Unescape(e[1..]).Some? && Unescape(e[1..]).value.0 == c && e[1 + Unescape(e[1..]).value.1..] == rest
      else
        e == [c] + rest && c >= ' ' && c != '"'
  {
    var e := EscapeChar(c, rest);
    if c == '"' || c == '\\' || c < ' ' {
      if e[1] == 'u' {
        assert HexValue(HexDigit(c as int / 16)) == Some(c as int / 16);
        assert HexValue(HexDigit(c as int % 16)) == Some(c as int % 16);
        assert Unescape(e[1..]) == Some((c, 5));
        assert e[6..] == rest;
      } else {
        assert Unescape(e[1..]) == Some((c, 1));
        assert e[2..] == rest;
      }
    }
  }

  lemma {:induction false} ParseStrEscape(s: string, rest: string)
    ensures ParseStr(Escape(s, ['"'] + rest)) == Some((s, rest))
  {
    if s == "" {
      assert (['"'] + rest)[1..] == rest;
    } else {
      var more := Escape(s[1..], ['"'] + rest);
      ParseStrEscape(s[1..], rest);
      UnescapeEscape(s[0], more);
      assert s == [s[0]] + s[1..];
      assert ([s[0]] + more)[1..] == more;
    }
  }

  /** No printed value can be mistaken for white space or for a closing bracket. */
  lemma PrintHead(v: Json, rest: string)
    ensures var p := PrintOn(v, rest); p != "" && !IsSpace(p[0]) && p[0] != ']' && p[0] != '}'
    ensures PrintOn(v, rest)[0] < '\U{0080}'
  {
    if v.Num? { ParseDigitsPrint(if v.n < 0 then -v.n else v.n, rest); }
  }

  lemma {:induction false} CollapseUnique(ms: seq<Member>)
    requires UniqueKeys(ms)
    ensures Collapse(ms) == ms
  {
    if ms != [] { CollapseUnique(ms[..|ms| - 1]); }
  }

  lemma ParsePrintLeaf(v: Json, rest: string)
    requires !v.Arr? && !v.Obj? && (v.Num? ==> !ContinuesNumber(rest))
    ensures ParseValue(PrintOn(v, rest)) == Some((v, rest))
  {
    var p := PrintOn(v, rest);
    match v {
      case Null => assert p[4..] == rest;
      case Bool(b) => assert p[if b then 4 else 5..] == rest;
      case Num(n) =>
        ParseDigitsPrint(if n < 0 then -n else n, rest);
        ParseNatPrint(if n < 0 then -n else n, rest);
        if n < 0 { assert p[1..] == PrintNat(-n, rest); }
      case Str(s) =>
        ParseStrEscape(s, rest);
        assert p[1..] == Escape(s, ['"'] + rest);
    }
  }

  lemma ArrStep(u: string, es: seq<Json>, rest: string)
    ensures ParseValue(['['] + ([']'] + rest)) == Some((Arr([]), rest))
    ensures u != "" && !IsSpace(u[0]) && u[0] != ']' && ParseElems(u) == Some((es, rest)) ==>
              ParseValue(['['] + u) == Some((Arr(es), rest))
  {
    assert (['['] + u)[1..] == u && (['['] + ([']'] + rest))[1..] == [']'] + rest;
    assert ([']'] + rest)[1..] == rest;
  }

  lemma ObjStep(u: string, ms: seq<Member>, rest: string)
    ensures ParseValue(['{'] + (['}'] + rest)) == Some((Obj([]), rest))
    ensures u != "" && u[0] == '"' && ParseMembers(u) == Some((ms, rest)) ==>
              ParseValue(['{'] + u) == Some((Obj(Collapse(ms)), rest))
  {
    assert (['{'] + u)[1..] == u && (['{'] + (['}'] + rest))[1..] == ['}'] + rest;
    assert (['}'] + rest)[1..] == rest;
  }

  lemma {:induction false} ParsePrintValue(v: Json, rest: string)
    requires WellFormed(v) && (v.Num? ==> !ContinuesNumber(rest))
    ensures ParseValue(PrintOn(v, rest)) == Some((v, rest))
    decreases v, 0
  {
    match v {
      case Arr(es) =>
        if es == [] {
          ArrStep("", [], rest);
        } else {
          ParsePrintElems(es, rest);
          PrintElemsHead(es, rest);
          ArrStep(PrintElems(es, rest), es, rest);
        }
      case Obj(ms) =>
        if ms == [] {
          ObjStep("", [], rest);
        } else {
          ParsePrintMembers(ms, rest);
          CollapseUnique(ms);
          ObjStep(PrintMembers(ms, rest), ms, rest);
        }
      case _ => ParsePrintLeaf(v, rest);
    }
  }

  lemma PrintElemsHead(es: seq<Json>, rest: string)
    requires es != []
    ensures var p := PrintElems(es, rest); p != "" && !IsSpace(p[0]) && p[0] != ']'
  {
    PrintHead(es[0], if |es| == 1 then [']'] + rest else [','] + PrintElems(es[1..], rest));
  }

  lemma ElemStep(s: string, v: Json, more: string)
    ensures ParseValue(s) == Some((v, [']'] + more)) ==> ParseElems(s) == Some(([v], more))
    ensures ParseValue(s) == Some((v, [','] + more)) && ParseElems(more).Some? ==>
              ParseElems(s) == Some(([v] + ParseElems(more).value.0, ParseElems(more).value.1))
  {
    assert ([']'] + more)[1..] == more && ([','] + more)[1..] == more;
  }

  lemma {:induction false} ParsePrintElems(es: seq<Json>, rest: string)
    requires es != [] && forall i :: 0 <= i < |es| ==> WellFormed(es[i])
    ensures ParseElems(PrintElems(es, rest)) == Some((es, rest))
    decreases es, 0
  {
    var v, s := es[0], PrintElems(es, rest);
    if |es| == 1 {
      ParsePrintValue(v, [']'] + rest);
      ElemStep(s, v, rest);
      assert es == [v];
    } else {
      var more := PrintElems(es[1..], rest);
      ParsePrintValue(v, [','] + more);
      ParsePrintElems(es[1..], rest);
      ElemStep(s, v, more);
      assert es == [v] + es[1..];
    }
  }

  lemma ParseKeyPrint(k: string, value: string)
    ensures ParseKey(PrintStr(k, [':'] + value)) == Some((k, value))
  {
    ParseStrEscape(k, [':'] + value);
    assert PrintStr(k, [':'] + value)[1..] == Escape(k, ['"'] + ([':'] + value));
    assert ([':'] + value)[1..] == value;
  }

  lemma MemberStep(s: string, k: string, value: string, v: Json, more: string)
    requires ParseKey(s) == Some((k, value))
    ensures ParseValue(value) == Some((v, ['}'] + more)) ==> ParseMembers(s) == Some(([Member(k, v)], more))
    ensures ParseValue(value) == Some((v, [','] + more)) && ParseMembers(more).Some? ==>
              ParseMembers(s) == Some(([Member(k, v)] + ParseMembers(more).value.0, ParseMembers(more).value.1))
  {
    assert (['}'] + more)[1..] == more && ([','] + more)[1..] == more;
  }

  lemma {:induction false} ParsePrintMembers(ms: seq<Member>, rest: string)
    requires ms != [] && forall i :: 0 <= i < |ms| ==> WellFormed(ms[i].value)
    ensures ParseMembers(PrintMembers(ms, rest)) == Some((ms, rest))
    decreases ms, 0
  {
    var k, v := ms[0].key, ms[0].value;
    var more := if |ms| == 1 then rest else PrintMembers(ms[1..], rest);
    var tail := if |ms| == 1 then ['}'] + more else [','] + more;
    var value := PrintOn(v, tail);
    ParsePrintValue(v, tail);
    ParseKeyPrint(k, value);
    MemberStep(PrintStr(k, [':'] + value), k, value, v, more);
    if |ms| == 1 {
      assert ms == [Member(k, v)];
    } else {
      ParsePrintMembers(ms[1..], rest);
      assert ms == [Member(k, v)] + ms[1..];
    }
  }

  /** JSON.parse(JSON.stringify(v)) is v. */
  lemma ParsePrint(v: Json)
    requires WellFormed(v)
    ensures Parse(Print(v)) == Some(v)
  {
    ParsePrintValue(v, "");
  }
}
