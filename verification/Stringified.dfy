/** Records whose signed bytes come from JSON.stringify on an object literal rather than from the
    general canonicalizer, and why the two agree. */
module Stringified {
  import opened Options
  import opened Text
  import opened Json
  import opened Jcs
  import KeySort
  import opened Schemas

  /** ENCODER.encode(JSON.stringify(v)) */
  function Stringify(v: Json): Bytes {
    Utf8(Print(v))
  }

  function Unstringify(b: Bytes): Option<Json> {
    match Utf8Decode(b) case None => None case Some(s) => Parse(s)
  }

  lemma StringifyReads(v: Json)
    requires WellFormed(v)
    ensures Unstringify(Stringify(v)) == Some(v)
  {
    Utf8RoundTrip(Print(v));
    ParsePrint(v);
  }

  /** The names are listed in increasing order of their first characters. */
  ghost predicate HeadsIncrease(keys: seq<string>) {
    && (forall i :: 0 <= i < |keys| ==> keys[i] != "" && keys[i][0] < '\U{0080}')
    && (forall i, j :: 0 <= i < j < |keys| ==> keys[i][0] < keys[j][0])
  }

  lemma HeadLess(a: string, b: string)
    requires a != "" && b != "" && a[0] < b[0] < '\U{0080}'
    ensures KeyLess(a, b)
  {
    assert Utf16(a)[0] == a[0] as int && Utf16(b)[0] == b[0] as int;
  }

  /** A literal of leaves listed that way is its own canonical form. */
  lemma SortedRecordIsCanonical(keys: seq<string>, vals: seq<Json>)
    requires |keys| == |vals| && HeadsIncrease(keys)
    requires forall i :: 0 <= i < |vals| ==> vals[i].Str? || vals[i].Num?
    ensures WellFormed(Record(keys, vals)) && Canon(Record(keys, vals)) == Record(keys, vals)
    ensures JcsBytes(Record(keys, vals)) == Stringify(Record(keys, vals))
  {
    var ms := Record(keys, vals).members;
    assert CanonMembers(ms) == ms;
    forall i, j | 0 <= i < j < |ms| ensures KeyLess(KeyOf(ms[i]), KeyOf(ms[j])) {
      HeadLess(keys[i], keys[j]);
    }
    KeySort.StrictIsDistinct(KeyOf, ms);
    DistinctKeys(ms);
    SortMembers(ms);
    KeySort.StrictListingUnique(KeyOf, KeySort.SortBy(KeyOf, ms), ms);
  }

  /** Its members are read back from the signed bytes. */
  lemma SortedRecordReads(keys: seq<string>, vals: seq<Json>, i: nat)
    requires |keys| == |vals| && HeadsIncrease(keys) && i < |keys|
    requires forall i :: 0 <= i < |vals| ==> vals[i].Str? || vals[i].Num?
    ensures Unstringify(Stringify(Record(keys, vals))).Some?
    ensures MembersOf(Unstringify(Stringify(Record(keys, vals))).value)(keys[i]) == Some(vals[i])
  {
    var v := Record(keys, vals);
    SortedRecordIsCanonical(keys, vals);
    StringifyReads(v);
    assert v.members[i] == Member(keys[i], vals[i]);
    GetMember(v, i);
  }

  // ----- the text itself -----

  /** Nothing in the string needs escaping: it has no quote, no backslash and no control character. */
  predicate Plain(s: string) {
    forall i :: 0 <= i < |s| ==> s[i] >= ' ' && s[i] != '"' && s[i] != '\\'
  }

  lemma {:induction false} PlainEscapes(s: string, rest: string)
    requires Plain(s)
    ensures Escape(s, rest) == s + rest
  {
    if s != "" {
      PlainEscapes(s[1..], rest);
      assert s == [s[0]] + s[1..];
      assert [s[0]] + (s[1..] + rest) == s + rest;
    }
  }

  function Quoted(s: string): string {
    ['"'] + s + ['"']
  }

  lemma PlainPrints(s: string, rest: string)
    requires Plain(s)
    ensures PrintStr(s, rest) == Quoted(s) + rest
  {
    PlainEscapes(s, ['"'] + rest);
    assert ['"'] + (s + (['"'] + rest)) == Quoted(s) + rest;
  }

  lemma {:induction false} NatPrints(n: nat, rest: string)
    ensures PrintNat(n, rest) == PrintNat(n, "") + rest
  {
    if n >= 10 {
      var d := [Digit(n % 10)];
      NatPrints(n / 10, d + rest);
      NatPrints(n / 10, d + "");
      assert d + "" == d && PrintNat(n / 10, "") + (d + rest) == PrintNat(n / 10, "") + d + rest;
    }
  }

  predicate PlainLeaf(v: Json) {
    (v.Str? && Plain(v.s)) || (v.Num? && v.n >= 0)
  }

  function LeafText(v: Json): string
    requires PlainLeaf(v)
  {
    if v.Str? then Quoted(v.s) else PrintNat(v.n, "")
  }

  lemma LeafPrints(v: Json, rest: string)
    requires PlainLeaf(v)
    ensures PrintOn(v, rest) == LeafText(v) + rest
  {
    if v.Str? { PlainPrints(v.s, rest); } else { NatPrints(v.n, rest); }
  }

  predicate PlainMembers(ms: seq<Member>) {
    forall i :: 0 <= i < |ms| ==> Plain(ms[i].key) && PlainLeaf(ms[i].value)
  }

  /** `"name":value` */
  function MemberText(m: Member): string
    requires Plain(m.key) && PlainLeaf(m.value)
  {
    Quoted(m.key) + [':'] + LeafText(m.value)
  }

  /** Separated by commas, with no white space. */
  function Listed(ms: seq<Member>): string
    requires ms != [] && PlainMembers(ms)
  {
    if |ms| == 1 then MemberText(ms[0]) else MemberText(ms[0]) + ([','] + Listed(ms[1..]))
  }

  lemma MemberPrints(m: Member, tail: string)
    requires Plain(m.key) && PlainLeaf(m.value)
    ensures PrintStr(m.key, [':'] + PrintOn(m.value, tail)) == MemberText(m) + tail
  {
    LeafPrints(m.value, tail);
    PlainPrints(m.key, [':'] + (LeafText(m.value) + tail));
    Regroup(Quoted(m.key), [':'], LeafText(m.value), tail);
  }

  lemma Regroup(a: string, b: string, c: string, d: string)
    ensures a + (b + (c + d)) == a + b + c + d
  {
  }

  lemma {:induction false} MembersPrint(ms: seq<Member>, rest: string)
    requires ms != [] && PlainMembers(ms)
    ensures PrintMembers(ms, rest) == Listed(ms) + (['}'] + rest)
  {
    if |ms| == 1 {
      MemberPrints(ms[0], ['}'] + rest);
    } else {
      MembersPrint(ms[1..], rest);
      MemberPrints(ms[0], [','] + PrintMembers(ms[1..], rest));
      Regroup(MemberText(ms[0]), [','], Listed(ms[1..]), ['}'] + rest);
      Regroup("", MemberText(ms[0]), [','] + Listed(ms[1..]), ['}'] + rest);
    }
  }

  /** The text of a record of plain strings and natural numbers, character by character. */
  lemma PlainRecordText(keys: seq<string>, vals: seq<Json>)
    requires |keys| == |vals| > 0 && PlainMembers(Record(keys, vals).members)
    ensures Print(Record(keys, vals)) == ['{'] + Listed(Record(keys, vals).members) + ['}']
  {
    MembersPrint(Record(keys, vals).members, "");
  }
}
