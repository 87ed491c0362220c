/** Strings and their two encodings: UTF-16 code units (the order of JavaScript's `<` on
    strings) and UTF-8 bytes (TextEncoder).  A Dafny string is a well-formed Unicode string. */
module Text {
  import opened Options

  type byte = x: int | 0 <= x < 256
  type Bytes = seq<byte>

  // ----- UTF-16 order -----

  function Units(c: char): (u: seq<int>)
    ensures 1 <= |u| <= 2
  {
    var n := c as int;
    if n < 0x10000 then [n]
    else [0xD800 + (n - 0x10000) / 0x400, 0xDC00 + (n - 0x10000) % 0x400]
  }

  function Utf16(s: string): seq<int> {
    if s == "" then [] else Units(s[0]) + Utf16(s[1..])
  }

  predicate LexLess(a: seq<int>, b: seq<int>) {
    b != [] && (a == [] || a[0] < b[0] || (a[0] == b[0] && LexLess(a[1..], b[1..])))
  }

  /** JavaScript's `a < b` on strings. */
  predicate KeyLess(a: string, b: string) {
    LexLess(Utf16(a), Utf16(b))
  }

  lemma {:induction false} LexLessTransitive(a: seq<int>, b: seq<int>, c: seq<int>)
    requires LexLess(a, b) && LexLess(b, c)
    ensures LexLess(a, c)
  {
    if a != [] && a[0] == b[0] == c[0] {
      LexLessTransitive(a[1..], b[1..], c[1..]);
    }
  }

  lemma {:induction false} LexLessTotal(a: seq<int>, b: seq<int>)
    ensures LexLess(a, b) || LexLess(b, a) || a == b
    ensures !(LexLess(a, b) && LexLess(b, a))
    ensures !LexLess(a, a)
  {
    if a != [] {
      LexLessTotal(a[1..], a[1..]);
      if b != [] {
        LexLessTotal(a[1..], b[1..]);
        if a[0] == b[0] && a[1..] == b[1..] {
          assert a == [a[0]] + a[1..] && b == [b[0]] + b[1..];
        }
      }
    }
  }

  lemma {:induction false} Utf16Injective(a: string, b: string)
    requires Utf16(a) == Utf16(b)
    ensures a == b
  {
    if a != "" && b != "" {
      var u, v := Utf16(a), Utf16(b);
      assert u[0] == Units(a[0])[0] && v[0] == Units(b[0])[0];
      if a[0] as int >= 0x10000 {
        assert u[1] == Units(a[0])[1] && v[1] == Units(b[0])[1];
      }
      assert a[0] == b[0];
      assert Utf16(a[1..]) == u[|Units(a[0])|..] == v[|Units(b[0])|..] == Utf16(b[1..]);
      Utf16Injective(a[1..], b[1..]);
      assert a == [a[0]] + a[1..] && b == [b[0]] + b[1..];
    }
  }

  /** The order on keys is a strict total order on strings. */
  lemma KeyLessTotal(a: string, b: string)
    ensures KeyLess(a, b) || KeyLess(b, a) || a == b
    ensures !(KeyLess(a, b) && KeyLess(b, a))
    ensures !KeyLess(a, a)
  {
    LexLessTotal(Utf16(a), Utf16(b));
    LexLessTotal(Utf16(a), Utf16(a));
    if Utf16(a) == Utf16(b) { Utf16Injective(a, b); }
  }

  lemma KeyLessTransitive(a: string, b: string, c: string)
    requires KeyLess(a, b) && KeyLess(b, c)
    ensures KeyLess(a, c)
  {
    LexLessTransitive(Utf16(a), Utf16(b), Utf16(c));
  }

  /** The order is that of UTF-16 code units, not of code points: a character outside the basic plane sorts
      before the last characters inside it. */
  lemma SurrogatesSortFirst(c: char, s: string, d: char, t: string)
    requires c as int >= 0x10000 && 0xE000 <= d as int <= 0xFFFF
    ensures KeyLess([c] + s, [d] + t) && !KeyLess([d] + t, [c] + s)
  {
    var a, b := Utf16([c] + s), Utf16([d] + t);
    assert a[0] == Units(c)[0] && b[0] == Units(d)[0];
    assert a[0] < 0xDC00 <= b[0];
  }

  // ----- UTF-8 -----

  function Utf8Char(c: char): (b: Bytes)
    ensures 1 <= |b| <= 4
  {
    var n := c as int;
    if n < 0x80 then [n]
    else
      var q := n / 64;
      var r := q / 64;
      if n < 0x800 then [0xC0 + q, 0x80 + n % 64]
      else if n < 0x10000 then [0xE0 + r, 0x80 + q % 64, 0x80 + n % 64]
      else [0xF0 + r / 64, 0x80 + r % 64, 0x80 + q % 64, 0x80 + n % 64]
  }

  function Utf8(s: string): Bytes {
    if s == "" then [] else Utf8Char(s[0]) + Utf8(s[1..])
  }

  /** The code point the first `n` bytes spell, whether or not they are well formed. */
  function CodePoint(b: Bytes, n: nat): int
    requires 1 <= n <= 4 && n <= |b|
  {
    var b0: int := b[0];
    if n == 1 then b0
    else
      var b1: int := b[1] as int - 0x80;
      if n == 2 then (b0 - 0xC0) * 64 + b1
      else
        var b2: int := b[2] as int - 0x80;
        if n == 3 then ((b0 - 0xE0) * 64 + b1) * 64 + b2
        else (((b0 - 0xF0) * 64 + b1) * 64 + b2) * 64 + (b[3] as int - 0x80)
  }

  predicate IsScalar(n: int) {
    0 <= n < 0xD800 || 0xE000 <= n < 0x110000
  }

  function Utf8Length(lead: byte): nat {
    if lead < 0x80 then 1 else if lead < 0xE0 then 2 else if lead < 0xF0 then 3 else 4
  }

  /** Strict decoding: overlong, truncated and surrogate sequences are refused. */
  function Utf8Decode(b: Bytes): Option<string>
    decreases |b|
  {
    if b == [] then Some("")
    else
      var n := Utf8Length(b[0]);
      if n > |b| || !IsScalar(CodePoint(b, n)) then None
      else
        var c := CodePoint(b, n) as char;
        if Utf8Char(c) != b[..n] then None
        else match Utf8Decode(b[n..])
             case None => None
             case Some(s) => Some([c] + s)
  }

  lemma Utf8CharDecodes(c: char)
    ensures var b := Utf8Char(c); Utf8Length(b[0]) == |b| && CodePoint(b, |b|) == c as int
  {
  }

  lemma {:induction false} Utf8RoundTrip(s: string)
    ensures Utf8Decode(Utf8(s)) == Some(s)
  {
    if s != "" {
      var c := Utf8Char(s[0]);
      var b := Utf8(s);
      Utf8CharDecodes(s[0]);
      assert b[..|c|] == c && b[|c|..] == Utf8(s[1..]);
      assert CodePoint(b, |c|) == CodePoint(c, |c|);
      Utf8RoundTrip(s[1..]);
      assert s == [s[0]] + s[1..];
    }
  }

  lemma Utf8Injective(a: string, b: string)
    requires Utf8(a) == Utf8(b)
    ensures a == b
  {
    Utf8RoundTrip(a);
    Utf8RoundTrip(b);
  }

  lemma {:induction false} Utf8Concat(a: string, b: string)
    ensures Utf8(a + b) == Utf8(a) + Utf8(b)
  {
    if a == "" {
      assert a + b == b;
    } else {
      Utf8Concat(a[1..], b);
      var c := Utf8Char(a[0]);
      assert (a + b)[0] == a[0] && (a + b)[1..] == a[1..] + b;
      assert c + (Utf8(a[1..]) + Utf8(b)) == (c + Utf8(a[1..])) + Utf8(b);
    }
  }

  /** The UTF-8 form of a constant, without the general encoder. */
  function Ascii(s: string): Bytes
    requires forall i :: 0 <= i < |s| ==> s[i] < '\U{0080}'
  {
    seq(|s|, i requires 0 <= i < |s| => s[i] as int)
  }

  lemma {:induction false} AsciiIsUtf8(s: string)
    requires forall i :: 0 <= i < |s| ==> s[i] < '\U{0080}'
    ensures Ascii(s) == Utf8(s)
  {
    if s != "" {
      AsciiIsUtf8(s[1..]);
      assert Ascii(s) == [s[0] as int] + Ascii(s[1..]);
    }
  }

  // ----- lowercase hex -----

  function HexDigit(n: int): (c: char)
    requires 0 <= n < 16
  {
    if n < 10 then '0' + n as char else 'a' + (n - 10) as char
  }

  function HexValue(c: char): (v: Option<int>)
    ensures v.Some? ==> 0 <= v.value < 16 && HexDigit(v.value) == c
  {
    if '0' <= c <= '9' then Some(c as int - '0' as int)
    else if 'a' <= c <= 'f' then Some(c as int - 'a' as int + 10)
    else None
  }

  function HexEncode(b: Bytes): string {
    if b == [] then "" else [HexDigit(b[0] / 16), HexDigit(b[0] % 16)] + HexEncode(b[1..])
  }

  function HexDecode(s: string): Option<Bytes> {
    if s == "" then Some([])
    else if |s| == 1 then None
    else match (HexValue(s[0]), HexValue(s[1]), HexDecode(s[2..]))
         case (Some(h), Some(l), Some(rest)) => Some([16 * h + l] + rest)
         case _ => None
  }

  predicate IsHex(s: string) {
    forall i :: 0 <= i < |s| ==> HexValue(s[i]).Some?
  }

  lemma DigitValue(n: int)
    requires 0 <= n < 16
    ensures HexValue(HexDigit(n)) == Some(n)
  {
  }

  lemma {:induction false} HexRoundTrip(b: Bytes)
    ensures |HexEncode(b)| == 2 * |b| && IsHex(HexEncode(b))
    ensures HexDecode(HexEncode(b)) == Some(b)
  {
    if b != [] {
      HexRoundTrip(b[1..]);
      var s := HexEncode(b);
      assert s[2..] == HexEncode(b[1..]);
      DigitValue(b[0] / 16);
      DigitValue(b[0] % 16);
      forall i | 0 <= i < |s| ensures HexValue(s[i]).Some? {
        if i >= 2 { assert s[i] == HexEncode(b[1..])[i - 2]; }
      }
      assert b == [b[0]] + b[1..];
    }
  }

  lemma {:induction false} HexDecodes(s: string)
    requires IsHex(s) && |s| % 2 == 0
    ensures HexDecode(s).Some? && |HexDecode(s).value| == |s| / 2 && HexEncode(HexDecode(s).value) == s
  {
    if s != "" {
      HexDecodes(s[2..]);
      var h, l := HexValue(s[0]).value, HexValue(s[1]).value;
      var b := HexDecode(s).value;
      assert (16 * h + l) / 16 == h && (16 * h + l) % 16 == l;
      assert b[1..] == HexDecode(s[2..]).value;
      assert s == [s[0], s[1]] + s[2..];
    }
  }
}
