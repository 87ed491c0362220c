/** Unpadded base64url: section 5 of RFC 4648 without padding, section 3.2.  Decoding is strict, as
    section 3.5 allows: bits left over in the last character must be zero. */
module Base64Url {
  import opened Options
  import opened Text

  function Symbol(n: int): (c: char)
    requires 0 <= n < 64
  {
    if n < 26 then 'A' + n as char
    else if n < 52 then 'a' + (n - 26) as char
    else if n < 62 then '0' + (n - 52) as char
    else if n == 62 then '-' else '_'
  }

  function Sextet(c: char): (v: Option<int>)
    ensures v.Some? ==> 0 <= v.value < 64 && Symbol(v.value) == c
  {
    if 'A' <= c <= 'Z' then Some(c as int - 'A' as int)
    else if 'a' <= c <= 'z' then Some(c as int - 'a' as int + 26)
    else if '0' <= c <= '9' then Some(c as int - '0' as int + 52)
    else if c == '-' then Some(62)
    else if c == '_' then Some(63)
    else None
  }

  function Encode(b: Bytes): string {
    if |b| == 0 then ""
    else if |b| == 1 then [Symbol(b[0] / 4), Symbol(b[0] % 4 * 16)]
    else if |b| == 2 then [Symbol(b[0] / 4), Symbol(b[0] % 4 * 16 + b[1] / 16), Symbol(b[1] % 16 * 4)]
    else Quantum(b[0], b[1], b[2]) + Encode(b[3..])
  }

  function Quantum(x: byte, y: byte, z: byte): (q: string)
    ensures |q| == 4
  {
    [Symbol(x / 4), Symbol(x % 4 * 16 + y / 16), Symbol(y % 16 * 4 + z / 64), Symbol(z % 64)]
  }

  function Decode(s: string): Option<Bytes> {
    if s == "" then Some([])
    else if |s| == 1 then None
    else
      match (Sextet(s[0]), Sextet(s[1])) {
        case (Some(a), Some(b)) =>
          var x: byte := a * 4 + b / 16;
          if |s| == 2 then if b % 16 == 0 then Some([x]) else None
          else
            match Sextet(s[2]) {
              case None => None
              case Some(c) =>
                var y: byte := b % 16 * 16 + c / 4;
                if |s| == 3 then if c % 4 == 0 then Some([x, y]) else None
                else
                  match (Sextet(s[3]), Decode(s[4..])) {
                    case (Some(d), Some(rest)) =>
                      var z: byte := c % 4 * 64 + d;
                      Some([x, y, z] + rest)
                    case _ => None
                  }
            }
        case _ => None
      }
  }

  lemma SextetOfSymbol(n: int)
    requires 0 <= n < 64
    ensures Sextet(Symbol(n)) == Some(n)
  {
  }

  lemma Bits(x: byte, y: byte, z: byte)
    ensures (x % 4 * 16 + y / 16) / 16 == x % 4 && (x % 4 * 16 + y / 16) % 16 == y / 16
    ensures (y % 16 * 4 + z / 64) / 4 == y % 16 && (y % 16 * 4 + z / 64) % 4 == z / 64
  {
  }

  lemma Sextets(a: int, b: int, c: int, d: int)
    requires 0 <= a < 64 && 0 <= b < 64 && 0 <= c < 64 && 0 <= d < 64
    ensures (a * 4 + b / 16) / 4 == a && (a * 4 + b / 16) % 4 == b / 16
    ensures (b % 16 * 16 + c / 4) / 16 == b % 16 && (b % 16 * 16 + c / 4) % 16 == c / 4
    ensures (c % 4 * 64 + d) / 64 == c % 4 && (c % 4 * 64 + d) % 64 == d
  {
  }

  lemma RoundTrip1(x: byte)
    ensures Decode([Symbol(x / 4), Symbol(x % 4 * 16)]) == Some([x])
  {
    SextetOfSymbol(x / 4);
    SextetOfSymbol(x % 4 * 16);
  }

  lemma RoundTrip2(x: byte, y: byte)
    ensures Decode([Symbol(x / 4), Symbol(x % 4 * 16 + y / 16), Symbol(y % 16 * 4)]) == Some([x, y])
  {
    SextetOfSymbol(x / 4);
    SextetOfSymbol(x % 4 * 16 + y / 16);
    SextetOfSymbol(y % 16 * 4);
    Bits(x, y, 0);
  }

  lemma RoundTrip3(x: byte, y: byte, z: byte, s: string)
    requires Decode(s).Some?
    ensures Decode(Quantum(x, y, z) + s) == Some([x, y, z] + Decode(s).value)
  {
    SextetOfSymbol(x / 4);
    SextetOfSymbol(x % 4 * 16 + y / 16);
    SextetOfSymbol(y % 16 * 4 + z / 64);
    SextetOfSymbol(z % 64);
    Bits(x, y, z);
    assert (Quantum(x, y, z) + s)[4..] == s;
  }

  lemma {:induction false} RoundTrip(b: Bytes)
    ensures Decode(Encode(b)) == Some(b)
  {
    if |b| == 1 {
      RoundTrip1(b[0]);
      assert b == [b[0]];
    } else if |b| == 2 {
      RoundTrip2(b[0], b[1]);
      assert b == [b[0], b[1]];
    } else if |b| >= 3 {
      RoundTrip(b[3..]);
      RoundTrip3(b[0], b[1], b[2], Encode(b[3..]));
      assert b == [b[0], b[1], b[2]] + b[3..];
    }
  }

  lemma SymbolOfSextet(c: char)
    requires Sextet(c).Some?
    ensures Symbol(Sextet(c).value) == c
  {
  }

  lemma QuantumDecodes(p: char, q: char, r: char, t: char)
    requires Sextet(p).Some? && Sextet(q).Some? && Sextet(r).Some? && Sextet(t).Some?
    ensures var (a, b, c, d) := (Sextet(p).value, Sextet(q).value, Sextet(r).value, Sextet(t).value);
      Quantum(a * 4 + b / 16, b % 16 * 16 + c / 4, c % 4 * 64 + d) == [p, q, r, t]
  {
    Sextets(Sextet(p).value, Sextet(q).value, Sextet(r).value, Sextet(t).value);
    SymbolOfSextet(p);
    SymbolOfSextet(q);
    SymbolOfSextet(r);
    SymbolOfSextet(t);
  }

  lemma CanonicalTwo(p: char, q: char)
    requires Decode([p, q]).Some?
    ensures Encode(Decode([p, q]).value) == [p, q]
  {
    Sextets(Sextet(p).value, Sextet(q).value, 0, 0);
    SymbolOfSextet(p);
    SymbolOfSextet(q);
  }

  lemma CanonicalThree(p: char, q: char, r: char)
    requires Decode([p, q, r]).Some?
    ensures Encode(Decode([p, q, r]).value) == [p, q, r]
  {
    Sextets(Sextet(p).value, Sextet(q).value, Sextet(r).value, 0);
    SymbolOfSextet(p);
    SymbolOfSextet(q);
    SymbolOfSextet(r);
  }

  lemma DecodeStep(p: char, q: char, r: char, t: char, rest: string)
    requires Decode([p, q, r, t] + rest).Some?
    ensures Sextet(p).Some? && Sextet(q).Some? && Sextet(r).Some? && Sextet(t).Some? && Decode(rest).Some?
    ensures var (a, b, c, d) := (Sextet(p).value, Sextet(q).value, Sextet(r).value, Sextet(t).value);
      Decode([p, q, r, t] + rest) == Some([a * 4 + b / 16, b % 16 * 16 + c / 4, c % 4 * 64 + d] + Decode(rest).value)
  {
    assert ([p, q, r, t] + rest)[4..] == rest;
  }

  lemma Regroup(p: char, q: char, r: char, t: char, rest: string) returns (x: byte, y: byte, z: byte)
    requires Decode([p, q, r, t] + rest).Some?
    ensures Decode(rest).Some? && Decode([p, q, r, t] + rest) == Some([x, y, z] + Decode(rest).value)
    ensures Quantum(x, y, z) == [p, q, r, t]
  {
    DecodeStep(p, q, r, t, rest);
    QuantumDecodes(p, q, r, t);
    var b := Decode([p, q, r, t] + rest).value;
    x, y, z := b[0], b[1], b[2];
  }

  lemma EncodeStep(x: byte, y: byte, z: byte, rest: Bytes)
    ensures Encode([x, y, z] + rest) == Quantum(x, y, z) + Encode(rest)
  {
    assert ([x, y, z] + rest)[3..] == rest;
  }

  /** Every string that decodes is the encoding of what it decodes to: one spelling per byte string. */
  lemma {:induction false} Canonical(s: string)
    requires Decode(s).Some?
    ensures Encode(Decode(s).value) == s
  {
    if |s| == 2 {
      assert s == [s[0], s[1]];
      CanonicalTwo(s[0], s[1]);
    } else if |s| == 3 {
      assert s == [s[0], s[1], s[2]];
      CanonicalThree(s[0], s[1], s[2]);
    } else if |s| >= 4 {
      assert s == [s[0], s[1], s[2], s[3]] + s[4..];
      var x, y, z := Regroup(s[0], s[1], s[2], s[3], s[4..]);
      Canonical(s[4..]);
      EncodeStep(x, y, z, Decode(s[4..]).value);
    }
  }

  lemma {:induction false} EncodedLength(b: Bytes)
    ensures |Encode(b)| == (4 * |b| + 2) / 3
    ensures forall i :: 0 <= i < |Encode(b)| ==> Sextet(Encode(b)[i]).Some?
  {
    if |b| >= 3 {
      EncodedLength(b[3..]);
      QuantumSymbols(b[0], b[1], b[2]);
      var q, rest := Quantum(b[0], b[1], b[2]), Encode(b[3..]);
      forall i | 0 <= i < |Encode(b)| ensures Sextet(Encode(b)[i]).Some? {
        assert Encode(b)[i] == if i < 4 then q[i] else rest[i - 4];
      }
    } else if |b| > 0 {
      forall n | 0 <= n < 64 ensures Sextet(Symbol(n)).Some? { SextetOfSymbol(n); }
    }
  }

  lemma QuantumSymbols(x: byte, y: byte, z: byte)
    ensures |Quantum(x, y, z)| == 4 && forall i :: 0 <= i < 4 ==> Sextet(Quantum(x, y, z)[i]).Some?
  {
    forall n | 0 <= n < 64 ensures Sextet(Symbol(n)).Some? { SextetOfSymbol(n); }
  }

  lemma {:induction false} DecodedLength(s: string)
    requires Decode(s).Some?
    ensures |Decode(s).value| == |s| * 3 / 4
  {
    if |s| >= 4 { DecodedLength(s[4..]); }
  }

  /** The shape the wire schemas check: base64url characters only, and at least one. */
  predicate IsBase64Url(s: string) {
    s != "" && forall i :: 0 <= i < |s| ==> Sextet(s[i]).Some?
  }

  /** Test vectors of RFC 4648 (section 10), unpadded, and the two symbols of the URL-safe alphabet. */
  lemma Vectors()
    ensures Encode([0x66]) == "Zg" && Encode([0x66, 0x6F]) == "Zm8" && Encode([0x66, 0x6F, 0x6F]) == "Zm9v"
    ensures Encode([0x66, 0x6F, 0x6F, 0x62]) == "Zm9vYg"
    ensures Encode([0xFB, 0xFF]) == "-_8"
  {
    assert [0x66, 0x6F, 0x6F, 0x62][3..] == [0x62] && [0x66, 0x6F, 0x6F][3..] == [];
    assert Encode([0x66, 0x6F, 0x6F, 0x62]) == Quantum(0x66, 0x6F, 0x6F) + Encode([0x62]);
    assert Encode([0x66, 0x6F, 0x6F]) == Quantum(0x66, 0x6F, 0x6F) + Encode([]);
  }
}
