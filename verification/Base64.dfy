/** Unpadded base64 as Go's `RawStdEncoding` and `RawURLEncoding` do it: sections 4 and 5 of
    RFC 4648 without the padding that section 3.2 lets an application leave out. Decoding
    drops CR and LF, and does not require the unused trailing bits to be zero. */
module Base64 {
  import opened Outcomes

  type Byte = x: int | 0 <= x < 256
  type Sextet = x: int | 0 <= x < 64

  datatype Alphabet = Std | Url

  function Symbol(a: Alphabet, v: Sextet): (c: char)
    ensures Meaning(a, c) == Some(v)
  {
    if v < 26 then ('A' as int + v) as char
    else if v < 52 then ('a' as int + (v - 26)) as char
    else if v < 62 then ('0' as int + (v - 52)) as char
    else if v == 62 then (if a.Std? then '+' else '-')
    else (if a.Std? then '/' else '_')
  }

  function Meaning(a: Alphabet, c: char): (v: Option<Sextet>)
    ensures v.Some? ==> c as int < 0x80 && c != '$' && c != '\r' && c != '\n'
  {
    if 'A' <= c <= 'Z' then Some(c as int - 'A' as int)
    else if 'a' <= c <= 'z' then Some(c as int - 'a' as int + 26)
    else if '0' <= c <= '9' then Some(c as int - '0' as int + 52)
    else if c == (if a.Std? then '+' else '-') then Some(62)
    else if c == (if a.Std? then '/' else '_') then Some(63)
    else None
  }

  predicate IsSymbol(a: Alphabet, c: char)
  {
    Meaning(a, c).Some?
  }

  predicate AllSymbols(a: Alphabet, s: string)
  {
    forall i | 0 <= i < |s| :: IsSymbol(a, s[i])
  }

  /** The number of symbols for n bytes: four for every three, two or three for the rest. */
  function EncodedLen(n: nat): nat
  {
    if n == 0 then 0 else if n < 3 then n + 1 else 4 + EncodedLen(n - 3)
  }

  function FirstSextet(x: Byte): Sextet { x / 4 }

  function SecondSextet(x: Byte, y: Byte): Sextet { x % 4 * 16 + y / 16 }

  function ThirdSextet(y: Byte, z: Byte): Sextet { y % 16 * 4 + z / 64 }

  function FourthSextet(z: Byte): Sextet { z % 64 }

  /** The last sextet of one byte and of two bytes, padded with zero bits. */
  function PaddedSecond(x: Byte): Sextet { x % 4 * 16 }

  function PaddedThird(y: Byte): Sextet { y % 16 * 4 }

  /** The sextets that carry a byte string. */
  function Sextets(bs: seq<Byte>): (vs: seq<Sextet>)
    ensures |vs| == EncodedLen(|bs|)
  {
    if bs == [] then []
    else if |bs| == 1 then [FirstSextet(bs[0]), PaddedSecond(bs[0])]
    else if |bs| == 2 then [FirstSextet(bs[0]), SecondSextet(bs[0], bs[1]), PaddedThird(bs[1])]
    else
      [FirstSextet(bs[0]), SecondSextet(bs[0], bs[1]), ThirdSextet(bs[1], bs[2]), FourthSextet(bs[2])]
      + Sextets(bs[3..])
  }

  function Encode(a: Alphabet, bs: seq<Byte>): string
  {
    var vs := Sextets(bs);
    seq(|vs|, i requires 0 <= i < |vs| => Symbol(a, vs[i]))
  }

  function DropNewlines(s: string): string
  {
    if s == [] then []
    else (if s[0] in ['\r', '\n'] then [] else [s[0]]) + DropNewlines(s[1..])
  }

  function FirstByte(v: Sextet, w: Sextet): Byte { v * 4 + w / 16 }

  function SecondByte(w: Sextet, x: Sextet): Byte { w % 16 * 16 + x / 4 }

  function ThirdByte(x: Sextet, y: Sextet): Byte { x % 4 * 64 + y }

  /** Bytes carried by sextets; a lone trailing sextet is corrupt input. */
  function Bytes(vs: seq<Sextet>): Option<seq<Byte>>
  {
    if vs == [] then Some([])
    else if |vs| == 1 then None
    else if |vs| == 2 then Some([FirstByte(vs[0], vs[1])])
    else if |vs| == 3 then Some([FirstByte(vs[0], vs[1]), SecondByte(vs[1], vs[2])])
    else
      match Bytes(vs[4..])
      case None => None
      case Some(rest) =>
        Some([FirstByte(vs[0], vs[1]), SecondByte(vs[1], vs[2]), ThirdByte(vs[2], vs[3])] + rest)
  }

  function Decode(a: Alphabet, s: string): Option<seq<Byte>>
  {
    var t := DropNewlines(s);
    if !AllSymbols(a, t) then None
    else Bytes(seq(|t|, i requires 0 <= i < |t| => Meaning(a, t[i]).value))
  }

  lemma {:induction false} DropNewlinesIdentity(s: string)
    requires '\r' !in s && '\n' !in s
    ensures DropNewlines(s) == s
  {
    if s != [] {
      assert s == [s[0]] + s[1..];
      DropNewlinesIdentity(s[1..]);
    }
  }

  lemma {:induction false} DropNewlinesShrinks(s: string)
    ensures |DropNewlines(s)| <= |s|
    ensures |DropNewlines(s)| == |s| ==> DropNewlines(s) == s
  {
    if s != [] {
      assert s == [s[0]] + s[1..];
      DropNewlinesShrinks(s[1..]);
    }
  }

  lemma QuantumInverse(x: Byte, y: Byte, z: Byte)
    ensures FirstByte(FirstSextet(x), SecondSextet(x, y)) == x
    ensures SecondByte(SecondSextet(x, y), ThirdSextet(y, z)) == y
    ensures ThirdByte(ThirdSextet(y, z), FourthSextet(z)) == z
    ensures FirstByte(FirstSextet(x), PaddedSecond(x)) == x
    ensures SecondByte(SecondSextet(x, y), PaddedThird(y)) == y
  {}

  lemma BytesOfQuantum(x: Byte, y: Byte, z: Byte, rest: seq<Sextet>, tail: seq<Byte>)
    requires Bytes(rest) == Some(tail)
    ensures Bytes([FirstSextet(x), SecondSextet(x, y), ThirdSextet(y, z), FourthSextet(z)] + rest)
         == Some([x, y, z] + tail)
  {
    var vs: seq<Sextet> := [FirstSextet(x), SecondSextet(x, y), ThirdSextet(y, z), FourthSextet(z)] + rest;
    assert vs[4..] == rest;
    QuantumInverse(x, y, z);
  }

  lemma BytesOfTail(x: Byte, y: Byte)
    ensures Bytes([FirstSextet(x), PaddedSecond(x)]) == Some([x])
    ensures Bytes([FirstSextet(x), SecondSextet(x, y), PaddedThird(y)]) == Some([x, y])
  {
    QuantumInverse(x, y, 0);
  }

  lemma {:induction false} BytesOfSextets(bs: seq<Byte>)
    ensures Bytes(Sextets(bs)) == Some(bs)
  {
    if |bs| == 1 {
      BytesOfTail(bs[0], 0);
      assert bs == [bs[0]];
    } else if |bs| == 2 {
      BytesOfTail(bs[0], bs[1]);
      assert bs == [bs[0], bs[1]];
    } else if |bs| >= 3 {
      BytesOfSextets(bs[3..]);
      BytesOfQuantum(bs[0], bs[1], bs[2], Sextets(bs[3..]), bs[3..]);
      assert bs == [bs[0], bs[1], bs[2]] + bs[3..];
    }
  }

  /** An encoded byte string has the promised length and only alphabet symbols. */
  lemma EncodeShape(a: Alphabet, bs: seq<Byte>)
    ensures |Encode(a, bs)| == EncodedLen(|bs|)
    ensures AllSymbols(a, Encode(a, bs))
  {}

  /** Decoding what was encoded gives the bytes back. */
  lemma DecodeOfEncode(a: Alphabet, bs: seq<Byte>)
    ensures Decode(a, Encode(a, bs)) == Some(bs)
  {
    var s, vs := Encode(a, bs), Sextets(bs);
    EncodeShape(a, bs);
    SymbolsHaveNoNewline(a, s);
    assert seq(|s|, i requires 0 <= i < |s| => Meaning(a, s[i]).value) == vs;
    BytesOfSextets(bs);
  }

  /** How many bytes m symbols carry; one symbol left over is corrupt. */
  function DecodedLen(m: nat): Option<nat>
  {
    if m == 1 then None
    else if m < 4 then Some(if m == 0 then 0 else m - 1)
    else
      var rest := DecodedLen(m - 4);
      if rest.None? then None else Some(3 + rest.value)
  }

  lemma {:induction false} BytesLength(vs: seq<Sextet>)
    ensures Bytes(vs).Some? <==> DecodedLen(|vs|).Some?
    ensures Bytes(vs).Some? ==> |Bytes(vs).value| == DecodedLen(|vs|).value
  {
    if |vs| >= 4 {
      BytesLength(vs[4..]);
    }
  }

  /** Among the symbol counts up to `EncodedLen(n)`, only that one carries n bytes. */
  lemma {:induction false} SymbolsForBytes(m: nat, n: nat)
    requires m <= EncodedLen(n)
    ensures DecodedLen(m) == Some(n) <==> m == EncodedLen(n)
  {
    if n >= 3 && m >= 4 {
      SymbolsForBytes(m - 4, n - 3);
    }
  }

  lemma SymbolsHaveNoNewline(a: Alphabet, s: string)
    requires AllSymbols(a, s)
    ensures DropNewlines(s) == s
  {
    forall i | 0 <= i < |s| ensures s[i] != '\r' && s[i] != '\n' {
      assert IsSymbol(a, s[i]);
    }
    DropNewlinesIdentity(s);
  }

  /** Exactly the texts of `EncodedLen(n)` symbols decode to n bytes among the texts of that
      length: dropped CR or LF would leave too few symbols for n bytes. */
  lemma DecodeExact(a: Alphabet, s: string, n: nat)
    requires |s| == EncodedLen(n)
    ensures AllSymbols(a, s) <==> Decode(a, s).Some? && |Decode(a, s).value| == n
  {
    var t := DropNewlines(s);
    DropNewlinesShrinks(s);
    SymbolsForBytes(|t|, n);
    if AllSymbols(a, s) {
      SymbolsHaveNoNewline(a, s);
    }
    if AllSymbols(a, t) {
      BytesLength(seq(|t|, i requires 0 <= i < |t| => Meaning(a, t[i]).value));
    }
  }

  // ---- The alphabets of RFC 4648 ----

  const UPPER_CASE: string := "ABCDEFGHIJKLMNOPQRSTUVWXYZ"
  const LOWER_CASE: string := "abcdefghijklmnopqrstuvwxyz"
  const DIGITS: string := "0123456789"

  function AlphabetOf(a: Alphabet): (s: string)
    ensures |s| == 64
  {
    UPPER_CASE + LOWER_CASE + DIGITS + if a.Std? then "+/" else "-_"
  }

  /** The symbols are those of tables 1 and 2. */
  lemma SymbolIsRfc(a: Alphabet, v: nat)
    requires v < 64
    ensures Symbol(a, v) == AlphabetOf(a)[v]
  {
    if v < 26 {
      UpperCaseIsRfc(v);
    } else if v < 52 {
      LowerCaseIsRfc(v - 26);
    }
  }

  lemma UpperCaseIsRfc(v: nat)
    requires v < 26
    ensures UPPER_CASE[v] as int == 'A' as int + v
  {}

  lemma LowerCaseIsRfc(v: nat)
    requires v < 26
    ensures LOWER_CASE[v] as int == 'a' as int + v
  {}

  /** An encoded text spells its sextets in that alphabet. */
  lemma EncodeIsRfc(a: Alphabet, bs: seq<Byte>)
    ensures var vs := Sextets(bs);
            |Encode(a, bs)| == |vs| && forall i | 0 <= i < |vs| :: Encode(a, bs)[i] == AlphabetOf(a)[vs[i]]
  {
    var vs := Sextets(bs);
    forall i | 0 <= i < |vs| ensures Encode(a, bs)[i] == AlphabetOf(a)[vs[i]] {
      SymbolIsRfc(a, vs[i]);
    }
  }

  /** Three bytes become four sextets that make the same number, most significant first; one or two
      bytes at the end become two or three, with the number padded by zero bits. */
  lemma SextetsKeepNumbers(bs: seq<Byte>)
    ensures var vs := Sextets(bs);
            && (bs == [] ==> vs == [])
            && (|bs| == 1 ==> |vs| == 2 && 64 * vs[0] as int + vs[1] == 16 * bs[0] as int)
            && (|bs| == 2 ==> |vs| == 3 && 4096 * vs[0] as int + 64 * vs[1] as int + vs[2]
                                           == 4 * (256 * bs[0] as int + bs[1]))
            && (|bs| >= 3 ==> |vs| > 3 && vs[4..] == Sextets(bs[3..])
                              && 262144 * vs[0] as int + 4096 * vs[1] as int + 64 * vs[2] as int + vs[3]
                                 == 65536 * bs[0] as int + 256 * bs[1] as int + bs[2])
  {
    if |bs| >= 3 {
      QuantumNumber(bs[0], bs[1], bs[2]);
    } else if |bs| == 2 {
      QuantumNumber(bs[0], bs[1], 0);
    }
  }

  lemma QuantumNumber(x: int, y: int, z: int)
    ensures 262144 * (x / 4) + 4096 * (x % 4 * 16 + y / 16) + 64 * (y % 16 * 4 + z / 64) + z % 64
            == 65536 * x + 256 * y + z
  {}
}
