/** The parts of Go's `strings` package that the codecs rely on. A text is a sequence of
    Unicode characters; where Go counts bytes, `ByteLen` gives the UTF-8 length. */
module Text {

  function Utf8Size(c: char): (n: nat)
    ensures 1 <= n <= 4
    ensures n == 1 <==> c as int < 0x80
  {
    if c as int < 0x80 then 1
    else if c as int < 0x800 then 2
    else if c as int < 0x1_0000 then 3
    else 4
  }

  /** Go's `len` of a string. */
  function ByteLen(s: string): (n: nat)
    ensures n >= |s|
  {
    if s == [] then 0 else Utf8Size(s[0]) + ByteLen(s[1..])
  }

  lemma {:induction false} ByteLenOfAscii(s: string)
    requires forall c | c in s :: c as int < 0x80
    ensures ByteLen(s) == |s|
  {
    if s != [] {
      assert s[0] in s && forall c | c in s[1..] :: c in s;
      ByteLenOfAscii(s[1..]);
    }
  }

  /** `unicode.IsSpace`. */
  predicate IsSpace(c: char)
  {
    || c in ['\t', '\n', '\U{B}', '\U{C}', '\r', ' ', '\U{85}', '\U{A0}', '\U{1680}']
    || '\U{2000}' <= c <= '\U{200A}'
    || c in ['\U{2028}', '\U{2029}', '\U{202F}', '\U{205F}', '\U{3000}']
  }

  predicate AllSpace(s: string)
  {
    forall i | 0 <= i < |s| :: IsSpace(s[i])
  }

  /** A text that `strings.TrimSpace` has nothing to take from. */
  predicate Trimmed(s: string)
  {
    s == [] || (!IsSpace(s[0]) && !IsSpace(s[|s| - 1]))
  }

  function TrimLeft(s: string): string
  {
    if s != [] && IsSpace(s[0]) then TrimLeft(s[1..]) else s
  }

  function TrimRight(s: string): string
  {
    if s != [] && IsSpace(s[|s| - 1]) then TrimRight(s[..|s| - 1]) else s
  }

  function TrimSpace(s: string): string
  {
    TrimRight(TrimLeft(s))
  }

  lemma {:induction false} TrimLeftSplits(s: string) returns (a: string)
    ensures s == a + TrimLeft(s) && AllSpace(a)
    ensures TrimLeft(s) == [] || !IsSpace(TrimLeft(s)[0])
  {
    if s != [] && IsSpace(s[0]) {
      var a' := TrimLeftSplits(s[1..]);
      a := [s[0]] + a';
      assert s == [s[0]] + s[1..];
    } else {
      a := [];
    }
  }

  lemma {:induction false} TrimRightSplits(s: string) returns (b: string)
    ensures s == TrimRight(s) + b && AllSpace(b)
    ensures TrimRight(s) == [] || !IsSpace(TrimRight(s)[|TrimRight(s)| - 1])
  {
    if s != [] && IsSpace(s[|s| - 1]) {
      var b' := TrimRightSplits(s[..|s| - 1]);
      b := b' + [s[|s| - 1]];
      assert s == s[..|s| - 1] + [s[|s| - 1]];
    } else {
      b := [];
    }
  }

  /** Trimming takes spaces off both ends and nothing else, and leaves none at either end. */
  lemma TrimSpaceSplits(s: string) returns (a: string, b: string)
    ensures s == a + TrimSpace(s) + b
    ensures AllSpace(a) && AllSpace(b) && Trimmed(TrimSpace(s))
  {
    a := TrimLeftSplits(s);
    b := TrimRightSplits(TrimLeft(s));
    var t := TrimSpace(s);
    if t != [] {
      assert TrimLeft(s)[0] == t[0];
    }
  }

  lemma TrimSpaceIdentity(s: string)
    requires Trimmed(s)
    ensures TrimSpace(s) == s
  {}

  /** `strings.Split` with a one-character separator. */
  function Split(s: string, sep: char): (parts: seq<string>)
    ensures |parts| >= 1
  {
    if s == [] then [[]]
    else
      var rest := Split(s[1..], sep);
      if s[0] == sep then [[]] + rest
      else [[s[0]] + rest[0]] + rest[1..]
  }

  /** A text without the separator is one part. */
  lemma {:induction false} SplitNone(s: string, sep: char)
    requires sep !in s
    ensures Split(s, sep) == [s]
  {
    if s != [] {
      assert s == [s[0]] + s[1..];
      SplitNone(s[1..], sep);
    }
  }

  /** A text splits in two exactly when it holds the separator once, and the parts are
      what stands on either side of it. */
  lemma {:induction false} SplitOnce(a: string, b: string, sep: char)
    requires sep !in a && sep !in b
    ensures Split(a + [sep] + b, sep) == [a, b]
  {
    var s := a + [sep] + b;
    if a == [] {
      assert s[1..] == b;
      SplitNone(b, sep);
    } else {
      assert s[1..] == a[1..] + [sep] + b && s[0] == a[0];
      SplitOnce(a[1..], b, sep);
      assert a == [a[0]] + a[1..];
    }
  }

  lemma {:induction false} SplitInTwo(s: string, sep: char)
    requires |Split(s, sep)| == 2
    ensures var p := Split(s, sep);
            s == p[0] + [sep] + p[1] && sep !in p[0] && sep !in p[1]
  {
    var rest := Split(s[1..], sep);
    assert s == [s[0]] + s[1..];
    if s[0] == sep {
      SplitInOne(s[1..], sep);
    } else {
      SplitInTwo(s[1..], sep);
    }
  }

  lemma {:induction false} SplitInOne(s: string, sep: char)
    requires |Split(s, sep)| == 1
    ensures Split(s, sep) == [s] && sep !in s
  {
    if s != [] {
      assert s == [s[0]] + s[1..];
      SplitInOne(s[1..], sep);
    }
  }
}
