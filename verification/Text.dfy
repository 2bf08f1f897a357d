/** Trimming of white space and the bytes of a text. */
module Text {
  import opened Encoding

  /** White space as `unicode.IsSpace` has it. */
  predicate Space(c: char) {
    var n := c as int;
    || 0x9 <= n <= 0xD || n == 0x20 || n == 0x85 || n == 0xA0 || n == 0x1680 || 0x2000 <= n <= 0x200A
    || n == 0x2028 || n == 0x2029 || n == 0x202F || n == 0x205F || n == 0x3000
  }

  /** Tabs, line feeds, form feeds, returns and blanks are white space; letters, digits and signs are not. */
  lemma SpaceOfAscii(c: char)
    requires c as int < 128
    ensures Space(c) <==> c in {'\t', '\n', '\U{0B}', '\U{0C}', '\r', ' '}
  {
  }

  predicate Blank(s: string) {
    forall c | c in s :: Space(c)
  }

  function TrimLeft(s: string): string {
    if s != "" && Space(s[0]) then TrimLeft(s[1..]) else s
  }

  function TrimRight(s: string, cut: char -> bool): string {
    if s != "" && cut(s[|s| - 1]) then TrimRight(s[..|s| - 1], cut) else s
  }

  function TrimSpace(s: string): string {
    TrimRight(TrimLeft(s), Space)
  }

  // ----- What trimming leaves -----

  lemma {:induction false} TrimLeftOfPadded(p: string, s: string)
    requires Blank(p)
    ensures TrimLeft(p + s) == TrimLeft(s)
  {
    if p == "" {
      assert p + s == s;
    } else {
      TrimLeftOfPadded(p[1..], s);
      assert (p + s)[1..] == p[1..] + s;
    }
  }

  lemma {:induction false} TrimRightOfPadded(s: string, q: string)
    requires Blank(q)
    ensures TrimRight(s + q, Space) == TrimRight(s, Space)
  {
    if q == "" {
      assert s + q == s;
    } else {
      TrimRightOfPadded(s, q[..|q| - 1]);
      assert (s + q)[..|s + q| - 1] == s + q[..|q| - 1];
    }
  }

  /** What is left after trimming on one side starts with a character that is kept. */
  lemma {:induction false} TrimLeftSplits(s: string) returns (p: string)
    ensures Blank(p) && s == p + TrimLeft(s)
    ensures TrimLeft(s) == "" || !Space(TrimLeft(s)[0])
  {
    if s != "" && Space(s[0]) {
      var rest := TrimLeftSplits(s[1..]);
      p := [s[0]] + rest;
    } else {
      p := "";
    }
  }

  lemma {:induction false} TrimLeftKeepsTail(s: string, q: string)
    requires TrimLeft(s) != ""
    ensures TrimLeft(s + q) == TrimLeft(s) + q
  {
    if Space(s[0]) {
      TrimLeftKeepsTail(s[1..], q);
      assert (s + q)[1..] == s[1..] + q;
    }
  }

  lemma {:induction false} TrimRightOfBlank(s: string)
    requires Blank(s)
    ensures TrimRight(s, Space) == ""
  {
    if s != "" {
      TrimRightOfBlank(s[..|s| - 1]);
    }
  }

  lemma {:induction false} TrimRightKeepsHead(s: string)
    requires s != "" && !Space(s[0])
    ensures TrimRight(s, Space) != ""
  {
    if |s| > 1 {
      TrimRightKeepsHead(s[..|s| - 1]);
    }
  }

  lemma TrimIsEmpty(s: string)
    ensures TrimSpace(s) == "" <==> Blank(s)
  {
    var p := TrimLeftSplits(s);
    var rest := TrimLeft(s);
    if rest != "" {
      TrimRightKeepsHead(rest);
      assert s[|p|] == rest[0];
    }
  }

  lemma TrimOfPadded(p: string, s: string, q: string)
    requires Blank(p) && Blank(q)
    ensures TrimSpace(p + s + q) == TrimSpace(s)
  {
    assert p + s + q == p + (s + q);
    TrimLeftOfPadded(p, s + q);
    if TrimLeft(s) == "" {
      var front := TrimLeftSplits(s);
      var left := TrimLeftSplits(s + q);
      assert Blank(s + q);
      assert forall c | c in TrimLeft(s + q) :: c in s + q;
      TrimRightOfBlank(TrimLeft(s + q));
    } else {
      TrimLeftKeepsTail(s, q);
      TrimRightOfPadded(TrimLeft(s), q);
    }
  }

  /** A text without white space at its ends. */
  predicate Tight(s: string) {
    s == "" || (!Space(s[0]) && !Space(s[|s| - 1]))
  }

  /** s is core with white space around it. */
  ghost predicate Surrounds(s: string, core: string) {
    Tight(core) && exists p, q :: Blank(p) && Blank(q) && s == p + core + q
  }

  lemma {:induction false} TightIsUntrimmed(s: string)
    requires Tight(s)
    ensures TrimSpace(s) == s
  {
  }

  lemma {:induction false} TrimRightSplits(s: string) returns (q: string)
    ensures Blank(q) && s == TrimRight(s, Space) + q
    ensures TrimRight(s, Space) == "" || !Space(TrimRight(s, Space)[|TrimRight(s, Space)| - 1])
  {
    if s != "" && Space(s[|s| - 1]) {
      var rest := TrimRightSplits(s[..|s| - 1]);
      q := rest + [s[|s| - 1]];
    } else {
      q := "";
    }
  }

  /** Trimming finds exactly the core of a text. */
  lemma TrimMeans(s: string, core: string)
    ensures TrimSpace(s) == core <==> Surrounds(s, core)
  {
    if Surrounds(s, core) {
      var p, q :| Blank(p) && Blank(q) && s == p + core + q;
      TrimOfPadded(p, core, q);
      TightIsUntrimmed(core);
    }
    var p := TrimLeftSplits(s);
    var q := TrimRightSplits(TrimLeft(s));
    var t := TrimSpace(s);
    assert TrimLeft(s) == t + q;
    assert t != "" ==> t[0] == TrimLeft(s)[0];
    assert s == p + t + q;
  }

  // ----- Bytes -----

  function Utf8Char(c: char): (b: Bytes)
    ensures b != [] && (NUL in b <==> c == '\0')
  {
    var n := c as int;
    if n < 0x80 then [n as byte]
    else if n < 0x800 then [(0xC0 + n / 64) as byte, Tail(n)]
    else if n < 0x10000 then [(0xE0 + n / 4096) as byte, Tail(n / 64), Tail(n)]
    else [(0xF0 + n / 262144) as byte, Tail(n / 4096), Tail(n / 64), Tail(n)]
  }

  function Tail(n: nat): (b: byte)
    ensures b != NUL
  {
    (0x80 + n % 64) as byte
  }

  function Utf8(s: string): (b: Bytes)
    ensures b == [] <==> s == ""
    ensures NulFree(b) <==> '\0' !in s
  {
    if s == "" then [] else assert s == [s[0]] + s[1..]; Utf8Char(s[0]) + Utf8(s[1..])
  }

  /** ASCII texts are their own bytes. */
  lemma {:induction false} AsciiIsItself(s: string)
    requires forall i | 0 <= i < |s| :: s[i] as int < 128
    ensures |Utf8(s)| == |s| && forall i | 0 <= i < |s| :: Utf8(s)[i] as int == s[i] as int
  {
    if s != "" {
      AsciiIsItself(s[1..]);
      assert Utf8(s) == [s[0] as int as byte] + Utf8(s[1..]);
    }
  }

  /** The number of bytes of a character, by the first. */
  function Width(b: byte): nat {
    if b < 0xC0 then 1 else if b < 0xE0 then 2 else if b < 0xF0 then 3 else 4
  }

  /** The code point that the bytes of a character stand for. */
  function CodePoint(b: Bytes): int
    requires 1 <= |b| <= 4
  {
    var last := b[|b| - 1] as int - 0x80;
    if |b| == 1 then b[0] as int
    else if |b| == 2 then (b[0] as int - 0xC0) * 64 + last
    else if |b| == 3 then ((b[0] as int - 0xE0) * 64 + (b[1] as int - 0x80)) * 64 + last
    else (((b[0] as int - 0xF0) * 64 + (b[1] as int - 0x80)) * 64 + (b[2] as int - 0x80)) * 64 + last
  }

  lemma Utf8CharDecodes(c: char)
    ensures var b := Utf8Char(c); 1 <= |b| <= 4 && |b| == Width(b[0]) && CodePoint(b) == c as int
  {
    var n := c as int;
    assert n / 4096 == n / 64 / 64 && n / 262144 == n / 64 / 64 / 64;
  }

  /** The first character can be read off the bytes. */
  lemma Utf8CharIsPrefixFree(c: char, d: char, x: Bytes, y: Bytes)
    requires Utf8Char(c) + x == Utf8Char(d) + y
    ensures c == d && x == y
  {
    var b, e := Utf8Char(c), Utf8Char(d);
    Utf8CharDecodes(c);
    Utf8CharDecodes(d);
    assert (b + x)[0] == b[0] && (e + y)[0] == e[0];
    assert b == (b + x)[..|b|] == (e + y)[..|e|] == e;
    assert x == (b + x)[|b|..] == (e + y)[|e|..] == y;
  }

  lemma {:induction false} Utf8IsInjective(s: string, t: string)
    ensures Utf8(s) == Utf8(t) <==> s == t
  {
    if Utf8(s) == Utf8(t) && s != "" {
      Utf8CharIsPrefixFree(s[0], t[0], Utf8(s[1..]), Utf8(t[1..]));
      Utf8IsInjective(s[1..], t[1..]);
      assert s == [s[0]] + s[1..] && t == [t[0]] + t[1..];
    }
  }
}
