/** The Python string operations the splitters use, with Python's notion of white space. */
module PythonText {

  /** `str.isspace` for one code point. */
  predicate IsSpace(c: char) {
    || '\t' <= c <= '\r'
    || '\U{1c}' <= c <= ' '
    || c == '\U{85}' || c == '\U{a0}' || c == '\U{1680}'
    || '\U{2000}' <= c <= '\U{200a}'
    || c == '\U{2028}' || c == '\U{2029}' || c == '\U{202f}' || c == '\U{205f}' || c == '\U{3000}'
  }

  function LStrip(s: string): (r: string)
    ensures |r| <= |s|
  {
    if s != "" && IsSpace(s[0]) then LStrip(s[1..]) else s
  }

  function RStrip(s: string): (r: string)
    ensures |r| <= |s|
  {
    if s != "" && IsSpace(s[|s| - 1]) then RStrip(s[..|s| - 1]) else s
  }

  ghost predicate AllSpace(s: string) {
    forall i :: 0 <= i < |s| ==> IsSpace(s[i])
  }

  /** Stripping removes exactly the white space at that end. */
  lemma {:induction false} LStripSplits(s: string)
    ensures var r := LStrip(s);
            && s == s[..|s| - |r|] + r
            && AllSpace(s[..|s| - |r|])
            && (r != "" ==> !IsSpace(r[0]))
  {
    if s != "" && IsSpace(s[0]) {
      LStripSplits(s[1..]);
      PrependSpace(s, s[0], s[1..], LStrip(s[1..]));
    }
  }

  lemma PrependSpace(s: string, first: char, rest: string, r: string)
    requires s == [first] + rest && IsSpace(first)
    requires |r| <= |rest| && rest == rest[..|rest| - |r|] + r && AllSpace(rest[..|rest| - |r|])
    ensures s == s[..|s| - |r|] + r && AllSpace(s[..|s| - |r|])
  {
    assert s[..|s| - |r|] == [first] + rest[..|rest| - |r|];
  }

  lemma {:induction false} RStripSplits(s: string)
    ensures var r := RStrip(s);
            && s == r + s[|r|..]
            && AllSpace(s[|r|..])
            && (r != "" ==> !IsSpace(r[|r| - 1]))
  {
    if s != "" && IsSpace(s[|s| - 1]) {
      var init, last := s[..|s| - 1], s[|s| - 1];
      RStripSplits(init);
      var r := RStrip(init);
      AppendSpace(s, init, last, r);
    }
  }

  lemma AppendSpace(s: string, init: string, last: char, r: string)
    requires s == init + [last] && IsSpace(last)
    requires |r| <= |init| && init == r + init[|r|..] && AllSpace(init[|r|..])
    ensures s == r + s[|r|..] && AllSpace(s[|r|..])
  {
    assert s[|r|..] == init[|r|..] + [last];
  }

  /** `s.rfind(c, lo, hi)`: the last occurrence in s[lo..hi], or -1. */
  function RFind(s: string, c: char, lo: nat, hi: nat): (p: int)
    requires hi <= |s|
    ensures p == -1 || lo <= p < hi
    ensures p >= 0 ==> s[p] == c
    ensures forall i :: lo <= i < hi && i > p ==> s[i] != c
  {
    if hi <= lo then -1 else if s[hi - 1] == c then hi - 1 else RFind(s, c, lo, hi - 1)
  }

  /** The characters that are not white space, in order. */
  function Visible(s: string): string {
    if s == "" then ""
    else if IsSpace(s[0]) then Visible(s[1..])
    else [s[0]] + Visible(s[1..])
  }

  /** What is visible of one character. */
  function Shown(c: char): string {
    if IsSpace(c) then "" else [c]
  }

  lemma VisibleCons(c: char, s: string)
    ensures Visible([c] + s) == Shown(c) + Visible(s)
  {
    assert ([c] + s)[1..] == s;
  }

  lemma Associate(a: string, b: string, c: string)
    ensures a + (b + c) == a + b + c
  {
  }

  lemma {:induction false} VisibleConcat(a: string, b: string)
    ensures Visible(a + b) == Visible(a) + Visible(b)
  {
    if a == "" {
      assert a + b == b;
    } else {
      var c, rest := a[0], a[1..];
      VisibleConcat(rest, b);
      assert a + b == [c] + (rest + b) && a == [c] + rest;
      VisibleCons(c, rest + b);
      VisibleCons(c, rest);
      Associate(Shown(c), Visible(rest), Visible(b));
    }
  }

  lemma {:induction false} VisibleOfSpace(s: string)
    requires AllSpace(s)
    ensures Visible(s) == ""
  {
    if s != "" {
      assert AllSpace(s[1..]);
      VisibleOfSpace(s[1..]);
    }
  }

  lemma VisibleStrip(s: string)
    ensures Visible(LStrip(s)) == Visible(s) && Visible(RStrip(s)) == Visible(s)
  {
    var l, r := LStrip(s), RStrip(s);
    LStripSplits(s);
    RStripSplits(s);
    VisibleConcat(s[..|s| - |l|], l);
    VisibleConcat(r, s[|r|..]);
    VisibleOfSpace(s[..|s| - |l|]);
    VisibleOfSpace(s[|r|..]);
  }

  /** `str(n)` */
  function Decimal(n: nat): (d: string)
    ensures n < 10 ==> |d| == 1
    ensures 10 <= n < 100 ==> |d| == 2
    ensures 100 <= n < 1000 ==> |d| == 3
    ensures n >= 100 ==> |d| >= 3
  {
    if n < 10 then ["0123456789"[n]] else Decimal(n / 10) + ["0123456789"[n % 10]]
  }
}
