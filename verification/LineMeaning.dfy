/** What splitting a text into lines means: the line ends, spelled out, and the only way to cut the text at them. */
module LineMeaning {
  import opened Embeddings

  const LINE_ENDS: set<string> := {
    "\n", "\r", "\r\n", "\U{B}", "\U{C}", "\U{1C}", "\U{1D}", "\U{1E}", "\U{85}", "\U{2028}", "\U{2029}"}

  predicate Breaks(c: char) {
    [c] in LINE_ENDS
  }

  predicate OneLine(s: string) {
    forall i :: 0 <= i < |s| ==> !Breaks(s[i])
  }

  /** Each line and its end. */
  function Glue(lines: seq<string>, ends: seq<string>): string
    requires |lines| == |ends|
  {
    if lines == [] then "" else lines[0] + ends[0] + Glue(lines[1..], ends[1..])
  }

  /** Nothing of the text is lost, no line holds a break, every line but a last one that is not empty has an end, and
      a carriage return and the line feed after it are one end. */
  predicate CutInto(s: string, lines: seq<string>, ends: seq<string>) {
    && |lines| == |ends| && s == Glue(lines, ends)
    && (forall i :: 0 <= i < |lines| ==> OneLine(lines[i]))
    && (forall i :: 0 <= i < |ends| ==> ends[i] in LINE_ENDS || (ends[i] == "" && i == |ends| - 1 && lines[i] != ""))
    && forall i :: 0 < i < |ends| ==> !(ends[i - 1] == "\r" && lines[i] == "" && ends[i] == "\n")
  }

  lemma OneChar(c: char, d: char)
    ensures [c] == [d] <==> c == d
  {
    assert [c][0] == c && [d][0] == d;
  }

  lemma BreaksIff(c: char)
    ensures IsBoundary(c) <==> Breaks(c)
  {
    assert "\n" == ['\n'] && "\r" == ['\r'] && "\U{B}" == ['\U{B}'] && "\U{C}" == ['\U{C}'] && "\U{1C}" == ['\U{1C}'];
    assert "\U{1D}" == ['\U{1D}'] && "\U{1E}" == ['\U{1E}'] && "\U{85}" == ['\U{85}'] && "\U{2028}" == ['\U{2028}'];
    assert "\U{2029}" == ['\U{2029}'];
    assert |"\r\n"| == 2;
    forall d ensures [c] == [d] <==> c == d {
      OneChar(c, d);
    }
  }

  lemma UnbrokenIff(s: string)
    ensures Unbroken(s) <==> OneLine(s)
  {
    forall c ensures IsBoundary(c) <==> Breaks(c) {
      BreaksIff(c);
    }
  }

  lemma EndAt(s: string, k: nat)
    requires k < |s| && IsBoundary(s[k])
    ensures s[k..k + BoundaryLength(s, k)] in LINE_ENDS
    ensures s[k..k + BoundaryLength(s, k)] == "\r" ==> (k + 1 < |s| ==> s[k + 1] != '\n')
  {
    if BoundaryLength(s, k) == 2 {
      assert s[k..k + 2] == "\r\n";
    } else {
      assert s[k..k + 1] == [s[k]];
      BreaksIff(s[k]);
    }
  }

  lemma CutCons(s: string, line: string, end: string, rest: string, lines: seq<string>, ends: seq<string>)
    requires s == line + end + rest && OneLine(line) && end in LINE_ENDS && CutInto(rest, lines, ends)
    requires end == "\r" && rest != "" ==> rest[0] != '\n'
    ensures CutInto(s, [line] + lines, [end] + ends)
  {
    assert ([line] + lines)[1..] == lines && ([end] + ends)[1..] == ends;
    if lines != [] && lines[0] == "" && ends[0] == "\n" {
      assert rest[0] == '\n';
    }
  }

  lemma {:induction false} SplitCuts(s: string) returns (ends: seq<string>)
    ensures CutInto(s, SplitLines(s), ends)
    decreases |s|
  {
    if s == "" {
      ends := [];
    } else {
      var k := Boundary(s, 0);
      UnbrokenIff(s[..k]);
      if k == |s| {
        ends := [""];
        assert s[..k] == s && [s][1..] == [] && [""][1..] == [];
      } else {
        var n := k + BoundaryLength(s, k);
        var more := SplitCuts(s[n..]);
        EndAt(s, k);
        assert s == s[..k] + s[k..n] + s[n..];
        CutCons(s, s[..k], s[k..n], s[n..], SplitLines(s[n..]), more);
        ends := [s[k..n]] + more;
      }
    }
  }

  /** The text behind a carriage return that is an end of its own does not start with a line feed. */
  lemma NoFeedBehind(lines: seq<string>, ends: seq<string>, s: string)
    requires CutInto(s, lines, ends) && lines != [] && ends[0] == "\r"
    ensures Glue(lines[1..], ends[1..]) != "" ==> Glue(lines[1..], ends[1..])[0] != '\n'
  {
    if |lines| > 1 {
      assert lines[1..][0] == lines[1] && ends[1..][0] == ends[1];
      BreaksIff('\n');
      if lines[1] == "" && ends[1] in LINE_ENDS {
        assert ends[1] != "\n";
      }
    }
  }

  lemma CutTail(s: string, lines: seq<string>, ends: seq<string>)
    requires CutInto(s, lines, ends) && lines != []
    ensures CutInto(Glue(lines[1..], ends[1..]), lines[1..], ends[1..])
  {
    forall i | 0 < i < |ends[1..]| ensures !(ends[1..][i - 1] == "\r" && lines[1..][i] == "" && ends[1..][i] == "\n") {
      assert !(ends[i + 1 - 1] == "\r" && lines[i + 1] == "" && ends[i + 1] == "\n");
    }
  }

  lemma FirstBoundary(s: string, line: string, end: string, rest: string)
    requires s == line + end + rest && OneLine(line)
    requires end in LINE_ENDS && (end == "\r" && rest != "" ==> rest[0] != '\n')
    ensures Boundary(s, 0) == |line| < |s| && BoundaryLength(s, |line|) == |end|
    ensures s[..|line|] == line && s[|line| + |end|..] == rest
  {
    UnbrokenIff(line);
    assert s[|line|] == end[0];
    StartsWithBreak(end);
    assert forall j :: 0 <= j < |line| ==> s[j] == line[j];
    if |end| == 2 {
      assert s[|line| + 1] == end[1];
    } else {
      assert rest != "" ==> s[|line| + 1] == rest[0];
    }
  }

  lemma StartsWithBreak(end: string)
    requires end in LINE_ENDS
    ensures end != "" && IsBoundary(end[0]) && (|end| == 1 || end == "\r\n")
    ensures |end| == 1 && end[0] == '\r' ==> end == "\r"
  {
  }

  lemma {:induction false} CutIsSplit(s: string, lines: seq<string>, ends: seq<string>)
    requires CutInto(s, lines, ends)
    ensures SplitLines(s) == lines
  {
    if lines != [] {
      var rest := Glue(lines[1..], ends[1..]);
      if ends[0] == "" {
        UnbrokenIff(s);
        assert lines[1..] == [] && s == lines[0];
      } else {
        if ends[0] == "\r" {
          NoFeedBehind(lines, ends, s);
        }
        FirstBoundary(s, lines[0], ends[0], rest);
        CutTail(s, lines, ends);
        CutIsSplit(rest, lines[1..], ends[1..]);
      }
    }
  }

  /** A text has these lines if and only if it can be cut into them at line ends. */
  lemma SplitLinesIff(s: string, lines: seq<string>)
    ensures SplitLines(s) == lines <==> exists ends :: CutInto(s, lines, ends)
  {
    if SplitLines(s) == lines {
      var ends := SplitCuts(s);
    }
    if ends :| CutInto(s, lines, ends) {
      CutIsSplit(s, lines, ends);
    }
  }
}
