/** What a heading is: the lines that are headings, and their levels and titles. */
module HeadingMeaning {
  import opened Prelude
  import opened CorpusChunker

  function Hashes(n: nat): (s: string)
    ensures |s| == n && forall i :: 0 <= i < n ==> s[i] == '#'
  {
    seq(n, _ => '#')
  }

  predicate AllBlank(s: string) {
    forall i :: 0 <= i < |s| ==> s[i] == ' ' || s[i] == '\t'
  }

  /** Neither end of the title is blank; behind the hashes of a line that is otherwise blank, it is the last blank. */
  predicate Trimmed(title: string, tail: string) {
    && title != ""
    && (if Blank(title[0]) then |title| == 1 && tail == "" else !Blank(title[|title| - 1]))
  }

  /** One to six hashes, blanks, the title, blanks. */
  predicate Composed(line: string, level: nat, gap: string, title: string, tail: string) {
    && 1 <= level <= 6 && line == Hashes(level) + gap + title + tail
    && gap != "" && AllBlank(gap) && AllBlank(tail) && Trimmed(title, tail)
  }

  // ---------------------------------------------------------------- taking a line apart

  lemma OneMoreHash(line: string, n: nat, rest: string)
    requires line != "" && line[0] == '#' && line[1..] == Hashes(n) + rest
    ensures line == Hashes(n + 1) + rest
  {
    assert line == "#" + line[1..] && Hashes(n + 1) == "#" + Hashes(n);
  }

  /** Behind the counted hashes. */
  function Behind(line: string): string {
    line[CountHashes(line)..]
  }

  lemma BehindUnfolds(line: string)
    requires line != "" && line[0] == '#'
    ensures CountHashes(line) == CountHashes(line[1..]) + 1 && Behind(line) == Behind(line[1..])
  {
    assert line[1..][CountHashes(line[1..])..] == line[CountHashes(line)..];
  }

  lemma {:induction false} HashesFirst(line: string)
    ensures line == Hashes(CountHashes(line)) + Behind(line) && (Behind(line) != "" ==> Behind(line)[0] != '#')
  {
    if line != "" && line[0] == '#' {
      HashesFirst(line[1..]);
      BehindUnfolds(line);
      OneMoreHash(line, CountHashes(line[1..]), Behind(line));
    } else {
      assert Hashes(0) == "" && CountHashes(line) == 0 && Behind(line) == line;
    }
  }

  lemma {:induction false} CountIs(n: nat, rest: string)
    requires rest != "" ==> rest[0] != '#'
    ensures CountHashes(Hashes(n) + rest) == n
  {
    var line := Hashes(n) + rest;
    if n == 0 {
      assert line == rest;
    } else {
      assert line[1..] == Hashes(n - 1) + rest;
      CountIs(n - 1, rest);
    }
  }

  /** r is what is left of s when leading blanks are taken away. */
  predicate LeadingGone(s: string, r: string) {
    |r| <= |s| && s == s[..|s| - |r|] + r && AllBlank(s[..|s| - |r|])
  }

  lemma OneMoreLeading(s: string, r: string)
    requires s != "" && Blank(s[0]) && LeadingGone(s[1..], r)
    ensures LeadingGone(s, r)
  {
    assert s[..|s| - |r|] == [s[0]] + s[1..][..|s| - 1 - |r|];
  }

  lemma {:induction false} SkipSplits(s: string)
    ensures LeadingGone(s, SkipBlanks(s)) && (SkipBlanks(s) != "" ==> !Blank(SkipBlanks(s)[0]))
  {
    if s != "" && Blank(s[0]) {
      SkipSplits(s[1..]);
      OneMoreLeading(s, SkipBlanks(s));
    }
  }

  lemma {:induction false} SkipIs(gap: string, rest: string)
    requires AllBlank(gap) && (rest != "" ==> !Blank(rest[0]))
    ensures SkipBlanks(gap + rest) == rest
  {
    if gap == "" {
      assert gap + rest == rest;
    } else {
      assert (gap + rest)[1..] == gap[1..] + rest;
      SkipIs(gap[1..], rest);
    }
  }

  /** r is what is left of s when trailing blanks are taken away. */
  predicate TrailingGone(s: string, r: string) {
    |r| <= |s| && s == r + s[|r|..] && AllBlank(s[|r|..])
  }

  lemma OneMoreTrailing(s: string, r: string)
    requires s != "" && Blank(s[|s| - 1]) && TrailingGone(s[..|s| - 1], r)
    ensures TrailingGone(s, r)
  {
    assert s[|r|..] == s[..|s| - 1][|r|..] + [s[|s| - 1]];
  }

  lemma {:induction false} DropSplits(s: string)
    ensures TrailingGone(s, DropBlanks(s)) && (DropBlanks(s) != "" ==> !Blank(DropBlanks(s)[|DropBlanks(s)| - 1]))
  {
    if s != "" && Blank(s[|s| - 1]) {
      DropSplits(s[..|s| - 1]);
      OneMoreTrailing(s, DropBlanks(s));
    }
  }

  lemma {:induction false} DropIs(title: string, tail: string)
    requires AllBlank(tail) && (title != "" ==> !Blank(title[|title| - 1]))
    ensures DropBlanks(title + tail) == title
  {
    if tail == "" {
      assert title + tail == title;
    } else {
      assert (title + tail)[..|title + tail| - 1] == title + tail[..|tail| - 1];
      DropIs(title, tail[..|tail| - 1]);
    }
  }

  // ---------------------------------------------------------------- lines

  lemma Parts(line: string, head: string, gap: string, title: string, tail: string, after: string, rest: string)
    requires line == head + after && after == gap + rest && rest == title + tail
    ensures line == head + gap + title + tail
  {
  }

  lemma KeepsFirst(s: string)
    requires s != "" && !Blank(s[0])
    ensures DropBlanks(s) != "" && DropBlanks(s)[0] == s[0]
  {
    DropSplits(s);
    var d := |DropBlanks(s)|;
    assert d < |s| ==> s[d..][0] == s[d];
  }

  lemma TitledIsComposed(line: string, level: nat, after: string) returns (gap: string, tail: string)
    requires 1 <= level <= 6 && line == Hashes(level) + after && after != "" && Blank(after[0]) && SkipBlanks(after) != ""
    ensures Composed(line, level, gap, DropBlanks(SkipBlanks(after)), tail)
  {
    SkipSplits(after);
    var title := SkipBlanks(after);
    gap := after[..|after| - |title|];
    DropSplits(title);
    KeepsFirst(title);
    tail := title[|DropBlanks(title)|..];
    Parts(line, Hashes(level), gap, DropBlanks(title), tail, after, title);
  }

  lemma SkipsAllBlank(s: string)
    requires SkipBlanks(s) == ""
    ensures AllBlank(s)
  {
    SkipSplits(s);
    assert s[..|s|] == s;
  }

  lemma BlankIsComposed(line: string, level: nat, after: string) returns (gap: string)
    requires 1 <= level <= 6 && line == Hashes(level) + after && |after| >= 2 && SkipBlanks(after) == ""
    ensures Composed(line, level, gap, after[|after| - 1..], "")
  {
    SkipsAllBlank(after);
    var n := |after| - 1;
    gap := after[..n];
    assert after == gap + after[n..] && after[n..] == after[n..] + "";
    Parts(line, Hashes(level), gap, after[n..], "", after, after[n..]);
  }

  lemma HeadingIsComposed(line: string) returns (gap: string, tail: string)
    requires HeadingOfLine(line).Some?
    ensures Composed(line, HeadingOfLine(line).value.0, gap, HeadingOfLine(line).value.1, tail)
  {
    var n := CountHashes(line);
    HashesFirst(line);
    if SkipBlanks(line[n..]) != "" {
      gap, tail := TitledIsComposed(line, n, line[n..]);
    } else {
      gap := BlankIsComposed(line, n, line[n..]);
      tail := "";
    }
  }

  lemma ComposedAfter(line: string, level: nat, gap: string, title: string, tail: string)
    requires Composed(line, level, gap, title, tail)
    ensures CountHashes(line) == level && line[level..] == gap + title + tail
  {
    var after := gap + title + tail;
    assert line == Hashes(level) + after;
    assert after[0] == gap[0];
    CountIs(level, after);
  }

  lemma SkipsBlankTitle(gap: string, title: string)
    requires AllBlank(gap) && |title| == 1 && Blank(title[0])
    ensures SkipBlanks(gap + title + "") == ""
  {
    var after := gap + title;
    assert forall i :: 0 <= i < |after| ==> after[i] == if i < |gap| then gap[i] else title[0];
    SkipIs(after, "");
  }

  lemma SkipsToTitle(gap: string, title: string, tail: string)
    requires AllBlank(gap) && Trimmed(title, tail)
    ensures SkipBlanks(gap + title + tail) == if Blank(title[0]) then "" else title + tail
  {
    if Blank(title[0]) {
      SkipsBlankTitle(gap, title);
    } else {
      assert gap + title + tail == gap + (title + tail);
      SkipIs(gap, title + tail);
    }
  }

  lemma ComposedIsHeading(line: string, level: nat, gap: string, title: string, tail: string)
    requires Composed(line, level, gap, title, tail)
    ensures HeadingOfLine(line) == Some((level, title))
  {
    ComposedAfter(line, level, gap, title, tail);
    SkipsToTitle(gap, title, tail);
    var after := gap + title + tail;
    if Blank(title[0]) {
      assert after[|after| - 1..] == title;
    } else {
      DropIs(title, tail);
    }
  }

  /** A line is a heading of a level and a title if and only if it is composed of that many hashes, blanks, the title
      and blanks. */
  lemma HeadingOfLineIff(line: string, level: nat, title: string)
    ensures HeadingOfLine(line) == Some((level, title)) <==> exists gap, tail :: Composed(line, level, gap, title, tail)
  {
    if HeadingOfLine(line) == Some((level, title)) {
      var gap, tail := HeadingIsComposed(line);
    }
    if gap, tail :| Composed(line, level, gap, title, tail) {
      ComposedIsHeading(line, level, gap, title, tail);
    }
  }

  // ---------------------------------------------------------------- texts

  predicate LineStart(text: string, i: nat) {
    i < |text| && (i == 0 || text[i - 1] == '\n')
  }

  predicate InLine(text: string, i: nat, e: nat)
    requires i <= e <= |text|
  {
    (forall k :: i <= k < e ==> text[k] != '\n') && (e < |text| ==> text[e] == '\n')
  }

  lemma {:induction false} LineEndIs(text: string, i: nat)
    requires i <= |text|
    ensures InLine(text, i, LineEnd(text, i))
    decreases |text| - i
  {
    if i < |text| && text[i] != '\n' {
      LineEndIs(text, i + 1);
    }
  }

  /** A line from its start to its end, without the line feed, that reads as the heading. */
  ghost predicate HeadingLine(text: string, h: Heading) {
    && LineStart(text, h.start)
    && exists e :: h.start <= e <= |text| && InLine(text, h.start, e) && HeadingOfLine(text[h.start..e]) == Some((h.level, h.title))
  }

  lemma LineEndUnique(text: string, i: nat, e: nat)
    requires i <= e <= |text| && InLine(text, i, e)
    ensures LineEnd(text, i) == e
  {
    LineEndIs(text, i);
    var f := LineEnd(text, i);
    assert (f < |text| ==> text[f] == '\n') && (e < |text| ==> text[e] == '\n');
  }

  lemma HeadingAtIff(text: string, i: nat, h: Heading)
    requires LineStart(text, i)
    ensures HeadingAt(text, i) == Some(h) <==> h.start == i && HeadingLine(text, h)
  {
    LineEndIs(text, i);
    if h.start == i && HeadingLine(text, h) {
      var e :| h.start <= e <= |text| && InLine(text, h.start, e) && HeadingOfLine(text[h.start..e]) == Some((h.level, h.title));
      LineEndUnique(text, i, e);
    }
  }

  lemma LaterLineStarts(text: string, i: nat, e: nat, start: nat)
    requires i <= e <= |text| && InLine(text, i, e) && i < start < |text| && text[start - 1] == '\n'
    ensures e < start
  {
  }

  lemma AmongFirst(first: Option<Heading>, rest: seq<Heading>, h: Heading)
    ensures h in WithFirst(first, rest) <==> first == Some(h) || h in rest
  {
  }

  lemma HeadingUnfolds(text: string, i: nat, h: Heading)
    requires i <= |text|
    ensures h in HeadingsFrom(text, i) <==>
            HeadingAt(text, i) == Some(h) || (LineEnd(text, i) < |text| && h in HeadingsFrom(text, LineEnd(text, i) + 1))
  {
    HeadingsUnfold(text, i);
    AmongFirst(HeadingAt(text, i), if LineEnd(text, i) < |text| then HeadingsFrom(text, LineEnd(text, i) + 1) else [], h);
  }

  lemma FirstLineIff(text: string, i: nat, h: Heading)
    requires i <= |text| && (i == 0 || text[i - 1] == '\n')
    ensures HeadingAt(text, i) == Some(h) <==> h.start == i && HeadingLine(text, h)
  {
    if i < |text| {
      HeadingAtIff(text, i, h);
    }
  }

  lemma LaterLinesOnly(text: string, i: nat, h: Heading)
    requires i <= |text| && h.start > i && LineStart(text, h.start)
    ensures LineEnd(text, i) < h.start
  {
    LineEndIs(text, i);
    LaterLineStarts(text, i, LineEnd(text, i), h.start);
  }

  ghost predicate HeadingLineFrom(text: string, i: nat, h: Heading) {
    h.start >= i && HeadingLine(text, h)
  }

  lemma LinesUnfold(text: string, i: nat, h: Heading)
    requires i <= |text|
    ensures HeadingLineFrom(text, i, h) <==>
            (h.start == i && HeadingLine(text, h)) || (LineEnd(text, i) < |text| && HeadingLineFrom(text, LineEnd(text, i) + 1, h))
  {
    if h.start > i && LineStart(text, h.start) {
      LaterLinesOnly(text, i, h);
    }
  }

  predicate AtLineStart(text: string, k: nat) {
    k <= |text| && (k == 0 || text[k - 1] == '\n')
  }

  /** What is alike from the next line on is alike from this one on. */
  ghost predicate StepsAlike(text: string, among: nat -> bool, lines: nat -> bool, k: nat) {
    AtLineStart(text, k) && AlikeNext(text, among, lines, k) ==> among(k) == lines(k)
  }

  predicate AlikeNext(text: string, among: nat -> bool, lines: nat -> bool, k: nat)
    requires k <= |text|
  {
    LineEnd(text, k) < |text| ==> among(LineEnd(text, k) + 1) == lines(LineEnd(text, k) + 1)
  }

  lemma {:induction false} AlikeThroughout(text: string, among: nat -> bool, lines: nat -> bool, i: nat)
    requires AtLineStart(text, i) && forall k :: StepsAlike(text, among, lines, k)
    ensures among(i) == lines(i)
    decreases |text| - i
  {
    if LineEnd(text, i) < |text| {
      AlikeThroughout(text, among, lines, LineEnd(text, i) + 1);
    }
    assert StepsAlike(text, among, lines, i);
  }

  lemma HeadingStep(text: string, h: Heading, k: nat)
    requires AtLineStart(text, k)
    requires LineEnd(text, k) < |text| ==>
               (h in HeadingsFrom(text, LineEnd(text, k) + 1) <==> HeadingLineFrom(text, LineEnd(text, k) + 1, h))
    ensures h in HeadingsFrom(text, k) <==> HeadingLineFrom(text, k, h)
  {
    HeadingUnfolds(text, k, h);
    FirstLineIff(text, k, h);
    LinesUnfold(text, k, h);
  }

  ghost predicate Listed(text: string, k: nat, h: Heading) {
    k <= |text| && h in HeadingsFrom(text, k)
  }

  lemma ListedStepsAlike(text: string, h: Heading, among: nat -> bool, lines: nat -> bool, k: nat)
    requires forall j {:trigger among(j)} :: among(j) == Listed(text, j, h)
    requires forall j {:trigger lines(j)} :: lines(j) == HeadingLineFrom(text, j, h)
    ensures StepsAlike(text, among, lines, k)
  {
    if AtLineStart(text, k) && AlikeNext(text, among, lines, k) {
      HeadingStep(text, h, k);
    }
  }

  /** The headings of a text are exactly its lines that read as headings. */
  lemma HeadingsAre(text: string, h: Heading)
    ensures h in Headings(text) <==> HeadingLine(text, h)
  {
    var among := (k: nat) => Listed(text, k, h);
    var lines := (k: nat) => HeadingLineFrom(text, k, h);
    forall k ensures StepsAlike(text, among, lines, k) {
      ListedStepsAlike(text, h, among, lines, k);
    }
    AlikeThroughout(text, among, lines, 0);
  }
}
