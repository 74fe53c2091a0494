/** Cutting a canonical document into chunks. */
module CorpusChunker {
  import opened Prelude
  import opened PythonText

  // ---------------------------------------------------------------- headings

  datatype Heading = Heading(start: nat, level: nat, title: string)

  predicate Blank(c: char) {
    c == ' ' || c == '\t'
  }

  function CountHashes(line: string): (n: nat)
    ensures n <= |line|
  {
    if line != "" && line[0] == '#' then 1 + CountHashes(line[1..]) else 0
  }

  function SkipBlanks(s: string): string {
    if s != "" && Blank(s[0]) then SkipBlanks(s[1..]) else s
  }

  function DropBlanks(s: string): string {
    if s != "" && Blank(s[|s| - 1]) then DropBlanks(s[..|s| - 1]) else s
  }

  /** The heading pattern on one line: one to six hashes, at least one blank, a title. When everything
      after the hashes is blank, the pattern gives the last blank up to the title. */
  function HeadingOfLine(line: string): Option<(nat, string)> {
    var level := CountHashes(line);
    var after := line[level..];
    if !(1 <= level <= 6) || after == "" || !Blank(after[0]) then None
    else
      var title := SkipBlanks(after);
      if title != "" then Some((level, DropBlanks(title)))
      else if |after| >= 2 then Some((level, after[|after| - 1..]))
      else None
  }

  /** The end of the line that contains position i. */
  function LineEnd(text: string, i: nat): (e: nat)
    requires i <= |text|
    ensures i <= e <= |text|
    ensures e < |text| ==> text[e] == '\n'
    decreases |text| - i
  {
    if i == |text| || text[i] == '\n' then i else LineEnd(text, i + 1)
  }

  /** A heading found at or after i: at i itself or after a line feed. */
  predicate HeadingOk(text: string, i: nat, h: Heading) {
    && i <= h.start < |text|
    && 1 <= h.level <= 6
    && (h.start == i || text[h.start - 1] == '\n')
  }

  function HeadingAt(text: string, i: nat): (h: Option<Heading>)
    requires i <= |text|
    ensures h.Some? ==> h.value.start == i < |text| && 1 <= h.value.level <= 6
  {
    var line := HeadingOfLine(text[i..LineEnd(text, i)]);
    if line.Some? then Some(Heading(i, line.value.0, line.value.1)) else None
  }

  /** The headings of the lines that start at or after line start i, in order. */
  function HeadingsFrom(text: string, i: nat): (hs: seq<Heading>)
    requires i <= |text|
    decreases |text| - i
  {
    var h := HeadingAt(text, i);
    var e := LineEnd(text, i);
    var rest := if e < |text| then HeadingsFrom(text, e + 1) else [];
    if h.Some? then [h.value] + rest else rest
  }

  ghost predicate HeadingsOk(text: string, i: nat, hs: seq<Heading>) {
    (forall k :: 0 <= k < |hs| ==> HeadingOk(text, i, hs[k])) && Ascending(hs)
  }

  ghost predicate Ascending(hs: seq<Heading>) {
    forall k, m :: 0 <= k < m < |hs| ==> hs[k].start < hs[m].start
  }

  /** The headings from a line start are that of its line, if it is one, and those of the later lines. */
  function WithFirst(h: Option<Heading>, rest: seq<Heading>): seq<Heading> {
    if h.Some? then [h.value] + rest else rest
  }

  lemma HeadingsUnfold(text: string, i: nat)
    requires i <= |text|
    ensures var e := LineEnd(text, i);
            HeadingsFrom(text, i) == WithFirst(HeadingAt(text, i), if e < |text| then HeadingsFrom(text, e + 1) else [])
  {
  }

  lemma HeadingsOkStep(text: string, i: nat, e: nat, h: Option<Heading>, rest: seq<Heading>)
    requires i <= e <= |text| && (e < |text| ==> text[e] == '\n' && HeadingsOk(text, e + 1, rest)) && (e == |text| ==> rest == [])
    requires h.Some? ==> HeadingOk(text, i, h.value) && h.value.start == i
    ensures HeadingsOk(text, i, WithFirst(h, rest))
  {
  }

  lemma HeadingsOkFrom(text: string, i: nat)
    requires i <= |text| && (LineEnd(text, i) < |text| ==> HeadingsOk(text, LineEnd(text, i) + 1, HeadingsFrom(text, LineEnd(text, i) + 1)))
    ensures HeadingsOk(text, i, HeadingsFrom(text, i))
  {
    var e := LineEnd(text, i);
    HeadingsUnfold(text, i);
    HeadingsOkStep(text, i, e, HeadingAt(text, i), if e < |text| then HeadingsFrom(text, e + 1) else []);
  }

  lemma {:induction false} HeadingsHold(text: string, i: nat)
    requires i <= |text|
    ensures HeadingsOk(text, i, HeadingsFrom(text, i))
    decreases |text| - i
  {
    if LineEnd(text, i) < |text| {
      HeadingsHold(text, LineEnd(text, i) + 1);
    }
    HeadingsOkFrom(text, i);
  }

  function Headings(text: string): seq<Heading> {
    HeadingsFrom(text, 0)
  }

  // ---------------------------------------------------------------- spans

  datatype Span = Span(start: nat, end: nat)

  function SkipSpace(text: string, i: nat): (c: nat)
    requires i <= |text|
    ensures i <= c <= |text|
    ensures forall k :: i <= k < c ==> IsSpace(text[k])
    ensures c < |text| ==> !IsSpace(text[c])
    decreases |text| - i
  {
    if i < |text| && IsSpace(text[i]) then SkipSpace(text, i + 1) else i
  }

  function TrimEnd(text: string, cursor: nat, end: nat): (e: nat)
    requires cursor <= end <= |text|
    ensures cursor <= e <= end
    ensures forall k :: e <= k < end ==> IsSpace(text[k])
    ensures e > cursor ==> !IsSpace(text[e - 1])
    decreases end
  {
    if end > cursor && IsSpace(text[end - 1]) then TrimEnd(text, cursor, end - 1) else end
  }

  /** The first heading strictly inside (cursor, hard), if any. */
  function NextHeading(hs: seq<Heading>, cursor: nat, hard: nat): (r: Option<nat>)
    ensures r.Some? ==> cursor < r.value < hard && exists k :: 0 <= k < |hs| && hs[k].start == r.value
    ensures r.None? ==> forall k :: 0 <= k < |hs| ==> !(cursor < hs[k].start < hard)
  {
    if hs == [] then None
    else if cursor < hs[0].start < hard then Some(hs[0].start)
    else NextHeading(hs[1..], cursor, hard)
  }

  function HardEnd(text: string, hs: seq<Heading>, cursor: nat, maximum: nat): (hard: nat)
    requires cursor < |text| && maximum >= 1
    ensures cursor < hard <= |text| && hard <= cursor + maximum
  {
    var hard := Min(cursor + maximum, |text|);
    var next := NextHeading(hs, cursor, hard);
    if next.Some? then next.value else hard
  }

  predicate Separator(c: char) {
    c == '\n' || c == ' ' || c == '\t'
  }

  /** The largest of the three searches for a separator in (cursor, hard]. */
  function LastSeparator(text: string, cursor: nat, hard: nat): (p: int)
    requires cursor < hard < |text|
    ensures p == -1 || (cursor < p <= hard && Separator(text[p]))
    ensures forall k :: cursor < k <= hard && k > p ==> !Separator(text[k])
  {
    Max(RFind(text, '\n', cursor + 1, hard + 1),
        Max(RFind(text, ' ', cursor + 1, hard + 1), RFind(text, '\t', cursor + 1, hard + 1)))
  }

  function CutEnd(text: string, cursor: nat, hard: nat): (cut: nat)
    requires cursor < hard <= |text|
    ensures cursor < cut <= hard
  {
    if hard < |text| then
      var split := LastSeparator(text, cursor, hard);
      if split > cursor then split else hard
    else hard
  }

  /** The end of the chunk that starts at the visible character `cursor`. */
  function SpanEnd(text: string, hs: seq<Heading>, cursor: nat, maximum: nat): (end: nat)
    requires cursor < |text| && !IsSpace(text[cursor]) && maximum >= 1
    ensures cursor < end <= HardEnd(text, hs, cursor, maximum)
    ensures !IsSpace(text[end - 1])
  {
    var hard := HardEnd(text, hs, cursor, maximum);
    TrimEnd(text, cursor, CutEnd(text, cursor, hard))
  }

  /** The chunks of text[i..]. */
  function SpansFrom(text: string, hs: seq<Heading>, i: nat, maximum: nat): (spans: seq<Span>)
    requires i <= |text| && maximum >= 1
    decreases |text| - i
  {
    var c := SkipSpace(text, i);
    if c == |text| then []
    else
      var end := SpanEnd(text, hs, c, maximum);
      [Span(c, end)] + SpansFrom(text, hs, end, maximum)
  }

  method ChunkSpans(text: string, maximum: int) returns (result: Option<seq<Span>>)
    ensures result.None? <==> maximum < 1
    ensures result.Some? ==> result.value == SpansFrom(text, Headings(text), 0, maximum)
  {
    if maximum < 1 {
      return None;
    }
    var spans := CutSpans(text, Headings(text), maximum);
    return Some(spans);
  }

  /** The spans found so far, then those from the cursor, are all spans. */
  ghost predicate CutUpTo(text: string, hs: seq<Heading>, maximum: nat, spans: seq<Span>, cursor: nat) {
    cursor <= |text| && maximum >= 1 && spans + SpansFrom(text, hs, cursor, maximum) == SpansFrom(text, hs, 0, maximum)
  }

  /** The loop over the cursor. */
  method CutSpans(text: string, headings: seq<Heading>, maximum: nat) returns (spans: seq<Span>)
    requires maximum >= 1
    ensures spans == SpansFrom(text, headings, 0, maximum)
  {
    spans := [];
    var cursor := 0;
    while cursor < |text|
      invariant cursor <= |text|
      invariant CutUpTo(text, headings, maximum, spans, cursor)
    {
      ghost var entry := cursor;
      cursor := SkipWhiteSpace(text, cursor);
      if cursor >= |text| {
        break;
      }
      CutOneMore(spans, text, headings, entry, cursor, maximum);
      var end := FindEnd(text, headings, cursor, maximum);
      spans := spans + [Span(cursor, end)];
      cursor := end;
    }
  }

  /** The inner loop that moves the cursor to the next visible character. */
  method SkipWhiteSpace(text: string, start: nat) returns (cursor: nat)
    requires start <= |text|
    ensures cursor == SkipSpace(text, start)
  {
    cursor := start;
    while cursor < |text| && IsSpace(text[cursor])
      invariant start <= cursor <= |text|
      invariant SkipSpace(text, cursor) == SkipSpace(text, start)
    {
      cursor := cursor + 1;
    }
  }

  /** The body of the loop once `cursor` stands on a visible character. */
  method FindEnd(text: string, headings: seq<Heading>, cursor: nat, maximum: nat) returns (end: nat)
    requires cursor < |text| && !IsSpace(text[cursor]) && maximum >= 1
    ensures end == SpanEnd(text, headings, cursor, maximum)
  {
    var hardEnd := Min(cursor + maximum, |text|);
    var nextHeading := NextHeading(headings, cursor, hardEnd);
    if nextHeading.Some? {
      hardEnd := nextHeading.value;
    }
    end := hardEnd;
    if hardEnd < |text| {
      var split := LastSeparator(text, cursor, hardEnd);
      if split > cursor {
        end := split;
      }
    }
    ghost var cut := end;
    while end > cursor && IsSpace(text[end - 1])
      invariant cursor <= end <= cut
      invariant TrimEnd(text, cursor, end) == TrimEnd(text, cursor, cut)
    {
      end := end - 1;
    }
    // the visible character at the cursor is never trimmed, so the span is not empty
    assert end > cursor;
  }

  lemma CutOneMore(spans: seq<Span>, text: string, hs: seq<Heading>, entry: nat, cursor: nat, maximum: nat)
    requires CutUpTo(text, hs, maximum, spans, entry) && cursor == SkipSpace(text, entry) < |text|
    ensures var end := SpanEnd(text, hs, cursor, maximum);
            CutUpTo(text, hs, maximum, spans + [Span(cursor, end)], end)
  {
    var end := SpanEnd(text, hs, cursor, maximum);
    var rest := SpansFrom(text, hs, end, maximum);
    assert SpansFrom(text, hs, entry, maximum) == [Span(cursor, end)] + rest;
    assert spans + ([Span(cursor, end)] + rest) == spans + [Span(cursor, end)] + rest;
  }

  // ---------------------------------------------------------------- what the spans are

  ghost predicate SpanOk(text: string, maximum: nat, s: Span) {
    && s.start < s.end <= |text|
    && s.end - s.start <= maximum
    && !IsSpace(text[s.start]) && !IsSpace(text[s.end - 1])
  }

  ghost predicate Covered(spans: seq<Span>, i: nat) {
    exists k :: 0 <= k < |spans| && spans[k].start <= i < spans[k].end
  }

  lemma CoveredCons(s: Span, rest: seq<Span>, p: nat)
    ensures Covered([s] + rest, p) <==> s.start <= p < s.end || Covered(rest, p)
  {
    var spans := [s] + rest;
    if s.start <= p < s.end { assert spans[0] == s; }
    if Covered(rest, p) {
      var k :| 0 <= k < |rest| && rest[k].start <= p < rest[k].end;
      assert spans[k + 1] == rest[k];
    }
  }

  /** The spans from i are the span at the next visible character and those after it. */
  lemma SpansUnfold(text: string, hs: seq<Heading>, i: nat, maximum: nat)
    requires i <= |text| && maximum >= 1 && SkipSpace(text, i) < |text|
    ensures var c := SkipSpace(text, i);
            var end := SpanEnd(text, hs, c, maximum);
            && i <= c < end <= |text| && SpanOk(text, maximum, Span(c, end))
            && SpansFrom(text, hs, i, maximum) == [Span(c, end)] + SpansFrom(text, hs, end, maximum)
  {
  }

  ghost predicate SoundFrom(text: string, maximum: nat, i: nat, spans: seq<Span>) {
    forall k :: 0 <= k < |spans| ==> i <= spans[k].start && SpanOk(text, maximum, spans[k])
  }

  lemma SoundCons(text: string, maximum: nat, i: nat, s: Span, rest: seq<Span>)
    requires i <= s.start && SpanOk(text, maximum, s) && SoundFrom(text, maximum, s.end, rest)
    ensures SoundFrom(text, maximum, i, [s] + rest)
  {
  }

  /** Spans are non-empty, at most `maximum` long, start and end on visible characters. */
  lemma {:induction false} SpansAreSound(text: string, hs: seq<Heading>, i: nat, maximum: nat)
    requires i <= |text| && maximum >= 1
    ensures SoundFrom(text, maximum, i, SpansFrom(text, hs, i, maximum))
    decreases |text| - i
  {
    var c := SkipSpace(text, i);
    if c < |text| {
      SpansUnfold(text, hs, i, maximum);
      var end := SpanEnd(text, hs, c, maximum);
      SpansAreSound(text, hs, end, maximum);
      SoundCons(text, maximum, i, Span(c, end), SpansFrom(text, hs, end, maximum));
    }
  }

  ghost predicate Disjoint(spans: seq<Span>) {
    forall k, m :: 0 <= k < m < |spans| ==> spans[k].end <= spans[m].start
  }

  lemma DisjointCons(text: string, maximum: nat, s: Span, rest: seq<Span>)
    requires Disjoint(rest) && SoundFrom(text, maximum, s.end, rest)
    ensures Disjoint([s] + rest)
  {
  }

  /** Spans are ordered and disjoint. */
  lemma {:induction false} SpansAreOrdered(text: string, hs: seq<Heading>, i: nat, maximum: nat)
    requires i <= |text| && maximum >= 1
    ensures Disjoint(SpansFrom(text, hs, i, maximum))
    decreases |text| - i
  {
    var c := SkipSpace(text, i);
    if c < |text| {
      SpansUnfold(text, hs, i, maximum);
      var end := SpanEnd(text, hs, c, maximum);
      SpansAreSound(text, hs, end, maximum);
      SpansAreOrdered(text, hs, end, maximum);
      DisjointCons(text, maximum, Span(c, end), SpansFrom(text, hs, end, maximum));
    }
  }

  /** Every visible character lies in a span. */
  lemma {:induction false} SpansAreComplete(text: string, hs: seq<Heading>, i: nat, maximum: nat, p: nat)
    requires i <= p < |text| && maximum >= 1 && !IsSpace(text[p])
    ensures Covered(SpansFrom(text, hs, i, maximum), p)
    decreases |text| - i
  {
    var c := SkipSpace(text, i);
    assert c <= p;
    SpansUnfold(text, hs, i, maximum);
    var end := SpanEnd(text, hs, c, maximum);
    CoveredCons(Span(c, end), SpansFrom(text, hs, end, maximum), p);
    if p >= end {
      SpansAreComplete(text, hs, end, maximum, p);
    }
  }

  ghost predicate NoHeadingInside(hs: seq<Heading>, s: Span) {
    forall k :: 0 <= k < |hs| ==> !(s.start < hs[k].start < s.end)
  }

  lemma {:induction false} FirstHeadingStops(hs: seq<Heading>, cursor: nat, hard: nat)
    requires Ascending(hs)
    ensures var next := NextHeading(hs, cursor, hard);
            forall k :: 0 <= k < |hs| ==> !(cursor < hs[k].start < next.GetOr(hard))
  {
    if hs != [] && !(cursor < hs[0].start < hard) {
      FirstHeadingStops(hs[1..], cursor, hard);
      assert forall k :: 1 <= k < |hs| ==> hs[k] == hs[1..][k - 1];
    }
  }

  lemma {:induction false} SpansStopAtHeadings(text: string, hs: seq<Heading>, i: nat, maximum: nat)
    requires i <= |text| && maximum >= 1 && Ascending(hs)
    ensures forall s :: s in SpansFrom(text, hs, i, maximum) ==> NoHeadingInside(hs, s)
    decreases |text| - i
  {
    var c := SkipSpace(text, i);
    if c < |text| {
      SpansUnfold(text, hs, i, maximum);
      SpanStopsAtHeading(text, hs, c, maximum);
      SpansStopAtHeadings(text, hs, SpanEnd(text, hs, c, maximum), maximum);
    }
  }

  lemma SpanStopsAtHeading(text: string, hs: seq<Heading>, c: nat, maximum: nat)
    requires c < |text| && !IsSpace(text[c]) && maximum >= 1 && Ascending(hs)
    ensures NoHeadingInside(hs, Span(c, SpanEnd(text, hs, c, maximum)))
  {
    FirstHeadingStops(hs, c, Min(c + maximum, |text|));
    assert SpanEnd(text, hs, c, maximum) <= HardEnd(text, hs, c, maximum);
  }

  /** A chunk ends in the middle of a word only when the word fills a whole chunk: no separator at all
      in it, and its length is the maximum. */
  lemma WordsAreCutOnlyWhenTooLong(text: string, cursor: nat, maximum: nat)
    requires cursor < |text| && !IsSpace(text[cursor]) && maximum >= 1
    ensures var end := SpanEnd(text, Headings(text), cursor, maximum);
            end < |text| && !IsSpace(text[end]) ==>
              && end == cursor + maximum
              && forall k :: cursor < k <= end ==> !Separator(text[k])
  {
    var hs := Headings(text);
    var next := NextHeading(hs, cursor, Min(cursor + maximum, |text|));
    if next.Some? {
      HeadingFollowsLineFeed(text, cursor, next.value);
    }
    CutAtHardEnd(text, hs, cursor, maximum);
  }

  lemma CutAtHardEnd(text: string, hs: seq<Heading>, cursor: nat, maximum: nat)
    requires cursor < |text| && !IsSpace(text[cursor]) && maximum >= 1
    requires var next := NextHeading(hs, cursor, Min(cursor + maximum, |text|));
             next.Some? ==> text[next.value - 1] == '\n'
    ensures var end := SpanEnd(text, hs, cursor, maximum);
            end < |text| && !IsSpace(text[end]) ==>
              && end == cursor + maximum
              && forall k :: cursor < k <= end ==> !Separator(text[k])
  {
    MidWordCut(text, cursor, HardEnd(text, hs, cursor, maximum));
  }

  lemma HeadingFollowsLineFeed(text: string, cursor: nat, start: nat)
    requires cursor < start && exists k :: 0 <= k < |Headings(text)| && Headings(text)[k].start == start
    ensures start < |text| && text[start - 1] == '\n'
  {
    HeadingsHold(text, 0);
  }

  lemma MidWordCut(text: string, cursor: nat, hard: nat)
    requires cursor < hard <= |text| && !IsSpace(text[cursor])
    ensures var end := TrimEnd(text, cursor, CutEnd(text, cursor, hard));
            end < |text| && !IsSpace(text[end]) ==>
              end == hard && !IsSpace(text[hard - 1]) && forall k :: cursor < k <= end ==> !Separator(text[k])
  {
  }
}
