/** Spans are as long as they can be, and the laws of spans leave no other way to cut a text. */
module SpanLaws {
  import opened Prelude
  import opened PythonText
  import opened CorpusChunker

  /** Some heading starts after the first position, not after the second and before the third. */
  predicate HeadingWithin(hs: seq<Heading>, after: nat, upTo: nat, before: nat) {
    exists k :: 0 <= k < |hs| && after < hs[k].start <= upTo && hs[k].start < before
  }

  predicate SeparatorWithin(text: string, from: nat, until: nat) {
    exists k :: from <= k < until && k < |text| && Separator(text[k])
  }

  /** The span of a text that does not fit ends at the last separator in reach, or full when there is none. */
  ghost predicate Full(text: string, maximum: nat, s: Span, next: nat) {
    var reach := s.start + maximum;
    && !SeparatorWithin(text, next, reach + 1)
    && if SeparatorWithin(text, s.start + 1, reach + 1) then SeparatorWithin(text, s.end, Min(next, reach + 1)) else next >= reach
  }

  /** `next` is where the next span starts, or the end of the text. Unless a heading in reach made it stop, a span
      holds all that is left when that fits, and otherwise all up to the last separator in reach. */
  ghost predicate Maximal(text: string, hs: seq<Heading>, maximum: nat, s: Span, next: nat) {
    !HeadingWithin(hs, s.start, next, s.start + maximum) ==>
      if |text| <= s.start + maximum then next == |text| else Full(text, maximum, s, next)
  }

  function NextStart(text: string, spans: seq<Span>, i: nat): nat
    requires i < |spans|
  {
    if i + 1 < |spans| then spans[i + 1].start else |text|
  }

  ghost predicate AllMaximal(text: string, hs: seq<Heading>, maximum: nat, spans: seq<Span>) {
    forall i {:trigger NextStart(text, spans, i)} :: 0 <= i < |spans| ==>
      Maximal(text, hs, maximum, spans[i], NextStart(text, spans, i))
  }

  /** Every heading after the first character follows a line feed. */
  ghost predicate AfterLineFeeds(text: string, hs: seq<Heading>) {
    forall k :: 0 <= k < |hs| ==> hs[k].start < |text| && (hs[k].start > 0 ==> text[hs[k].start - 1] == '\n')
  }

  lemma HeadingsFollowLineFeeds(text: string)
    ensures AfterLineFeeds(text, Headings(text)) && Ascending(Headings(text))
  {
    HeadingsHold(text, 0);
  }

  // ---------------------------------------------------------------- one span

  /** Cut at a heading: the next visible character is not before it. */
  lemma HeadingIsReached(text: string, cursor: nat, heading: nat)
    requires cursor < heading < |text| && !IsSpace(text[cursor]) && text[heading - 1] == '\n'
    ensures SkipSpace(text, TrimEnd(text, cursor, CutEnd(text, cursor, heading))) >= heading
  {
    assert heading - 1 > cursor;
    var split := LastSeparator(text, cursor, heading);
    assert split >= heading - 1;
    SkipsPast(text, TrimEnd(text, cursor, split), split);
  }

  /** White space up to and including a position is skipped. */
  lemma SkipsPast(text: string, from: nat, p: nat)
    requires from <= p < |text| && IsSpace(text[p]) && forall k :: from <= k < p ==> IsSpace(text[k])
    ensures SkipSpace(text, from) > p
  {
  }

  lemma SkipsTo(text: string, from: nat, p: nat)
    requires from <= p <= |text| && forall k :: from <= k < p ==> IsSpace(text[k])
    ensures SkipSpace(text, from) >= p
  {
  }

  lemma FullAtSeparator(text: string, maximum: nat, s: Span, split: nat, next: nat)
    requires s.start < split <= s.start + maximum && split < |text| && Separator(text[split]) && s.end <= split < next
    requires forall k :: split < k <= s.start + maximum && k < |text| ==> !Separator(text[k])
    ensures Full(text, maximum, s, next)
  {
  }

  lemma FullWithoutSeparator(text: string, maximum: nat, s: Span, next: nat)
    requires next >= s.start + maximum && next > s.start
    requires forall k :: s.start < k <= s.start + maximum && k < |text| ==> !Separator(text[k])
    ensures Full(text, maximum, s, next)
  {
  }

  lemma CutPoint(text: string, cursor: nat, hard: nat)
    requires cursor < hard < |text| && !IsSpace(text[cursor])
    ensures var cut := CutEnd(text, cursor, hard);
            var end := TrimEnd(text, cursor, cut);
            && end <= cut
            && (Separator(text[cut]) ==> SkipSpace(text, end) > cut)
            && (!Separator(text[cut]) ==> SkipSpace(text, end) >= cut == hard)
            && forall k :: cursor < k <= hard && (k > cut || !Separator(text[cut])) ==> !Separator(text[k])
  {
    var cut := CutEnd(text, cursor, hard);
    var end := TrimEnd(text, cursor, cut);
    if Separator(text[cut]) {
      SkipsPast(text, end, cut);
    } else {
      SkipsTo(text, end, cut);
    }
  }

  /** Cut inside the text with no heading in the way. */
  lemma CutIsFull(text: string, cursor: nat, maximum: nat)
    requires cursor + maximum < |text| && !IsSpace(text[cursor]) && maximum >= 1
    ensures var end := TrimEnd(text, cursor, CutEnd(text, cursor, cursor + maximum));
            Full(text, maximum, Span(cursor, end), SkipSpace(text, end))
  {
    var cut := CutEnd(text, cursor, cursor + maximum);
    var end := TrimEnd(text, cursor, cut);
    CutPoint(text, cursor, cursor + maximum);
    if Separator(text[cut]) {
      FullAtSeparator(text, maximum, Span(cursor, end), cut, SkipSpace(text, end));
    } else {
      FullWithoutSeparator(text, maximum, Span(cursor, end), SkipSpace(text, end));
    }
  }

  lemma SpanIsMaximal(text: string, hs: seq<Heading>, cursor: nat, maximum: nat)
    requires cursor < |text| && !IsSpace(text[cursor]) && maximum >= 1 && AfterLineFeeds(text, hs)
    ensures var end := SpanEnd(text, hs, cursor, maximum);
            Maximal(text, hs, maximum, Span(cursor, end), SkipSpace(text, end))
  {
    var hard := Min(cursor + maximum, |text|);
    var next := NextHeading(hs, cursor, hard);
    if next.Some? {
      HeadingIsReached(text, cursor, next.value);
    } else if hard < |text| {
      CutIsFull(text, cursor, maximum);
    } else {
      SkipsTo(text, TrimEnd(text, cursor, |text|), |text|);
    }
  }

  // ---------------------------------------------------------------- all spans

  lemma MaximalCons(text: string, hs: seq<Heading>, maximum: nat, s: Span, rest: seq<Span>)
    requires AllMaximal(text, hs, maximum, rest)
    requires Maximal(text, hs, maximum, s, if rest == [] then |text| else rest[0].start)
    ensures AllMaximal(text, hs, maximum, [s] + rest)
  {
    var spans := [s] + rest;
    forall i | 0 <= i < |spans| ensures Maximal(text, hs, maximum, spans[i], NextStart(text, spans, i)) {
      assert i > 0 ==> NextStart(text, spans, i) == NextStart(text, rest, i - 1);
    }
  }

  lemma FirstSpan(text: string, hs: seq<Heading>, i: nat, maximum: nat)
    requires i <= |text| && maximum >= 1
    ensures var spans := SpansFrom(text, hs, i, maximum);
            (spans == [] <==> SkipSpace(text, i) == |text|) && (spans != [] ==> spans[0].start == SkipSpace(text, i))
  {
  }

  /** No span could have been longer. */
  lemma {:induction false} SpansAreMaximal(text: string, hs: seq<Heading>, i: nat, maximum: nat)
    requires i <= |text| && maximum >= 1 && AfterLineFeeds(text, hs)
    ensures AllMaximal(text, hs, maximum, SpansFrom(text, hs, i, maximum))
    decreases |text| - i
  {
    var c := SkipSpace(text, i);
    if c < |text| {
      SpansUnfold(text, hs, i, maximum);
      var end := SpanEnd(text, hs, c, maximum);
      SpansAreMaximal(text, hs, end, maximum);
      FirstSpan(text, hs, end, maximum);
      SpanIsMaximal(text, hs, c, maximum);
      MaximalCons(text, hs, maximum, Span(c, end), SpansFrom(text, hs, end, maximum));
    }
  }

  // ---------------------------------------------------------------- the laws of spans

  ghost predicate AllCovered(text: string, spans: seq<Span>) {
    forall p {:trigger Covered(spans, p)} :: 0 <= p < |text| && !IsSpace(text[p]) ==> Covered(spans, p)
  }

  ghost predicate StopsAtHeadings(hs: seq<Heading>, spans: seq<Span>) {
    forall i :: 0 <= i < |spans| ==> NoHeadingInside(hs, spans[i])
  }

  /** Sound, disjoint, complete, broken at headings, and as long as can be. */
  ghost predicate Lawful(text: string, hs: seq<Heading>, maximum: nat, spans: seq<Span>) {
    && SoundFrom(text, maximum, 0, spans) && Disjoint(spans) && AllCovered(text, spans)
    && StopsAtHeadings(hs, spans) && AllMaximal(text, hs, maximum, spans)
  }

  lemma SpansAreLawful(text: string, maximum: nat)
    requires maximum >= 1
    ensures Lawful(text, Headings(text), maximum, SpansFrom(text, Headings(text), 0, maximum))
  {
    var hs := Headings(text);
    HeadingsFollowLineFeeds(text);
    SpansAreSound(text, hs, 0, maximum);
    SpansAreOrdered(text, hs, 0, maximum);
    SpansAreMaximal(text, hs, 0, maximum);
    SpansStopAtHeadings(text, hs, 0, maximum);
    forall p | 0 <= p < |text| && !IsSpace(text[p]) ensures Covered(SpansFrom(text, hs, 0, maximum), p) {
      SpansAreComplete(text, hs, 0, maximum, p);
    }
  }

  // ---------------------------------------------------------------- they leave no choice

  /** A position covered by both. */
  lemma CoveredAt(spans: seq<Span>, p: nat) returns (j: nat)
    requires Covered(spans, p)
    ensures j < |spans| && spans[j].start <= p < spans[j].end
  {
    j :| 0 <= j < |spans| && spans[j].start <= p < spans[j].end;
  }

  lemma FirstNotLater(text: string, maximum: nat, a: seq<Span>, b: seq<Span>)
    requires SoundFrom(text, maximum, 0, a) && a != []
    requires SoundFrom(text, maximum, 0, b) && Disjoint(b) && AllCovered(text, b)
    ensures b != [] && b[0].start <= a[0].start
  {
    assert SpanOk(text, maximum, a[0]);
    var j := CoveredAt(b, a[0].start);
    StartsAscend(text, maximum, b, 0, j);
  }

  lemma StartsAscend(text: string, maximum: nat, spans: seq<Span>, i: nat, j: nat)
    requires SoundFrom(text, maximum, 0, spans) && Disjoint(spans) && i <= j < |spans|
    ensures spans[i].start <= spans[j].start && (i < j ==> spans[i].end <= spans[j].start)
  {
    assert SpanOk(text, maximum, spans[i]);
  }

  lemma NoHeadingAhead(text: string, hs: seq<Heading>, maximum: nat, r: Span, t: nat, next: nat)
    requires AfterLineFeeds(text, hs) && r.start < t < r.end && NoHeadingInside(hs, r)
    requires !SeparatorWithin(text, t, r.start + maximum + 1)
    ensures !HeadingWithin(hs, r.start, next, r.start + maximum)
  {
    forall k | 0 <= k < |hs| && r.start < hs[k].start < r.start + maximum ensures false {
      assert hs[k].start >= r.end;
      assert Separator(text[hs[k].start - 1]);
    }
  }

  /** Two full spans from one place do not end on both sides of a visible character. */
  lemma FullSpansAgree(text: string, maximum: nat, s: Span, t: nat, r: Span, next: nat)
    requires s.start == r.start < t < |text| && Full(text, maximum, s, t) && SpanOk(text, maximum, r)
    requires Full(text, maximum, r, next)
    ensures r.end <= t
  {
  }

  /** A span cannot run on over the start of the other's next one. */
  lemma DoesNotRunOn(text: string, hs: seq<Heading>, maximum: nat, s: Span, t: nat, r: Span, next: nat)
    requires AfterLineFeeds(text, hs) && s.start == r.start < t < |text|
    requires Maximal(text, hs, maximum, s, t) && Maximal(text, hs, maximum, r, next)
    requires NoHeadingInside(hs, r) && SpanOk(text, maximum, r)
    ensures r.end <= t
  {
    if t < r.end {
      assert !HeadingWithin(hs, s.start, t, s.start + maximum);
      assert Full(text, maximum, s, t);
      NoHeadingAhead(text, hs, maximum, r, t, next);
      FullSpansAgree(text, maximum, s, t, r, next);
    }
  }

  /** From one start, the next start of the one law-abiding list is not after that of the other. */
  lemma NextNotLater(text: string, hs: seq<Heading>, maximum: nat, a: seq<Span>, b: seq<Span>, i: nat)
    requires AfterLineFeeds(text, hs) && Lawful(text, hs, maximum, a) && Lawful(text, hs, maximum, b)
    requires i + 1 < |a| && i < |b| && a[i].start == b[i].start
    ensures i + 1 < |b| && b[i + 1].start <= a[i + 1].start
  {
    var t := a[i + 1].start;
    StartsAscend(text, maximum, a, i, i + 1);
    assert SpanOk(text, maximum, a[i]) && SpanOk(text, maximum, a[i + 1]) && SpanOk(text, maximum, b[i]);
    assert NextStart(text, a, i) == t;
    DoesNotRunOn(text, hs, maximum, a[i], t, b[i], NextStart(text, b, i));
    var j := CoveredAt(b, t);
    LaterIndex(text, maximum, b, i, j);
    StartsAscend(text, maximum, b, i + 1, j);
  }

  lemma LaterIndex(text: string, maximum: nat, spans: seq<Span>, i: nat, j: nat)
    requires SoundFrom(text, maximum, 0, spans) && Disjoint(spans) && i < |spans| && j < |spans| && spans[j].end > spans[i].end
    ensures j > i
  {
    assert SpanOk(text, maximum, spans[i]);
  }

  lemma SameIndex(text: string, maximum: nat, spans: seq<Span>, i: nat, j: nat, p: nat)
    requires SoundFrom(text, maximum, 0, spans) && Disjoint(spans) && i < |spans| && j < |spans|
    requires spans[i].start <= p < NextStart(text, spans, i) && spans[j].start <= p < spans[j].end
    ensures j == i
  {
    assert i + 1 < |spans| ==> SpanOk(text, maximum, spans[i + 1]);
  }

  lemma {:induction false} SameStarts(text: string, hs: seq<Heading>, maximum: nat, a: seq<Span>, b: seq<Span>, i: nat)
    requires AfterLineFeeds(text, hs) && Lawful(text, hs, maximum, a) && Lawful(text, hs, maximum, b) && i < |a|
    ensures i < |b| && a[i].start == b[i].start
  {
    if i == 0 {
      FirstNotLater(text, maximum, a, b);
      FirstNotLater(text, maximum, b, a);
    } else {
      SameStarts(text, hs, maximum, a, b, i - 1);
      NextNotLater(text, hs, maximum, a, b, i - 1);
      NextNotLater(text, hs, maximum, b, a, i - 1);
    }
  }

  /** A span ends right after the last visible character before the next one starts. */
  lemma EndNotEarlier(text: string, maximum: nat, a: seq<Span>, i: nat, p: nat)
    requires SoundFrom(text, maximum, 0, a) && Disjoint(a) && AllCovered(text, a) && i < |a|
    requires a[i].start <= p < NextStart(text, a, i) && p < |text| && !IsSpace(text[p])
    ensures p < a[i].end
  {
    var j := CoveredAt(a, p);
    SameIndex(text, maximum, a, i, j, p);
  }

  lemma EndBeforeNext(text: string, maximum: nat, a: seq<Span>, i: nat)
    requires SoundFrom(text, maximum, 0, a) && Disjoint(a) && i < |a|
    ensures a[i].start < a[i].end <= NextStart(text, a, i) && a[i].end <= |text| && !IsSpace(text[a[i].end - 1])
  {
    assert SpanOk(text, maximum, a[i]);
  }

  lemma SameEnds(text: string, maximum: nat, a: seq<Span>, b: seq<Span>, i: nat)
    requires SoundFrom(text, maximum, 0, a) && Disjoint(a) && AllCovered(text, a) && i < |a|
    requires SoundFrom(text, maximum, 0, b) && Disjoint(b) && AllCovered(text, b) && i < |b|
    requires a[i].start == b[i].start && NextStart(text, a, i) == NextStart(text, b, i)
    ensures a[i] == b[i]
  {
    EndBeforeNext(text, maximum, a, i);
    EndBeforeNext(text, maximum, b, i);
    EndNotEarlier(text, maximum, a, i, b[i].end - 1);
    EndNotEarlier(text, maximum, b, i, a[i].end - 1);
  }

  /** The laws determine the spans: whatever list obeys them is the one the chunker returns. */
  lemma LawsDetermineSpans(text: string, maximum: nat, spans: seq<Span>)
    requires maximum >= 1
    ensures Lawful(text, Headings(text), maximum, spans) <==> spans == SpansFrom(text, Headings(text), 0, maximum)
  {
    var hs := Headings(text);
    HeadingsFollowLineFeeds(text);
    SpansAreLawful(text, maximum);
    if Lawful(text, hs, maximum, spans) {
      LawfulListsAreEqual(text, hs, maximum, spans, SpansFrom(text, hs, 0, maximum));
    }
  }

  lemma LawfulListsAreEqual(text: string, hs: seq<Heading>, maximum: nat, a: seq<Span>, b: seq<Span>)
    requires AfterLineFeeds(text, hs) && Lawful(text, hs, maximum, a) && Lawful(text, hs, maximum, b)
    ensures a == b
  {
    if a != [] {
      SameStarts(text, hs, maximum, a, b, |a| - 1);
    }
    if b != [] {
      SameStarts(text, hs, maximum, b, a, |b| - 1);
    }
    forall i | 0 <= i < |a| ensures a[i] == b[i] {
      SameStarts(text, hs, maximum, a, b, i);
      if i + 1 < |a| {
        SameStarts(text, hs, maximum, a, b, i + 1);
      }
      SameEnds(text, maximum, a, b, i);
    }
  }

  // ---------------------------------------------------------------- text that fits

  lemma OneIsSound(text: string, maximum: nat, s: Span)
    requires SpanOk(text, maximum, s)
    ensures SoundFrom(text, maximum, 0, [s]) && Disjoint([s])
  {
  }

  lemma OneCovers(text: string, s: Span)
    requires forall p :: 0 <= p < |text| && !IsSpace(text[p]) ==> s.start <= p < s.end
    ensures AllCovered(text, [s])
  {
    forall p {:trigger Covered([s], p)} | 0 <= p < |text| && !IsSpace(text[p]) ensures Covered([s], p) {
      assert [s][0].start <= p < [s][0].end;
    }
  }

  lemma OneIsMaximal(text: string, hs: seq<Heading>, maximum: nat, s: Span)
    requires |text| <= s.start + maximum
    ensures AllMaximal(text, hs, maximum, [s])
  {
  }

  lemma OneSpanIsLawful(text: string, hs: seq<Heading>, maximum: nat, s: Span)
    requires s.start < s.end <= |text| <= s.start + maximum && !IsSpace(text[s.start]) && !IsSpace(text[s.end - 1])
    requires AllCovered(text, [s])
    requires forall k :: 0 <= k < |hs| ==> hs[k].start <= s.start
    ensures Lawful(text, hs, maximum, [s])
  {
    OneIsSound(text, maximum, s);
    OneIsMaximal(text, hs, maximum, s);
    assert NoHeadingInside(hs, s);
  }

  /** A text that fits and holds no heading after its first visible character is one span, from its first to its
      last visible character. */
  lemma FittingTextIsOneSpan(text: string, maximum: nat, first: nat, last: nat)
    requires first <= last < |text| <= first + maximum && !IsSpace(text[first]) && !IsSpace(text[last])
    requires forall p :: 0 <= p < |text| && !IsSpace(text[p]) ==> first <= p <= last
    requires forall k :: 0 <= k < |Headings(text)| ==> Headings(text)[k].start <= first
    ensures SpansFrom(text, Headings(text), 0, maximum) == [Span(first, last + 1)]
  {
    OneCovers(text, Span(first, last + 1));
    OneSpanIsLawful(text, Headings(text), maximum, Span(first, last + 1));
    LawsDetermineSpans(text, maximum, [Span(first, last + 1)]);
  }
}
