/**
 Section paths: the headings recorded for an offset of a document, and when they are its nearest
 ancestors.
 */
module SectionPaths {
  import opened Prelude
  import opened CorpusChunker

  // ---------------------------------------------------------------- section paths

  /** One step of the path: keep the first level - 1 entries, then add the heading. */
  function Enter(path: seq<Heading>, h: Heading): seq<Heading> {
    path[..Min(if h.level >= 1 then h.level - 1 else 0, |path|)] + [h]
  }

  /** The path after the first n headings. */
  function PathOf(hs: seq<Heading>, n: nat): seq<Heading>
    requires n <= |hs|
  {
    if n == 0 then [] else Enter(PathOf(hs, n - 1), hs[n - 1])
  }

  /** How many headings start at or before the offset. */
  function CountUpTo(hs: seq<Heading>, offset: nat): (n: nat)
    ensures n <= |hs|
    ensures forall k :: 0 <= k < n ==> hs[k].start <= offset
    ensures n < |hs| ==> hs[n].start > offset
  {
    if hs != [] && hs[0].start <= offset then 1 + CountUpTo(hs[1..], offset) else 0
  }

  function Titles(path: seq<Heading>): (titles: seq<string>)
    ensures |titles| == |path|
  {
    seq(|path|, i requires 0 <= i < |path| => path[i].title)
  }

  function SectionPathAt(text: string, offset: nat): seq<string> {
    var hs := Headings(text);
    Titles(PathOf(hs, CountUpTo(hs, offset)))
  }

  lemma PathTitlesSnoc(hs: seq<Heading>, i: nat)
    requires i < |hs| && hs[i].level >= 1
    ensures var path := Titles(PathOf(hs, i));
            Titles(PathOf(hs, i + 1)) == path[..Min(hs[i].level - 1, |path|)] + [hs[i].title]
  {
  }

  method SectionPath(text: string, offset: nat) returns (path: seq<string>)
    ensures path == SectionPathAt(text, offset)
  {
    HeadingsHold(text, 0);
    path := PathUpTo(Headings(text), offset);
  }

  method PathUpTo(hs: seq<Heading>, offset: nat) returns (path: seq<string>)
    requires Levels(hs)
    ensures path == Titles(PathOf(hs, CountUpTo(hs, offset)))
  {
    path := [];
    var i := 0;
    while i < |hs| && hs[i].start <= offset
      invariant i <= CountUpTo(hs, offset)
      invariant path == Titles(PathOf(hs, i))
    {
      PathTitlesSnoc(hs, i);
      path := path[..Min(hs[i].level - 1, |path|)] + [hs[i].title];
      i := i + 1;
    }
  }

  /** Every offset inside a chunk has the section path recorded at its start. */
  lemma PathConstantInsideSpan(text: string, maximum: nat, s: Span, offset: nat)
    requires maximum >= 1 && s in SpansFrom(text, Headings(text), 0, maximum)
    requires s.start <= offset < s.end
    ensures SectionPathAt(text, offset) == SectionPathAt(text, s.start)
  {
    var hs := Headings(text);
    HeadingsHold(text, 0);
    SpansStopAtHeadings(text, hs, 0, maximum);
    var n, m := CountUpTo(hs, s.start), CountUpTo(hs, offset);
    assert NoHeadingInside(hs, s);
    assert n == m;
  }

  // ---------------------------------------------------------------- nearest ancestors

  /** Of the first n headings, how many are left after dropping the trailing ones whose level is not
      below `level`: the last of those left is the nearest earlier heading of a smaller level. */
  function Ancestors(hs: seq<Heading>, n: nat, level: nat): (m: nat)
    requires n <= |hs|
    ensures m <= n
  {
    if n > 0 && hs[n - 1].level >= level then Ancestors(hs, n - 1, level) else n
  }

  /** The n-th heading below its chain of nearest ancestors: its parent is the nearest earlier heading of
      a smaller level, and so on up. */
  function Chain(hs: seq<Heading>, n: nat): seq<Heading>
    requires n <= |hs|
  {
    if n == 0 then [] else Chain(hs, Ancestors(hs, n - 1, hs[n - 1].level)) + [hs[n - 1]]
  }

  function Below(chain: seq<Heading>, level: nat): (n: nat)
    ensures n <= |chain|
    ensures forall k :: 0 <= k < n ==> chain[k].level < level
    ensures n < |chain| ==> chain[n].level >= level
  {
    if chain == [] || chain[0].level >= level then 0 else 1 + Below(chain[1..], level)
  }

  ghost predicate Rising(chain: seq<Heading>) {
    forall i, j :: 0 <= i < j < |chain| ==> chain[i].level < chain[j].level
  }

  ghost predicate Levels(hs: seq<Heading>) {
    forall k :: 0 <= k < |hs| ==> hs[k].level >= 1
  }

  /** `Below` is where a rising chain crosses the level. */
  lemma BelowIs(chain: seq<Heading>, level: nat, n: nat)
    requires Rising(chain) && n <= |chain|
    requires forall k :: 0 <= k < n ==> chain[k].level < level
    requires n < |chain| ==> chain[n].level >= level
    ensures Below(chain, level) == n
  {
  }

  /** A rising chain with one more heading on top of the entries below its level. */
  function Push(chain: seq<Heading>, h: Heading): seq<Heading> {
    chain[..Below(chain, h.level)] + [h]
  }

  lemma PushAt(chain: seq<Heading>, h: Heading, k: nat)
    requires Rising(chain) && k < |Push(chain, h)|
    ensures Push(chain, h)[k] == if k < Below(chain, h.level) then chain[k] else h
    ensures k < Below(chain, h.level) ==> chain[k].level < h.level
  {
  }

  lemma PushRises(chain: seq<Heading>, h: Heading)
    requires Rising(chain)
    ensures Rising(Push(chain, h))
  {
    forall i, j | 0 <= i < j < |Push(chain, h)| ensures Push(chain, h)[i].level < Push(chain, h)[j].level {
      PushAt(chain, h, i);
      PushAt(chain, h, j);
    }
  }

  lemma PushCut(chain: seq<Heading>, h: Heading, level: nat)
    requires Rising(chain)
    ensures var pushed := Push(chain, h);
            pushed[..Below(pushed, level)] == if h.level < level then pushed else chain[..Below(chain, level)]
  {
    PushRises(chain, h);
    if h.level < level {
      BelowIs(Push(chain, h), level, |Push(chain, h)|);
    } else {
      PushCutAtOrAbove(chain, h, level);
    }
  }

  lemma PushCutAtOrAbove(chain: seq<Heading>, h: Heading, level: nat)
    requires Rising(chain) && Rising(Push(chain, h)) && level <= h.level
    ensures Push(chain, h)[..Below(Push(chain, h), level)] == chain[..Below(chain, level)]
  {
    var m := Below(chain, level);
    BelowMonotone(chain, level, h.level);
    BelowIs(Push(chain, h), level, m);
    assert Push(chain, h)[..m] == chain[..m];
  }

  lemma BelowMonotone(chain: seq<Heading>, level: nat, other: nat)
    requires level <= other
    ensures Below(chain, level) <= Below(chain, other)
  {
  }

  lemma ChainPush(hs: seq<Heading>, n: nat)
    requires n < |hs|
    requires var chain := Chain(hs, n); Chain(hs, Ancestors(hs, n, hs[n].level)) == chain[..Below(chain, hs[n].level)]
    ensures Chain(hs, n + 1) == Push(Chain(hs, n), hs[n])
  {
  }

  lemma AncestorsStep(hs: seq<Heading>, n: nat, level: nat)
    requires n < |hs|
    ensures Ancestors(hs, n + 1, level) == if hs[n].level >= level then Ancestors(hs, n, level) else n + 1
  {
  }

  /** The chain rises, and dropping the headings at or above a level cuts it at that level. */
  lemma {:induction false} ChainCut(hs: seq<Heading>, n: nat, level: nat)
    requires n <= |hs|
    ensures Rising(Chain(hs, n))
    ensures Chain(hs, Ancestors(hs, n, level)) == Chain(hs, n)[..Below(Chain(hs, n), level)]
    decreases n
  {
    if n > 0 {
      var h := hs[n - 1];
      ChainCut(hs, n - 1, h.level);
      ChainPush(hs, n - 1);
      PushRises(Chain(hs, n - 1), h);
      PushCut(Chain(hs, n - 1), h, level);
      AncestorsStep(hs, n - 1, level);
      if h.level >= level {
        ChainCut(hs, n - 1, level);
      }
    }
  }

  /** The chain after a heading: the entries of the chain before it that lie below its level, then it. */
  lemma ChainStep(hs: seq<Heading>, n: nat)
    requires n < |hs|
    ensures var chain := Chain(hs, n);
            Rising(chain) && Chain(hs, n + 1) == Push(chain, hs[n])
  {
    ChainCut(hs, n, hs[n].level);
    ChainPush(hs, n);
  }

  lemma {:induction false} RisingDepth(chain: seq<Heading>, k: nat)
    requires Rising(chain) && Levels(chain) && k < |chain|
    ensures chain[k].level >= k + 1
  {
    if k > 0 {
      RisingDepth(chain, k - 1);
    }
  }

  lemma {:induction false} ChainHasLevels(hs: seq<Heading>, n: nat)
    requires Levels(hs) && n <= |hs|
    ensures Levels(Chain(hs, n))
  {
    if n > 0 {
      ChainHasLevels(hs, Ancestors(hs, n - 1, hs[n - 1].level));
    }
  }

  /** The heading nests under an open chain: no open heading of the same or a deeper level sits higher
      up than the new heading's level says it may. */
  ghost predicate Nests(chain: seq<Heading>, h: Heading) {
    forall k :: 0 <= k < h.level - 1 && k < |chain| ==> chain[k].level < h.level
  }

  ghost predicate WellNested(hs: seq<Heading>) {
    forall n :: 0 <= n < |hs| ==> Nests(Chain(hs, n), hs[n])
  }

  // ---------------------------------------------------------------- nesting, on heading levels alone

  predicate OpenAt(hs: seq<Heading>, n: nat, level: nat, k: nat)
    requires n <= |hs|
  {
    k < n && hs[k].level == level && forall j :: k < j < n ==> hs[j].level > level
  }

  /** Before heading n there is one of this level with only deeper ones after it. */
  predicate Open(hs: seq<Heading>, n: nat, level: nat)
    requires n <= |hs|
  {
    exists k :: 0 <= k < n && OpenAt(hs, n, level, k)
  }

  /** The heading goes deeper than the one before it, or every level above its own is open. */
  ghost predicate LevelFits(hs: seq<Heading>, n: nat)
    requires n < |hs|
  {
    n == 0 || hs[n - 1].level < hs[n].level || forall level :: 1 <= level < hs[n].level ==> Open(hs, n, level)
  }

  ghost predicate LevelsFit(hs: seq<Heading>) {
    forall n :: 0 <= n < |hs| ==> LevelFits(hs, n)
  }

  predicate Holds(chain: seq<Heading>, level: nat) {
    exists k :: 0 <= k < |chain| && chain[k].level == level
  }

  lemma {:induction false} ChainHoldsOpen(hs: seq<Heading>, n: nat, level: nat)
    requires n <= |hs|
    ensures Holds(Chain(hs, n), level) <==> Open(hs, n, level)
  {
    if n > 0 {
      var h, chain := hs[n - 1], Chain(hs, n - 1);
      ChainStep(hs, n - 1);
      ChainHoldsOpen(hs, n - 1, level);
      PushHolds(chain, h, level);
      OpenStep(hs, n, level);
    }
  }

  lemma PushHolds(chain: seq<Heading>, h: Heading, level: nat)
    requires Rising(chain)
    ensures Holds(Push(chain, h), level) <==> h.level == level || (level < h.level && Holds(chain, level))
  {
    var m, pushed := Below(chain, h.level), Push(chain, h);
    PushAt(chain, h, m);
    if level < h.level && Holds(chain, level) {
      var k :| 0 <= k < |chain| && chain[k].level == level;
      PushAt(chain, h, k);
    }
    if Holds(pushed, level) {
      var k :| 0 <= k < |pushed| && pushed[k].level == level;
      PushAt(chain, h, k);
    }
  }

  lemma OpenStep(hs: seq<Heading>, n: nat, level: nat)
    requires 0 < n <= |hs|
    ensures Open(hs, n, level) <==> hs[n - 1].level == level || (level < hs[n - 1].level && Open(hs, n - 1, level))
  {
    if hs[n - 1].level == level {
      assert OpenAt(hs, n, level, n - 1);
    }
    if level < hs[n - 1].level && Open(hs, n - 1, level) {
      var k :| 0 <= k < n - 1 && OpenAt(hs, n - 1, level, k);
      assert OpenAt(hs, n, level, k);
    }
    if Open(hs, n, level) && hs[n - 1].level != level {
      var k :| 0 <= k < n && OpenAt(hs, n, level, k);
      assert OpenAt(hs, n - 1, level, k);
    }
  }

  lemma {:induction false} RisingGap(chain: seq<Heading>, i: nat, j: nat)
    requires Rising(chain) && i <= j < |chain|
    ensures chain[j].level - chain[i].level >= j - i
    decreases j
  {
    if i < j {
      RisingGap(chain, i, j - 1);
    }
  }

  /** A rising chain that holds every level up to one has them in its first places. */
  lemma {:induction false} FullChain(chain: seq<Heading>, level: nat, k: nat)
    requires Rising(chain) && Levels(chain) && 1 <= level && k + 1 < level
    requires forall l :: 1 <= l < level ==> Holds(chain, l)
    ensures k < |chain| && chain[k].level == k + 1
  {
    assert Holds(chain, k + 1);
    var i :| 0 <= i < |chain| && chain[i].level == k + 1;
    RisingDepth(chain, i);
    if i < k {
      FullChain(chain, level, i);
    }
  }

  lemma NestsIff(hs: seq<Heading>, n: nat)
    requires Levels(hs) && n < |hs|
    ensures Nests(Chain(hs, n), hs[n]) <==> LevelFits(hs, n)
  {
    var chain, level := Chain(hs, n), hs[n].level;
    ChainStep(hs, n);
    ChainHasLevels(hs, n);
    forall l ensures Holds(chain, l) <==> Open(hs, n, l) {
      ChainHoldsOpen(hs, n, l);
    }
    if n > 0 {
      assert chain[|chain| - 1] == hs[n - 1];
      if hs[n - 1].level >= level {
        NestsMeansFull(chain, hs[n]);
      }
    }
  }

  lemma NestsMeansFull(chain: seq<Heading>, h: Heading)
    requires Rising(chain) && Levels(chain) && chain != [] && chain[|chain| - 1].level >= h.level >= 1
    ensures Nests(chain, h) <==> forall l :: 1 <= l < h.level ==> Holds(chain, l)
  {
    if Nests(chain, h) {
      assert h.level - 1 < |chain|;
      forall l | 1 <= l < h.level ensures Holds(chain, l) {
        RisingDepth(chain, l - 1);
        RisingGap(chain, l - 1, h.level - 2);
        assert chain[l - 1].level == l;
      }
    }
    if forall l :: 1 <= l < h.level ==> Holds(chain, l) {
      forall k | 0 <= k < h.level - 1 && k < |chain| ensures chain[k].level < h.level {
        FullChain(chain, h.level, k);
      }
    }
  }

  lemma WellNestedIff(hs: seq<Heading>)
    requires Levels(hs)
    ensures WellNested(hs) <==> LevelsFit(hs)
  {
    forall n | 0 <= n < |hs| ensures Nests(Chain(hs, n), hs[n]) <==> LevelFits(hs, n) {
      NestsIff(hs, n);
    }
  }

  /** Both ways to add a heading agree exactly when it nests, and otherwise even the lengths differ. */
  lemma EnterIsPushIff(chain: seq<Heading>, h: Heading)
    requires Rising(chain) && Levels(chain) && h.level >= 1
    ensures Nests(chain, h) ==> Enter(chain, h) == Push(chain, h)
    ensures !Nests(chain, h) ==> |Enter(chain, h)| != |Push(chain, h)|
  {
    var m := Below(chain, h.level);
    if m > 0 {
      RisingDepth(chain, m - 1);
    }
    assert m <= Min(h.level - 1, |chain|);
  }

  /** The step from a path that is the chain: it stays the chain exactly when the new heading nests. */
  lemma NestingStep(hs: seq<Heading>, n: nat)
    requires Levels(hs) && n < |hs| && PathOf(hs, n) == Chain(hs, n)
    ensures Nests(Chain(hs, n), hs[n]) ==> PathOf(hs, n + 1) == Chain(hs, n + 1)
    ensures !Nests(Chain(hs, n), hs[n]) ==> |PathOf(hs, n + 1)| != |Chain(hs, n + 1)|
  {
    ChainStep(hs, n);
    ChainHasLevels(hs, n);
    EnterIsPushIff(Chain(hs, n), hs[n]);
  }

  lemma {:induction false} NestedPathIsChain(hs: seq<Heading>, n: nat)
    requires Levels(hs) && WellNested(hs) && n <= |hs|
    ensures PathOf(hs, n) == Chain(hs, n)
  {
    if n > 0 {
      NestedPathIsChain(hs, n - 1);
      NestingStep(hs, n - 1);
    }
  }

  lemma {:induction false} FirstUnnested(hs: seq<Heading>, n: nat) returns (m: nat)
    requires Levels(hs) && n < |hs| && !Nests(Chain(hs, n), hs[n])
    ensures m <= |hs| && |PathOf(hs, m)| != |Chain(hs, m)|
    decreases n
  {
    if PathOf(hs, n) == Chain(hs, n) {
      NestingStep(hs, n);
      m := n + 1;
    } else {
      m := FirstMismatch(hs, n);
    }
  }

  lemma {:induction false} FirstMismatch(hs: seq<Heading>, n: nat) returns (m: nat)
    requires Levels(hs) && n <= |hs| && PathOf(hs, n) != Chain(hs, n)
    ensures m <= n && |PathOf(hs, m)| != |Chain(hs, m)|
  {
    if PathOf(hs, n - 1) == Chain(hs, n - 1) {
      NestingStep(hs, n - 1);
      m := n;
    } else {
      m := FirstMismatch(hs, n - 1);
    }
  }

  /** The section path is the chain of nearest ancestors after every heading if and only if each heading
      goes deeper than the one before it or has every level above its own open. */
  lemma PathIsChainIff(hs: seq<Heading>)
    requires Levels(hs)
    ensures (forall n :: 0 <= n <= |hs| ==> Titles(PathOf(hs, n)) == Titles(Chain(hs, n))) <==> LevelsFit(hs)
  {
    WellNestedIff(hs);
    if WellNested(hs) {
      forall n | 0 <= n <= |hs| ensures Titles(PathOf(hs, n)) == Titles(Chain(hs, n)) {
        NestedPathIsChain(hs, n);
      }
    } else {
      var n :| 0 <= n < |hs| && !Nests(Chain(hs, n), hs[n]);
      var m := FirstUnnested(hs, n);
      assert |Titles(PathOf(hs, m))| != |Titles(Chain(hs, m))|;
    }
  }

  /** Levels start at one and never rise by more than one. */
  ghost predicate Gradual(hs: seq<Heading>) {
    && Levels(hs)
    && (hs != [] ==> hs[0].level == 1)
    && forall k :: 0 <= k < |hs| - 1 ==> hs[k + 1].level <= hs[k].level + 1
  }

  /** The chain has one heading of each level from one up. */
  ghost predicate Ladder(chain: seq<Heading>) {
    forall k :: 0 <= k < |chain| ==> chain[k].level == k + 1
  }

  lemma LadderPush(chain: seq<Heading>, h: Heading)
    requires Ladder(chain) && 1 <= h.level <= |chain| + 1
    ensures Ladder(Push(chain, h)) && |Push(chain, h)| == h.level
  {
    BelowIs(chain, h.level, h.level - 1);
  }

  lemma {:induction false} GradualChain(hs: seq<Heading>, n: nat)
    requires Gradual(hs) && n <= |hs|
    ensures n > 0 ==> |Chain(hs, n)| == hs[n - 1].level
    ensures Ladder(Chain(hs, n))
  {
    if n > 0 {
      GradualChain(hs, n - 1);
      ChainStep(hs, n - 1);
      LadderPush(Chain(hs, n - 1), hs[n - 1]);
    }
  }

  lemma GradualNests(hs: seq<Heading>)
    requires Gradual(hs)
    ensures WellNested(hs)
  {
    forall n | 0 <= n < |hs| ensures Nests(Chain(hs, n), hs[n]) {
      GradualChain(hs, n);
    }
  }

  /** In a document whose headings rise gradually, the path of an offset is the chain of nearest ancestor
      headings of the last heading at or before it. */
  lemma GradualPathIsChain(text: string, offset: nat)
    requires Gradual(Headings(text))
    ensures var hs := Headings(text);
            SectionPathAt(text, offset) == Titles(Chain(hs, CountUpTo(hs, offset)))
  {
    var hs := Headings(text);
    GradualNests(hs);
    NestedPathIsChain(hs, CountUpTo(hs, offset));
  }

  predicate OneLine(line: string) {
    forall k :: 0 <= k < |line| ==> line[k] != '\n'
  }

  lemma {:induction false} LineEndIs(text: string, i: nat, e: nat)
    requires i <= e <= |text| && (e == |text| || text[e] == '\n') && OneLine(text[i..e])
    ensures LineEnd(text, i) == e
    decreases e - i
  {
    if i < e {
      assert text[i..e][0] == text[i] && text[i + 1..e] == text[i..e][1..];
      LineEndIs(text, i + 1, e);
    }
  }

  lemma HeadingsOfTwoLines(a: string, b: string, text: string)
    requires OneLine(a) && OneLine(b) && text == a + "\n" + b
    requires HeadingOfLine(a).Some? && HeadingOfLine(b).Some?
    ensures var (level, title), (lower, other) := HeadingOfLine(a).value, HeadingOfLine(b).value;
            Headings(text) == [Heading(0, level, title), Heading(|a| + 1, lower, other)]
  {
    assert text[0..|a|] == a && text[|a| + 1..|text|] == b;
    LineEndIs(text, 0, |a|);
    LineEndIs(text, |a| + 1, |text|);
    assert HeadingsFrom(text, |a| + 1) == [HeadingAt(text, |a| + 1).value];
  }

  lemma LowerHeadingAfterDeeper(x: Heading, y: Heading)
    requires x.level == 3 && y.level == 2
    ensures Titles(PathOf([x, y], 2)) == [x.title, y.title] && Titles(Chain([x, y], 2)) == [y.title]
    ensures !LevelsFit([x, y])
  {
    assert PathOf([x, y], 1) == [x];
    assert Ancestors([x, y], 1, 2) == 0;
    assert Chain([x, y], 2) == [y];
    assert !Open([x, y], 1, 1) && !LevelFits([x, y], 1);
  }

  /** A heading of level 2 after one of level 3 with nothing above: the path of the second section begins
      with the deeper heading, which is none of its ancestors. */
  lemma SkippedLevelMisplaces(a: string, b: string, title: string, other: string, text: string)
    requires OneLine(a) && OneLine(b) && text == a + "\n" + b
    requires HeadingOfLine(a) == Some((3, title)) && HeadingOfLine(b) == Some((2, other))
    ensures var hs := Headings(text);
            && SectionPathAt(text, |a| + 1) == [title, other] && Titles(Chain(hs, CountUpTo(hs, |a| + 1))) == [other]
            && !LevelsFit(hs)
  {
    HeadingsOfTwoLines(a, b, text);
    var x, y := Heading(0, 3, title), Heading(|a| + 1, 2, other);
    CountOfTwo(x, y, |a| + 1);
    LowerHeadingAfterDeeper(x, y);
  }

  lemma CountOfTwo(x: Heading, y: Heading, offset: nat)
    requires x.start <= offset && y.start <= offset
    ensures CountUpTo([x, y], offset) == 2
  {
    assert [x, y][1..] == [y];
  }

  /** One such document: the offset of "## b" is given the path of "### a". */
  lemma SkippedLevelExample()
    ensures HeadingOfLine("### a") == Some((3, "a")) && HeadingOfLine("## b") == Some((2, "b"))
    ensures SectionPathAt("### a\n## b", 6) == ["a", "b"]
  {
    assert CountHashes("### a") == 3 && "### a"[3..] == " a" && SkipBlanks(" a") == "a" && DropBlanks("a") == "a";
    assert CountHashes("## b") == 2 && "## b"[2..] == " b" && SkipBlanks(" b") == "b" && DropBlanks("b") == "b";
    SkippedLevelMisplaces("### a", "## b", "a", "b", "### a\n## b");
  }
}
