/** Which headings a section path names, for every document, whatever levels it skips. */
module SectionDepths {
  import opened CorpusChunker
  import opened SectionPaths

  /** How deep a heading lies: as deep as its level says, but at most one deeper than the heading before it. */
  function Depth(hs: seq<Heading>, k: nat): nat
    requires k < |hs|
  {
    var level := if hs[k].level == 0 then 1 else hs[k].level;
    if k == 0 then 1 else if level <= Depth(hs, k - 1) then level else Depth(hs, k - 1) + 1
  }

  /** Heading j is the last one as deep as that before heading n, and everything after it lies deeper. */
  predicate Current(hs: seq<Heading>, n: nat, depth: nat, j: nat)
    requires n <= |hs|
  {
    j < n && Depth(hs, j) == depth && forall k :: j < k < n ==> Depth(hs, k) > depth
  }

  lemma PathStep(hs: seq<Heading>, n: nat)
    requires 0 < n <= |hs| && |PathOf(hs, n - 1)| == (if n == 1 then 0 else Depth(hs, n - 2))
    ensures |PathOf(hs, n)| == Depth(hs, n - 1)
    ensures PathOf(hs, n) == PathOf(hs, n - 1)[..Depth(hs, n - 1) - 1] + [hs[n - 1]]
  {
  }

  lemma {:induction false} PathLength(hs: seq<Heading>, n: nat)
    requires n <= |hs|
    ensures |PathOf(hs, n)| == if n == 0 then 0 else Depth(hs, n - 1)
  {
    if n > 0 {
      PathLength(hs, n - 1);
      PathStep(hs, n);
    }
  }

  lemma CurrentStep(hs: seq<Heading>, n: nat, depth: nat, j: nat)
    requires 0 < n <= |hs|
    ensures Current(hs, n, depth, j) <==>
            if j == n - 1 then Depth(hs, j) == depth else Current(hs, n - 1, depth, j) && depth < Depth(hs, n - 1)
  {
  }

  /** The d-th entry of the path is heading j: the last one that deep, with everything after it deeper. */
  lemma {:induction false} EntryIsCurrent(hs: seq<Heading>, n: nat, depth: nat, j: nat)
    requires n <= |hs| && Current(hs, n, depth, j)
    ensures 1 <= depth <= |PathOf(hs, n)| && PathOf(hs, n)[depth - 1] == hs[j]
  {
    PathLength(hs, n - 1);
    PathStep(hs, n);
    CurrentStep(hs, n, depth, j);
    if j < n - 1 {
      EntryIsCurrent(hs, n - 1, depth, j);
    }
  }

  lemma {:induction false} EveryDepthHasOne(hs: seq<Heading>, n: nat, depth: nat) returns (j: nat)
    requires n <= |hs| && 1 <= depth <= |PathOf(hs, n)|
    ensures Current(hs, n, depth, j)
  {
    PathLength(hs, n - 1);
    PathStep(hs, n);
    if depth == |PathOf(hs, n)| {
      j := n - 1;
    } else {
      j := EveryDepthHasOne(hs, n - 1, depth);
    }
    CurrentStep(hs, n, depth, j);
  }

  /** For every text and offset, the section path names one heading for each depth of the last heading up to there
      and above it: the last one that deep. */
  lemma PathOnDepths(text: string, offset: nat, n: nat, depth: nat) returns (j: nat)
    requires n <= |Headings(text)| && 1 <= depth <= |SectionPathAt(text, offset)|
    requires forall k :: 0 <= k < |Headings(text)| ==> (k < n <==> Headings(text)[k].start <= offset)
    ensures |SectionPathAt(text, offset)| == Depth(Headings(text), n - 1)
    ensures Current(Headings(text), n, depth, j) && SectionPathAt(text, offset)[depth - 1] == Headings(text)[j].title
  {
    var hs := Headings(text);
    assert CountUpTo(hs, offset) == n;
    PathLength(hs, n);
    j := EveryDepthHasOne(hs, n, depth);
    EntryIsCurrent(hs, n, depth, j);
  }
}
