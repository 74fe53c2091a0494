/**
 Splitting a response into SMS parts: `_chunk_sms_response`.

 The last eight characters of a part are reserved for its " (i/n)" suffix, which is enough below one
 hundred parts.
 */
module SmsSplitter {
  import opened PythonText

  const SMS_MAX_LENGTH: nat := 160
  const SUFFIX_RESERVE: nat := 8

  // ---------------------------------------------------------------- one cut

  /** Python's slice bound: a negative index counts from the end. */
  function SliceBound(i: int, n: nat): (b: nat)
    ensures b <= n
  {
    if i >= 0 then (if i <= n then i else n) else if n + i >= 0 then n + i else 0
  }

  /** Where the text is cut when it is longer than a chunk: the last blank, or the limit. */
  function SplitAt(remaining: string, limit: int): (at: nat)
    requires |remaining| > limit
    ensures at <= SliceBound(limit, |remaining|)
    ensures at < SliceBound(limit, |remaining|) ==> remaining[at] == ' '
  {
    var p := RFind(remaining, ' ', 0, SliceBound(limit, |remaining|));
    SliceBound(if p == -1 then limit else p, |remaining|)
  }

  function Head(remaining: string, limit: int): string
    requires |remaining| > limit
  {
    RStrip(remaining[..SplitAt(remaining, limit)])
  }

  function Rest(remaining: string, limit: int): string
    requires |remaining| > limit
  {
    LStrip(remaining[SplitAt(remaining, limit)..])
  }

  // ---------------------------------------------------------------- when the loop ends

  /** The characters `s[limit:]`. */
  function Tail(s: string, limit: int): string {
    s[SliceBound(limit, |s|)..]
  }

  /** The limit is positive, or the slice it names is white space. */
  ghost predicate LoopStops(s: string, limit: int) {
    limit >= 1 || AllSpace(Tail(s, limit))
  }

  lemma AllSpaceConcat(a: string, b: string)
    ensures AllSpace(a + b) <==> AllSpace(a) && AllSpace(b)
  {
    forall i | 0 <= i < |a| ensures (a + b)[i] == a[i] {}
    forall i | 0 <= i < |b| ensures (a + b)[|a| + i] == b[i] {}
  }

  /** `x` stands before a tail `t` of a longer text. */
  ghost predicate Before(x: string, t: string, limit: int) {
    limit <= 0 && (if limit == 0 then x == "" else |t| <= -limit && (x == "" || |t| == -limit))
  }

  lemma LongSuffix(w: string, rest: string, x: string, t: string, limit: int)
    requires w + rest == x + t && Before(x, t, limit) && limit < 0 && |rest| >= -limit
    ensures Tail(rest, limit) == t
  {
    var n := |x + t|;
    assert |w| + |rest| == n && |x| + |t| == n;
    assert (w + rest)[n - |t|..] == rest[|rest| - |t|..];
    assert (x + t)[n - |t|..] == t;
  }

  lemma ShortSuffix(w: string, rest: string, x: string, t: string)
    requires w + rest == x + t && rest != "" && !IsSpace(rest[0]) && |rest| <= |t|
    ensures !AllSpace(rest) && !AllSpace(t)
  {
    assert |w| + |rest| == |x| + |t|;
    assert (w + rest)[|w|] == rest[0] && (x + t)[|w|] == t[|w| - |x|];
  }

  /** Stripping what stands before the tail keeps whether the tail is white space. */
  lemma StripKeepsTail(x: string, t: string, limit: int)
    requires Before(x, t, limit)
    ensures AllSpace(Tail(LStrip(x + t), limit)) <==> AllSpace(t)
  {
    var rest := LStrip(x + t);
    LStripSplits(x + t);
    var w := (x + t)[..|x + t| - |rest|];
    if rest == "" {
      AllSpaceConcat(x, t);
      assert w == x + t;
    } else if limit < 0 && |rest| >= -limit {
      LongSuffix(w, rest, x, t, limit);
    } else {
      ShortSuffix(w, rest, x, t);
      assert Tail(rest, limit) == rest;
    }
  }

  lemma SliceSplit(s: string, at: nat, bound: nat)
    requires at <= bound <= |s|
    ensures s[at..] == s[at..bound] + s[bound..]
  {
  }

  lemma RestKeepsTail(s: string, limit: int)
    requires limit <= 0 && s != ""
    ensures LoopStops(Rest(s, limit), limit) <==> LoopStops(s, limit)
  {
    var at, bound := SplitAt(s, limit), SliceBound(limit, |s|);
    SliceSplit(s, at, bound);
    StripKeepsTail(s[at..bound], s[bound..], limit);
  }

  lemma StripShrinks(s: string)
    requires s != "" && IsSpace(s[0])
    ensures |LStrip(s)| < |s|
  {
  }

  /** A round of a loop that stops shortens the text. */
  lemma RestShrinks(s: string, limit: int)
    requires s != "" && |s| > limit && LoopStops(s, limit)
    ensures |Rest(s, limit)| < |s| && LoopStops(Rest(s, limit), limit)
  {
    if limit <= 0 {
      RestKeepsTail(s, limit);
    }
    if SplitAt(s, limit) == 0 {
      assert s[0..] == s;
      assert limit <= 0 && SliceBound(limit, |s|) == 0 ==> s[0] == Tail(s, limit)[0];
      StripShrinks(s);
    }
  }

  /** What remains after n rounds of the loop: a round is made while the text is longer than the limit. */
  function Remaining(text: string, limit: int, n: nat): string {
    if n == 0 then text
    else
      var before := Remaining(text, limit, n - 1);
      if before == "" || |before| <= limit then "" else Rest(before, limit)
  }

  lemma {:induction false} RemainingShrinks(text: string, limit: int, n: nat)
    requires LoopStops(text, limit)
    ensures var r := Remaining(text, limit, n); r == "" || (LoopStops(r, limit) && |r| + n <= |text|)
  {
    if n > 0 {
      RemainingShrinks(text, limit, n - 1);
      var before := Remaining(text, limit, n - 1);
      if before != "" && |before| > limit {
        RestShrinks(before, limit);
      }
    }
  }

  lemma {:induction false} RemainingRunsOn(text: string, limit: int, n: nat)
    requires !LoopStops(text, limit)
    ensures !LoopStops(Remaining(text, limit, n), limit)
  {
    if n > 0 {
      RemainingRunsOn(text, limit, n - 1);
      RestKeepsTail(Remaining(text, limit, n - 1), limit);
    }
  }

  ghost predicate LoopEnds(text: string, limit: int) {
    exists n :: Remaining(text, limit, n) == ""
  }

  /** The loop ends exactly when the limit is positive or the slice it names is white space: with a limit of
      zero on texts without a visible character, with -k on texts that end in k characters of white space
      or have no visible character. */
  lemma LoopEndsIff(text: string, limit: int)
    ensures LoopEnds(text, limit) <==> LoopStops(text, limit)
  {
    if LoopStops(text, limit) {
      RemainingShrinks(text, limit, |text| + 1);
      assert Remaining(text, limit, |text| + 1) == "";
    } else {
      forall n ensures Remaining(text, limit, n) != "" {
        RemainingRunsOn(text, limit, n);
      }
    }
  }

  /** The loop ends on every text exactly when the maximum exceeds the reserve. */
  lemma LoopAlwaysEndsIff(limit: int)
    ensures (forall text :: LoopEnds(text, limit)) <==> limit >= 1
  {
    forall text ensures LoopEnds(text, limit) <==> LoopStops(text, limit) {
      LoopEndsIff(text, limit);
    }
    if limit <= 0 {
      assert Tail("x", limit)[0] == 'x';
      assert !LoopEnds("x", limit);
    }
  }

  // ---------------------------------------------------------------- specification

  function Chunks(remaining: string, limit: int): seq<string>
    requires LoopStops(remaining, limit)
    decreases |remaining|
  {
    if remaining == "" then []
    else if |remaining| <= limit then [remaining]
    else
      RestShrinks(remaining, limit);
      [Head(remaining, limit)] + Chunks(Rest(remaining, limit), limit)
  }

  function Suffix(i: nat, total: nat): string {
    " (" + Decimal(i + 1) + "/" + Decimal(total) + ")"
  }

  /** Every chunk with its part indicator. */
  function Numbered(chunks: seq<string>): seq<string> {
    seq(|chunks|, i requires 0 <= i < |chunks| => chunks[i] + Suffix(i, |chunks|))
  }

  function Indicate(chunks: seq<string>): seq<string> {
    if |chunks| > 1 then Numbered(chunks) else chunks
  }

  /** The call returns: the text needs no split, or the loop ends (`LoopEndsIff`). */
  ghost predicate Splittable(text: string, maxLength: int) {
    |text| <= maxLength || LoopStops(text, maxLength - SUFFIX_RESERVE)
  }

  /** The parts without their suffixes. */
  function Bodies(text: string, maxLength: int): seq<string>
    requires Splittable(text, maxLength)
  {
    if |text| <= maxLength then [text] else Chunks(text, maxLength - SUFFIX_RESERVE)
  }

  function Parts(text: string, maxLength: int): seq<string>
    requires Splittable(text, maxLength)
  {
    Indicate(Bodies(text, maxLength))
  }

  // ---------------------------------------------------------------- the loop

  lemma ChunksSnoc(chunks: seq<string>, remaining: string, limit: int)
    requires remaining != "" && |remaining| > limit && LoopStops(remaining, limit)
    ensures |Rest(remaining, limit)| < |remaining| && LoopStops(Rest(remaining, limit), limit)
    ensures chunks + Chunks(remaining, limit) == chunks + [Head(remaining, limit)] + Chunks(Rest(remaining, limit), limit)
  {
    RestShrinks(remaining, limit);
  }

  /** One round of the loop: the chunk cut off and what remains. */
  method CutOnce(remaining: string, limit: int) returns (chunk: string, rest: string)
    requires |remaining| > limit
    ensures chunk == Head(remaining, limit) && rest == Rest(remaining, limit)
  {
    var splitAt := RFind(remaining, ' ', 0, SliceBound(limit, |remaining|));
    if splitAt == -1 {
      splitAt := limit;
    }
    chunk := RStrip(remaining[..SliceBound(splitAt, |remaining|)]);
    rest := LStrip(remaining[SliceBound(splitAt, |remaining|)..]);
  }

  /** The chunks so far and those of what remains are all chunks. */
  ghost predicate CutUpTo(text: string, limit: int, chunks: seq<string>, remaining: string)
    requires LoopStops(text, limit)
  {
    LoopStops(remaining, limit) && chunks + Chunks(remaining, limit) == Chunks(text, limit)
  }

  method CutIntoChunks(text: string, limit: int) returns (chunks: seq<string>)
    requires LoopStops(text, limit)
    ensures chunks == Chunks(text, limit)
  {
    chunks := [];
    var remaining := text;
    while remaining != ""
      invariant CutUpTo(text, limit, chunks, remaining)
      decreases |remaining|
    {
      if |remaining| <= limit {
        chunks := chunks + [remaining];
        break;
      }
      ChunksSnoc(chunks, remaining, limit);
      var chunk;
      chunk, remaining := CutOnce(remaining, limit);
      chunks := chunks + [chunk];
    }
  }

  method ChunkSmsResponse(text: string, maxLength: int) returns (parts: seq<string>)
    requires Splittable(text, maxLength)
    ensures parts == Parts(text, maxLength)
  {
    if |text| <= maxLength {
      return [text];
    }
    parts := CutIntoChunks(text, maxLength - SUFFIX_RESERVE);
    if |parts| > 1 {
      parts := Numbered(parts);
    }
  }

  // ---------------------------------------------------------------- nothing visible is lost

  function Joined(chunks: seq<string>): string {
    if chunks == [] then "" else chunks[0] + Joined(chunks[1..])
  }

  lemma JoinedCons(head: string, rest: seq<string>)
    ensures Joined([head] + rest) == head + Joined(rest)
  {
    assert ([head] + rest)[1..] == rest;
  }

  lemma HeadAndRestKeepVisible(text: string, limit: int)
    requires |text| > limit
    ensures Visible(Head(text, limit)) + Visible(Rest(text, limit)) == Visible(text)
  {
    var a, b := CutForm(text, limit);
    StripAround(a, b);
  }

  lemma CutForm(text: string, limit: int) returns (a: string, b: string)
    requires |text| > limit
    ensures text == a + b && |a| == SplitAt(text, limit)
    ensures Head(text, limit) == RStrip(a) && Rest(text, limit) == LStrip(b)
  {
    a, b := text[..SplitAt(text, limit)], text[SplitAt(text, limit)..];
  }

  lemma StripAround(a: string, b: string)
    ensures Visible(RStrip(a)) + Visible(LStrip(b)) == Visible(a + b)
  {
    VisibleStrip(a);
    VisibleStrip(b);
    VisibleConcat(a, b);
  }

  lemma JoinedOne(text: string)
    ensures Joined([text]) == text
  {
    JoinedCons(text, []);
    assert [text] + [] == [text] && text + "" == text;
  }

  lemma JoinedVisible(head: string, rest: seq<string>)
    ensures Visible(Joined([head] + rest)) == Visible(head) + Visible(Joined(rest))
  {
    JoinedCons(head, rest);
    VisibleConcat(head, Joined(rest));
  }

  /** The chunks carry exactly the visible characters of the text, in order. */
  lemma {:induction false} ChunksKeepVisible(text: string, limit: int)
    requires LoopStops(text, limit)
    ensures Visible(Joined(Chunks(text, limit))) == Visible(text)
    decreases |text|
  {
    if text == "" {
    } else if |text| <= limit {
      JoinedOne(text);
    } else {
      RestShrinks(text, limit);
      ChunksKeepVisible(Rest(text, limit), limit);
      HeadAndRestKeepVisible(text, limit);
      JoinedVisible(Head(text, limit), Chunks(Rest(text, limit), limit));
    }
  }

  /** The parts of a response are bodies that together carry its visible characters, each followed, when
      there are several, by its own number and the total. Only an empty text under a negative maximum has
      no part. */
  lemma PartsKeepText(text: string, maxLength: int)
    requires Splittable(text, maxLength)
    ensures var parts, bodies := Parts(text, maxLength), Bodies(text, maxLength);
            && |bodies| == |parts| && (parts == [] <==> text == "" && maxLength < 0)
            && Visible(Joined(bodies)) == Visible(text)
            && forall i :: 0 <= i < |parts| ==>
                 parts[i] == if |parts| > 1 then bodies[i] + Suffix(i, |parts|) else bodies[i]
  {
    if |text| <= maxLength {
      JoinedOne(text);
    } else {
      ChunksKeepVisible(text, maxLength - SUFFIX_RESERVE);
    }
  }

  /** A cut falls inside a word only when the window holds no blank at all. */
  lemma CutsAtBlanks(remaining: string, limit: nat)
    requires |remaining| > limit >= 1
    ensures var at := SplitAt(remaining, limit);
            remaining[at] == ' ' || (at == limit && ' ' !in remaining[..limit])
  {
  }

  // ---------------------------------------------------------------- how many parts

  /** What remains after a cut is a suffix that starts at or after the cut, past any blank cut at. */
  lemma RestIsSuffix(remaining: string, limit: nat) returns (q: nat)
    requires |remaining| > limit >= 1
    ensures SplitAt(remaining, limit) <= q <= |remaining| && Rest(remaining, limit) == remaining[q..]
    ensures SplitAt(remaining, limit) < limit ==> SplitAt(remaining, limit) < q
    ensures q < |remaining| ==> !IsSpace(remaining[q])
  {
    var a, b := CutForm(remaining, limit);
    LStripSplits(b);
    q := |remaining| - |LStrip(b)|;
    assert |a| + |b| == |remaining|;
    assert remaining[q..] == LStrip(b);
  }

  /** Two consecutive cuts that both leave a text longer than a chunk consume more than a chunk. */
  lemma TwoCutsConsume(remaining: string, limit: nat)
    requires limit >= 1 && |remaining| > limit && |Rest(remaining, limit)| > limit
    ensures |remaining| - |Rest(Rest(remaining, limit), limit)| >= limit + 1
  {
    var r := Rest(remaining, limit);
    var q := RestIsSuffix(remaining, limit);
    var q2 := RestIsSuffix(r, limit);
    NoBlankAfterSplit(remaining, limit);
    var at2 := SplitAt(r, limit);
    assert at2 < limit ==> remaining[q + at2] == ' ';
    assert at2 > 0 by { assert r[0] == remaining[q]; }
  }

  lemma NoBlankAfterSplit(remaining: string, limit: nat)
    requires |remaining| > limit >= 1
    ensures forall i :: SplitAt(remaining, limit) < i < limit ==> remaining[i] != ' '
  {
  }

  /** A text shorter than k + 1 times (limit + 1) makes at most 2 * k + 1 chunks. */
  lemma {:induction false} ChunkCount(text: string, limit: nat, k: nat)
    requires limit >= 1 && |text| < (limit + 1) * (k + 1)
    ensures |Chunks(text, limit)| <= 2 * k + 1
    decreases |text|
  {
    if |text| > limit {
      assert k >= 1;
      var r := Rest(text, limit);
      if |r| > limit {
        TwoCutsConsume(text, limit);
        var rr := Rest(r, limit);
        assert (limit + 1) * (k + 1) == (limit + 1) * k + (limit + 1);
        ChunkCount(rr, limit, k - 1);
      } else {
        assert |Chunks(r, limit)| <= 1;
      }
    }
  }

  lemma {:induction false} ChunkLength(text: string, limit: nat, i: nat)
    requires limit >= 1 && i < |Chunks(text, limit)|
    ensures |Chunks(text, limit)[i]| <= limit
    decreases |text|
  {
    if |text| > limit && i > 0 {
      ChunkLength(Rest(text, limit), limit, i - 1);
    }
  }

  // ---------------------------------------------------------------- every part fits

  ghost predicate AllFit(text: string) {
    forall i :: 0 <= i < |Parts(text, SMS_MAX_LENGTH)| ==> |Parts(text, SMS_MAX_LENGTH)[i]| <= SMS_MAX_LENGTH
  }

  lemma ShortTextsFit(text: string)
    requires |text| < 7650
    ensures AllFit(text)
  {
    var chunks := Chunks(text, 152);
    ChunkCount(text, 152, 49);
    forall i | 0 <= i < |Parts(text, SMS_MAX_LENGTH)| ensures |Parts(text, SMS_MAX_LENGTH)[i]| <= SMS_MAX_LENGTH {
      if |text| > SMS_MAX_LENGTH {
        ChunkLength(text, 152, i);
        assert |Suffix(i, |chunks|)| <= 8;
      }
    }
  }

  // ---------------------------------------------------------------- the longest text that always fits

  function Xs(n: nat): (s: string)
    ensures |s| == n && forall i :: 0 <= i < n ==> s[i] == 'x'
  {
    seq(n, _ => 'x')
  }

  /** A short word and a word of 150 letters: two parts out of 153 characters. */
  function Pairs(k: nat, tail: string): (s: string)
    ensures |s| == 153 * k + |tail|
  {
    if k == 0 then tail else "a " + (Xs(150) + " " + Pairs(k - 1, tail))
  }

  /** The last blank of a window is where the text is cut. */
  lemma SplitAtIs(s: string, limit: nat, at: nat)
    requires |s| > limit >= 1 && at < limit && s[at] == ' '
    requires forall i :: at < i < limit ==> s[i] != ' '
    ensures SplitAt(s, limit) == at
  {
  }

  lemma StripNothing(s: string)
    requires s != ""
    ensures !IsSpace(s[0]) ==> LStrip(s) == s
    ensures !IsSpace(s[|s| - 1]) ==> RStrip(s) == s
  {
  }

  lemma CutShortWord(s: string)
    requires |s| > 152 && s[..2] == "a " && forall i :: 2 <= i < 152 ==> s[i] == 'x'
    ensures Chunks(s, 152) == ["a"] + Chunks(s[2..], 152)
  {
    SplitAtIs(s, 152, 1);
    assert s[..1] == "a";
    StripNothing("a");
    assert s[1..][1..] == s[2..];
    StripNothing(s[2..]);
    assert LStrip(s[1..]) == s[2..];
  }

  lemma CutLongWord(s: string, rest: string)
    requires s == Xs(150) + " " + rest && |rest| > 1 && rest[0] == 'a'
    ensures Chunks(s, 152) == [Xs(150)] + Chunks(rest, 152)
  {
    SplitAtIs(s, 152, 150);
    assert s[..150] == Xs(150);
    StripNothing(Xs(150));
    assert s[150..] == " " + rest;
    assert (" " + rest)[1..] == rest;
    StripNothing(rest);
    assert LStrip(" " + rest) == rest;
  }

  lemma PairChunks(s: string, t: string, rest: string)
    requires s == "a " + t && t == Xs(150) + " " + rest
    requires |rest| > 1 && rest[0] == 'a'
    ensures Chunks(s, 152) == ["a", Xs(150)] + Chunks(rest, 152)
  {
    assert s[..2] == "a " && s[2..] == t;
    assert forall i :: 2 <= i < 152 ==> s[i] == t[i - 2] == Xs(150)[i - 2];
    CutShortWord(s);
    CutLongWord(t, rest);
    TwoHeads("a", Xs(150), Chunks(rest, 152));
  }

  lemma TwoHeads(a: string, b: string, rest: seq<string>)
    ensures [a] + ([b] + rest) == [a, b] + rest
  {
  }

  function PairParts(k: nat): (parts: seq<string>)
    ensures |parts| == 2 * k
  {
    if k == 0 then [] else ["a", Xs(150)] + PairParts(k - 1)
  }

  ghost predicate StepsAt(chunks: nat -> seq<string>, j: nat) {
    j > 0 ==> chunks(j) == ["a", Xs(150)] + chunks(j - 1)
  }

  lemma {:induction false} PairsUnroll(chunks: nat -> seq<string>, k: nat)
    requires forall j: nat :: StepsAt(chunks, j)
    ensures chunks(k) == PairParts(k) + chunks(0)
  {
    if k == 0 {
      assert [] + chunks(0) == chunks(0);
    } else {
      PairsUnroll(chunks, k - 1);
      assert StepsAt(chunks, k);
      assert ["a", Xs(150)] + (PairParts(k - 1) + chunks(0)) == ["a", Xs(150)] + PairParts(k - 1) + chunks(0);
    }
  }

  lemma PairsChunks(k: nat, tail: string)
    requires |tail| > 1 && tail[0] == 'a'
    ensures Chunks(Pairs(k, tail), 152) == PairParts(k) + Chunks(tail, 152)
  {
    var chunks := (j: nat) => Chunks(Pairs(j, tail), 152);
    forall j: nat ensures StepsAt(chunks, j) {
      if j > 0 {
        PairsStep(j, tail);
      }
    }
    PairsUnroll(chunks, k);
  }

  lemma PairsStep(k: nat, tail: string)
    requires k > 0 && |tail| > 1 && tail[0] == 'a'
    ensures Chunks(Pairs(k, tail), 152) == ["a", Xs(150)] + Chunks(Pairs(k - 1, tail), 152)
  {
    var rest := Pairs(k - 1, tail);
    assert rest[0] == 'a';
    PairChunks(Pairs(k, tail), Xs(150) + " " + rest, rest);
  }

  /** 49 pairs, a short word and one long word: the hundredth part does not fit. */
  function Overflowing(n: nat): (s: string)
    requires n >= 7650
    ensures |s| == n
  {
    Pairs(49, "a " + Xs(n - 7499))
  }

  lemma OverflowingChunks(n: nat)
    requires n >= 7650
    ensures |Chunks(Overflowing(n), 152)| >= 100 && |Chunks(Overflowing(n), 152)[99]| >= 151
  {
    var word := Xs(n - 7499);
    var tail := "a " + word;
    PairsChunks(49, tail);
    assert forall i :: 2 <= i < 152 ==> tail[i] == word[i - 2];
    CutShortWord(tail);
    assert tail[2..] == word;
    LongWordFirstChunk(word);
  }

  lemma OverflowingDoesNotFit(n: nat)
    requires n >= 7650
    ensures !AllFit(Overflowing(n))
  {
    OverflowingChunks(n);
    var chunks := Chunks(Overflowing(n), 152);
    assert |Suffix(99, |chunks|)| >= 10;
    assert Parts(Overflowing(n), SMS_MAX_LENGTH)[99] == chunks[99] + Suffix(99, |chunks|);
  }

  lemma LongWordFirstChunk(word: string)
    requires |word| >= 151 && word == Xs(|word|)
    ensures Chunks(word, 152) != [] && |Chunks(word, 152)[0]| >= 151
  {
    if |word| > 152 {
      assert SplitAt(word, 152) == 152;
      StripNothing(word[..152]);
    }
  }

  /** Exactly the lengths at which every text splits into parts of at most 160 characters. */
  lemma AllTextsFitIff(n: nat)
    ensures (forall text: string :: |text| == n ==> AllFit(text)) <==> n < 7650
  {
    if n < 7650 {
      forall text: string | |text| == n ensures AllFit(text) {
        ShortTextsFit(text);
      }
    } else {
      OverflowingDoesNotFit(n);
      assert |Overflowing(n)| == n;
    }
  }
}
