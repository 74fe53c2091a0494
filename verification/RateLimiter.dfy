/**
 The privacy filter's per-sender rate limit. The filter keeps a pruned list of recent times for each
 sender; `Reference` decides from the full history of accepted messages. Times are microseconds.
 */
module RateLimiter {
  import opened Prelude

  const MINUTE := 60_000_000
  const HOUR := 3_600_000_000

  datatype Limits = Limits(perMinute: int, perHour: int)

  datatype Verdict = Accepted | Blocked | RateLimited | HighRisk

  /** `HighRisk` is what the pattern matcher says of the content; the clock is read once to check and
      once more to record. */
  datatype Event =
    | Validate(sender: string, checkedAt: int, recordedAt: int, highRisk: bool)
    | CheckOnly(sender: string, at: int)
    | Block(sender: string, at: int)
    | Unblock(sender: string, at: int)

  datatype Stats = Stats(total: nat, blocked: nat, rateLimited: nat)

  // ---------------------------------------------------------------- the pruned list

  /** The times less than `window` before `now`, in order. */
  function Recent(times: seq<int>, now: int, window: int): (r: seq<int>)
    ensures |r| <= |times|
  {
    if times == [] then []
    else
      var earlier := Recent(times[..|times| - 1], now, window);
      if now - times[|times| - 1] < window then earlier + [times[|times| - 1]] else earlier
  }

  predicate Within(times: seq<int>, now: int, limits: Limits) {
    |Recent(times, now, MINUTE)| < limits.perMinute && |Recent(times, now, HOUR)| < limits.perHour
  }

  function ListOf(counts: map<string, seq<int>>, sender: string): seq<int> {
    if sender in counts then counts[sender] else []
  }

  datatype Filter = Filter(counts: map<string, seq<int>>, blocked: set<string>, stats: Stats)

  const EMPTY_FILTER := Filter(map[], {}, Stats(0, 0, 0))

  function Pruned(f: Filter, sender: string, now: int): Filter {
    f.(counts := f.counts[sender := Recent(ListOf(f.counts, sender), now, HOUR)])
  }

  function FilterVerdict(f: Filter, limits: Limits, sender: string, checkedAt: int, highRisk: bool): Verdict {
    if sender in f.blocked then Blocked
    else if !Within(Recent(ListOf(f.counts, sender), checkedAt, HOUR), checkedAt, limits) then RateLimited
    else if highRisk then HighRisk
    else Accepted
  }

  function Tally(s: Stats, v: Verdict): Stats {
    match v
    case Accepted => s.(total := s.total + 1)
    case RateLimited => s.(total := s.total + 1, rateLimited := s.rateLimited + 1)
    case _ => s.(total := s.total + 1, blocked := s.blocked + 1)
  }

  function FilterStep(f: Filter, limits: Limits, e: Event): Filter {
    match e
    case Validate(sender, checkedAt, recordedAt, highRisk) =>
      var v := FilterVerdict(f, limits, sender, checkedAt, highRisk);
      var checked := (if v == Blocked then f else Pruned(f, sender, checkedAt)).(stats := Tally(f.stats, v));
      if v == Accepted
      then checked.(counts := checked.counts[sender := ListOf(checked.counts, sender) + [recordedAt]])
      else checked
    case CheckOnly(sender, at) => Pruned(f, sender, at)
    case Block(sender, _) => f.(blocked := f.blocked + {sender})
    case Unblock(sender, _) => f.(blocked := f.blocked - {sender})
  }

  class PrivacyFilter {
    const limits: Limits
    var messageCounts: map<string, seq<int>>
    var blockedUsers: set<string>
    var stats: Stats

    function State(): Filter
      reads this
    {
      Filter(messageCounts, blockedUsers, stats)
    }

    constructor (limits: Limits)
      ensures this.limits == limits && State() == EMPTY_FILTER
    {
      this.limits := limits;
      messageCounts, blockedUsers, stats := map[], {}, Stats(0, 0, 0);
    }

    method CheckRateLimit(sender: string, now: int) returns (lastMinute: nat, lastHour: nat, within: bool)
      modifies this`messageCounts
      ensures State() == Pruned(old(State()), sender, now)
      ensures lastMinute == |Recent(messageCounts[sender], now, MINUTE)|
      ensures lastHour == |Recent(messageCounts[sender], now, HOUR)|
      ensures within <==> Within(messageCounts[sender], now, limits)
    {
      if sender !in messageCounts {
        messageCounts := messageCounts[sender := []];
      }
      var kept := PruneList(messageCounts[sender], now, HOUR);
      messageCounts := messageCounts[sender := kept];
      var minute := PruneList(kept, now, MINUTE);
      lastMinute, lastHour := |minute|, |kept|;
      RecentTwice(old(ListOf(messageCounts, sender)), now, now, HOUR, HOUR);
      within := lastMinute < limits.perMinute && lastHour < limits.perHour;
    }

    method RecordMessage(sender: string, now: int)
      modifies this`messageCounts
      ensures messageCounts == old(messageCounts)[sender := ListOf(old(messageCounts), sender) + [now]]
    {
      if sender !in messageCounts {
        messageCounts := messageCounts[sender := []];
      }
      messageCounts := messageCounts[sender := messageCounts[sender] + [now]];
    }

    method ValidateMessage(sender: string, checkedAt: int, recordedAt: int, highRisk: bool) returns (verdict: Verdict)
      modifies this
      ensures verdict == FilterVerdict(old(State()), limits, sender, checkedAt, highRisk)
      ensures State() == FilterStep(old(State()), limits, Validate(sender, checkedAt, recordedAt, highRisk))
    {
      stats := stats.(total := stats.total + 1);
      if sender in blockedUsers {
        stats := stats.(blocked := stats.blocked + 1);
        return Blocked;
      }
      var lastMinute, lastHour, within := CheckRateLimit(sender, checkedAt);
      if !within {
        stats := stats.(rateLimited := stats.rateLimited + 1);
        return RateLimited;
      }
      if highRisk {
        stats := stats.(blocked := stats.blocked + 1);
        return HighRisk;
      }
      RecordMessage(sender, recordedAt);
      return Accepted;
    }
  }

  /** The list comprehension over the stored times. */
  method PruneList(times: seq<int>, now: int, window: int) returns (kept: seq<int>)
    ensures kept == Recent(times, now, window)
  {
    kept := [];
    for i := 0 to |times|
      invariant kept == Recent(times[..i], now, window)
    {
      assert times[..i + 1][..i] == times[..i];
      if now - times[i] < window {
        kept := kept + [times[i]];
      }
    }
    assert times[..|times|] == times;
  }

  // ---------------------------------------------------------------- the full history

  datatype Stamp = Stamp(checkedAt: int, recordedAt: int)

  /** Every accepted message of every sender. */
  datatype Reference = Reference(history: map<string, seq<Stamp>>, blocked: set<string>)

  const EMPTY_REFERENCE := Reference(map[], {})

  function HistoryOf(r: Reference, sender: string): seq<Stamp> {
    if sender in r.history then r.history[sender] else []
  }

  function Times(h: seq<Stamp>): (ts: seq<int>)
    ensures |ts| == |h| && forall i :: 0 <= i < |h| ==> ts[i] == h[i].recordedAt
  {
    seq(|h|, i requires 0 <= i < |h| => h[i].recordedAt)
  }

  function ReferenceVerdict(r: Reference, limits: Limits, sender: string, checkedAt: int, highRisk: bool): Verdict {
    if sender in r.blocked then Blocked
    else if !Within(Times(HistoryOf(r, sender)), checkedAt, limits) then RateLimited
    else if highRisk then HighRisk
    else Accepted
  }

  function ReferenceStep(r: Reference, limits: Limits, e: Event): Reference {
    match e
    case Validate(sender, checkedAt, recordedAt, highRisk) =>
      if ReferenceVerdict(r, limits, sender, checkedAt, highRisk) == Accepted
      then r.(history := r.history[sender := HistoryOf(r, sender) + [Stamp(checkedAt, recordedAt)]])
      else r
    case CheckOnly(_, _) => r
    case Block(sender, _) => r.(blocked := r.blocked + {sender})
    case Unblock(sender, _) => r.(blocked := r.blocked - {sender})
  }

  // ---------------------------------------------------------------- runs

  function Began(e: Event): int {
    if e.Validate? then e.checkedAt else e.at
  }

  function Ended(e: Event): int {
    if e.Validate? then e.recordedAt else e.at
  }

  /** The clock never goes back, within one event or between two. */
  ghost predicate Timely(es: seq<Event>) {
    && (forall i :: 0 <= i < |es| ==> Began(es[i]) <= Ended(es[i]))
    && forall i, j :: 0 <= i < j < |es| ==> Ended(es[i]) <= Began(es[j])
  }

  function RunFilter(limits: Limits, es: seq<Event>): Filter
    decreases |es|
  {
    if es == [] then EMPTY_FILTER else FilterStep(RunFilter(limits, es[..|es| - 1]), limits, es[|es| - 1])
  }

  function RunReference(limits: Limits, es: seq<Event>): Reference
    decreases |es|
  {
    if es == [] then EMPTY_REFERENCE else ReferenceStep(RunReference(limits, es[..|es| - 1]), limits, es[|es| - 1])
  }

  // ---------------------------------------------------------------- pruning changes nothing

  /** Pruning and pruning again later, to no longer a window, keeps what the later pruning keeps. */
  lemma {:induction false} RecentTwice(times: seq<int>, now: int, later: int, wide: int, narrow: int)
    requires now <= later && narrow <= wide
    ensures Recent(Recent(times, now, wide), later, narrow) == Recent(times, later, narrow)
  {
    if times != [] {
      var before, t := times[..|times| - 1], times[|times| - 1];
      RecentTwice(before, now, later, wide, narrow);
      RecentSnoc(Recent(before, now, wide), t, later, narrow);
    }
  }

  lemma RecentSnoc(times: seq<int>, t: int, now: int, window: int)
    ensures Recent(times + [t], now, window)
            == if now - t < window then Recent(times, now, window) + [t] else Recent(times, now, window)
  {
    assert (times + [t])[..|times|] == times;
  }

  /** From `now` on the two lists cannot be told apart. */
  ghost predicate Alike(kept: seq<int>, all: seq<int>, now: int) {
    Recent(kept, now, HOUR) == Recent(all, now, HOUR)
  }

  lemma AlikeLater(kept: seq<int>, all: seq<int>, now: int, later: int, window: int)
    requires Alike(kept, all, now) && now <= later && window <= HOUR
    ensures Recent(kept, later, window) == Recent(all, later, window)
  {
    RecentTwice(kept, now, later, HOUR, window);
    RecentTwice(all, now, later, HOUR, window);
  }

  lemma AlikeWithin(kept: seq<int>, all: seq<int>, now: int, limits: Limits)
    requires Alike(kept, all, now)
    ensures Within(Recent(kept, now, HOUR), now, limits) == Within(all, now, limits)
  {
    AlikeLater(kept, all, now, now, MINUTE);
    RecentTwice(kept, now, now, HOUR, MINUTE);
    RecentTwice(kept, now, now, HOUR, HOUR);
  }

  lemma AlikeSnoc(kept: seq<int>, all: seq<int>, now: int, t: int, later: int)
    requires Alike(kept, all, now) && now <= later
    ensures Alike(Recent(kept, now, HOUR) + [t], all + [t], later)
  {
    RecentTwice(kept, now, now, HOUR, HOUR);
    AlikeLater(Recent(kept, now, HOUR), all, now, later, HOUR);
    RecentSnoc(Recent(kept, now, HOUR), t, later, HOUR);
    RecentSnoc(all, t, later, HOUR);
  }

  lemma AlikePruned(kept: seq<int>, all: seq<int>, now: int, later: int)
    requires Alike(kept, all, now) && now <= later
    ensures Alike(Recent(kept, now, HOUR), all, later)
  {
    RecentTwice(kept, now, now, HOUR, HOUR);
    AlikeLater(Recent(kept, now, HOUR), all, now, later, HOUR);
  }

  /** The filter stands for the reference from `now` on. */
  ghost predicate Refines(f: Filter, r: Reference, now: int) {
    && f.blocked == r.blocked
    && forall p :: Alike(ListOf(f.counts, p), Times(HistoryOf(r, p)), now)
  }

  lemma SameVerdict(f: Filter, r: Reference, limits: Limits, e: Event)
    requires e.Validate? && Refines(f, r, e.checkedAt)
    ensures FilterVerdict(f, limits, e.sender, e.checkedAt, e.highRisk)
            == ReferenceVerdict(r, limits, e.sender, e.checkedAt, e.highRisk)
  {
    AlikeWithin(ListOf(f.counts, e.sender), Times(HistoryOf(r, e.sender)), e.checkedAt, limits);
  }

  lemma RefinesLater(f: Filter, r: Reference, now: int, later: int)
    requires Refines(f, r, now) && now <= later
    ensures Refines(f, r, later)
  {
    forall p ensures Alike(ListOf(f.counts, p), Times(HistoryOf(r, p)), later) {
      AlikeLater(ListOf(f.counts, p), Times(HistoryOf(r, p)), now, later, HOUR);
    }
  }

  lemma StepAlike(f: Filter, r: Reference, limits: Limits, e: Event)
    requires Refines(f, r, Began(e)) && Began(e) <= Ended(e)
    ensures Alike(ListOf(FilterStep(f, limits, e).counts, e.sender),
                  Times(HistoryOf(ReferenceStep(r, limits, e), e.sender)), Ended(e))
  {
    var kept, h := ListOf(f.counts, e.sender), HistoryOf(r, e.sender);
    AlikeLater(kept, Times(h), Began(e), Ended(e), HOUR);
    AlikePruned(kept, Times(h), Began(e), Ended(e));
    if e.Validate? {
      SameVerdict(f, r, limits, e);
      AlikeSnoc(kept, Times(h), Began(e), e.recordedAt, Ended(e));
      assert Times(h + [Stamp(e.checkedAt, e.recordedAt)]) == Times(h) + [e.recordedAt];
    }
  }

  lemma OthersUntouched(f: Filter, r: Reference, limits: Limits, e: Event, p: string)
    requires p != e.sender
    ensures ListOf(FilterStep(f, limits, e).counts, p) == ListOf(f.counts, p)
    ensures HistoryOf(ReferenceStep(r, limits, e), p) == HistoryOf(r, p)
  {
  }

  lemma StepRefines(f: Filter, r: Reference, limits: Limits, e: Event)
    requires Refines(f, r, Began(e)) && Began(e) <= Ended(e)
    ensures Refines(FilterStep(f, limits, e), ReferenceStep(r, limits, e), Ended(e))
  {
    RefinesLater(f, r, Began(e), Ended(e));
    StepAlike(f, r, limits, e);
    forall p | p != e.sender
      ensures Alike(ListOf(FilterStep(f, limits, e).counts, p), Times(HistoryOf(ReferenceStep(r, limits, e), p)),
                    Ended(e))
    {
      OthersUntouched(f, r, limits, e, p);
    }
    if e.Validate? {
      SameVerdict(f, r, limits, e);
    }
  }

  lemma {:induction false} RunRefines(limits: Limits, es: seq<Event>, now: int)
    requires Timely(es) && (es != [] ==> Ended(es[|es| - 1]) <= now)
    ensures Refines(RunFilter(limits, es), RunReference(limits, es), now)
    decreases |es|
  {
    if es != [] {
      var before, e := es[..|es| - 1], es[|es| - 1];
      RunRefines(limits, before, Began(e));
      StepRefines(RunFilter(limits, before), RunReference(limits, before), limits, e);
      RefinesLater(RunFilter(limits, es), RunReference(limits, es), Ended(e), now);
    }
  }

  /** Over any run with a clock that never goes back, the pruned list decides each message as the full
      history of accepted messages would. */
  lemma PrunedListDecidesAsHistory(limits: Limits, es: seq<Event>, k: nat)
    requires Timely(es) && k < |es| && es[k].Validate?
    ensures FilterVerdict(RunFilter(limits, es[..k]), limits, es[k].sender, es[k].checkedAt, es[k].highRisk)
            == ReferenceVerdict(RunReference(limits, es[..k]), limits, es[k].sender, es[k].checkedAt, es[k].highRisk)
  {
    RunRefines(limits, es[..k], es[k].checkedAt);
    SameVerdict(RunFilter(limits, es[..k]), RunReference(limits, es[..k]), limits, es[k]);
  }

  // ---------------------------------------------------------------- no window is overfull

  /** How many of the times lie in [from, to). */
  function CountIn(times: seq<int>, from: int, to: int): nat {
    if times == [] then 0
    else CountIn(times[..|times| - 1], from, to) + if from <= times[|times| - 1] < to then 1 else 0
  }

  /** Each message of a history was let through when it was checked, and times do not go back. */
  ghost predicate Paced(h: seq<Stamp>, limits: Limits) {
    forall k :: 0 <= k < |h| ==>
      && h[k].checkedAt <= h[k].recordedAt
      && Within(Times(h[..k]), h[k].checkedAt, limits)
  }

  lemma {:induction false} WindowIsRecent(times: seq<int>, from: int, now: int, window: int)
    requires now < from + window
    ensures CountIn(times, from, from + window) <= |Recent(times, now, window)|
  {
    if times != [] {
      WindowIsRecent(times[..|times| - 1], from, now, window);
    }
  }

  /** The check clock of the last message in a window sees every earlier message of the window. */
  lemma {:induction false} WindowBound(h: seq<Stamp>, n: nat, from: int, window: int, limit: int)
    requires n <= |h|
    requires forall k :: 0 <= k < n ==>
      h[k].checkedAt <= h[k].recordedAt && |Recent(Times(h[..k]), h[k].checkedAt, window)| < limit
    ensures CountIn(Times(h[..n]), from, from + window) <= Max(0, limit)
  {
    if n > 0 {
      var k := n - 1;
      WindowBound(h, k, from, window, limit);
      assert Times(h[..n])[..k] == Times(h[..k]);
      if h[k].recordedAt < from + window {
        WindowIsRecent(Times(h[..k]), from, h[k].checkedAt, window);
      }
    }
  }

  lemma StepIsPaced(r: Reference, limits: Limits, e: Event, sender: string)
    requires Began(e) <= Ended(e) && Paced(HistoryOf(r, sender), limits)
    ensures Paced(HistoryOf(ReferenceStep(r, limits, e), sender), limits)
  {
    var h, after := HistoryOf(r, sender), HistoryOf(ReferenceStep(r, limits, e), sender);
    if after != h {
      assert forall k :: 0 <= k <= |h| ==> after[..k] == h[..k];
      assert h[..|h|] == h;
    }
  }

  lemma {:induction false} RunIsPaced(limits: Limits, es: seq<Event>, sender: string)
    requires Timely(es)
    ensures Paced(HistoryOf(RunReference(limits, es), sender), limits)
    decreases |es|
  {
    if es != [] {
      RunIsPaced(limits, es[..|es| - 1], sender);
      StepIsPaced(RunReference(limits, es[..|es| - 1]), limits, es[|es| - 1], sender);
    }
  }

  /** In any half-open minute at most `perMinute` messages of a sender are accepted, and in any half-open
      hour at most `perHour`, although checking and recording read the clock at different times. */
  lemma NoWindowIsOverfull(limits: Limits, es: seq<Event>, sender: string, from: int)
    requires Timely(es)
    ensures CountIn(Times(HistoryOf(RunReference(limits, es), sender)), from, from + MINUTE) <= Max(0, limits.perMinute)
    ensures CountIn(Times(HistoryOf(RunReference(limits, es), sender)), from, from + HOUR) <= Max(0, limits.perHour)
  {
    RunIsPaced(limits, es, sender);
    var h := HistoryOf(RunReference(limits, es), sender);
    assert h[..|h|] == h;
    WindowBound(h, |h|, from, MINUTE, limits.perMinute);
    WindowBound(h, |h|, from, HOUR, limits.perHour);
  }

  /** The window cannot be closed at both ends: with a limit of one a minute, messages exactly sixty
      seconds apart are both accepted. */
  lemma ClosedWindowOverflows()
    ensures var limits, es := Limits(1, 100), [Validate("a", 0, 0, false), Validate("a", MINUTE, MINUTE, false)];
            Times(HistoryOf(RunReference(limits, es), "a")) == [0, MINUTE]
  {
    var limits, first, second := Limits(1, 100), Validate("a", 0, 0, false), Validate("a", MINUTE, MINUTE, false);
    assert [first, second][..1] == [first] && [first][..0] == [];
    assert Times([]) == [];
    assert RunReference(limits, []) == EMPTY_REFERENCE;
    assert ReferenceVerdict(EMPTY_REFERENCE, limits, "a", 0, false) == Accepted;
    var one := RunReference(limits, [first]);
    assert one == ReferenceStep(RunReference(limits, [first][..0]), limits, first);
    assert HistoryOf(one, "a") == [Stamp(0, 0)];
    RecentSnoc([], 0, MINUTE, MINUTE);
    RecentSnoc([], 0, MINUTE, HOUR);
    assert Times([Stamp(0, 0)]) == [] + [0];
    assert HistoryOf(RunReference(limits, [first, second]), "a") == [Stamp(0, 0), Stamp(MINUTE, MINUTE)];
  }

  // ---------------------------------------------------------------- the decision, by counting

  /** How many of the times lie less than `window` before `now`. */
  function Since(times: seq<int>, now: int, window: int): nat {
    |set i | 0 <= i < |times| && now - times[i] < window|
  }

  lemma SinceSnoc(times: seq<int>, t: int, now: int, window: int)
    ensures Since(times + [t], now, window) == Since(times, now, window) + if now - t < window then 1 else 0
  {
    var all := times + [t];
    var before := set i | 0 <= i < |times| && now - times[i] < window;
    var after := set i | 0 <= i < |all| && now - all[i] < window;
    assert forall i :: 0 <= i < |times| ==> all[i] == times[i];
    assert after == before + if now - t < window then {|times|} else {};
  }

  lemma {:induction false} RecentIsSince(times: seq<int>, now: int, window: int)
    ensures |Recent(times, now, window)| == Since(times, now, window)
  {
    if times != [] {
      var n := |times| - 1;
      RecentIsSince(times[..n], now, window);
      SinceSnoc(times[..n], times[n], now, window);
      assert times == times[..n] + [times[n]];
    }
  }

  predicate BlockedAfter(es: seq<Event>, sender: string)
    decreases |es|
  {
    if es == [] then false
    else
      match es[|es| - 1]
      case Block(s, _) => s == sender || BlockedAfter(es[..|es| - 1], sender)
      case Unblock(s, _) => s != sender && BlockedAfter(es[..|es| - 1], sender)
      case _ => BlockedAfter(es[..|es| - 1], sender)
  }

  /** When the messages of a sender that were accepted were recorded. */
  function AcceptedTimes(limits: Limits, es: seq<Event>, sender: string): seq<int>
    decreases |es|
  {
    if es == [] then []
    else
      var before, e := es[..|es| - 1], es[|es| - 1];
      AcceptedTimes(limits, before, sender)
      + if e.Validate? && e.sender == sender
           && FilterVerdict(RunFilter(limits, before), limits, sender, e.checkedAt, e.highRisk) == Accepted
        then [e.recordedAt] else []
  }

  lemma PrefixIsTimely(es: seq<Event>, k: nat)
    requires Timely(es) && k <= |es|
    ensures Timely(es[..k])
  {
  }

  lemma {:induction false} BlockedIs(limits: Limits, es: seq<Event>, sender: string)
    ensures sender in RunReference(limits, es).blocked <==> BlockedAfter(es, sender)
    decreases |es|
  {
    if es != [] {
      BlockedIs(limits, es[..|es| - 1], sender);
    }
  }

  lemma HistoryStep(r: Reference, limits: Limits, e: Event, sender: string)
    ensures Times(HistoryOf(ReferenceStep(r, limits, e), sender)) == Times(HistoryOf(r, sender))
            + if e.Validate? && e.sender == sender && ReferenceVerdict(r, limits, sender, e.checkedAt, e.highRisk) == Accepted
              then [e.recordedAt] else []
  {
    if e.Validate? {
      assert Times(HistoryOf(r, sender) + [Stamp(e.checkedAt, e.recordedAt)]) == Times(HistoryOf(r, sender)) + [e.recordedAt];
    }
  }

  lemma {:induction false} HistoryIsAccepted(limits: Limits, es: seq<Event>, sender: string)
    requires Timely(es)
    ensures Times(HistoryOf(RunReference(limits, es), sender)) == AcceptedTimes(limits, es, sender)
    decreases |es|
  {
    if es != [] {
      var k := |es| - 1;
      PrefixIsTimely(es, k);
      HistoryIsAccepted(limits, es[..k], sender);
      HistoryStep(RunReference(limits, es[..k]), limits, es[k], sender);
      if es[k].Validate? {
        PrunedListDecidesAsHistory(limits, es, k);
      }
    }
  }

  /** What is decided about each message of a run whose clock never goes back, counted on the accepted messages of
      its sender: blocked senders are turned away; then whoever had as many as the limit accepted in the last 60
      or 3600 seconds; then high-risk content; everything else is accepted. */
  lemma DecidedByCounts(limits: Limits, es: seq<Event>, k: nat)
    requires Timely(es) && k < |es| && es[k].Validate?
    ensures var e, before := es[k], es[..k];
            var accepted := AcceptedTimes(limits, before, e.sender);
            FilterVerdict(RunFilter(limits, before), limits, e.sender, e.checkedAt, e.highRisk) ==
            if BlockedAfter(before, e.sender) then Blocked
            else if Since(accepted, e.checkedAt, 60 * 1_000_000) >= limits.perMinute
                    || Since(accepted, e.checkedAt, 3600 * 1_000_000) >= limits.perHour then RateLimited
            else if e.highRisk then HighRisk
            else Accepted
  {
    var e, before := es[k], es[..k];
    PrunedListDecidesAsHistory(limits, es, k);
    PrefixIsTimely(es, k);
    HistoryIsAccepted(limits, before, e.sender);
    BlockedIs(limits, before, e.sender);
    RecentIsSince(AcceptedTimes(limits, before, e.sender), e.checkedAt, MINUTE);
    RecentIsSince(AcceptedTimes(limits, before, e.sender), e.checkedAt, HOUR);
  }

  // ---------------------------------------------------------------- statistics

  /** How many validations of a run ended in one of these verdicts. */
  function Ending(limits: Limits, es: seq<Event>, verdicts: set<Verdict>): nat
    decreases |es|
  {
    if es == [] then 0
    else
      var e := es[|es| - 1];
      Ending(limits, es[..|es| - 1], verdicts)
      + if e.Validate? && FilterVerdict(RunFilter(limits, es[..|es| - 1]), limits, e.sender, e.checkedAt, e.highRisk) in verdicts
        then 1 else 0
  }

  /** The statistics are the numbers of validations, of those turned away for the sender or the content, and of
      those over the limit. */
  lemma {:induction false} EveryValidationIsCounted(limits: Limits, es: seq<Event>)
    ensures var s := RunFilter(limits, es).stats;
            && s.total == Ending(limits, es, {Accepted, Blocked, RateLimited, HighRisk})
            && s.blocked == Ending(limits, es, {Blocked, HighRisk}) && s.rateLimited == Ending(limits, es, {RateLimited})
    decreases |es|
  {
    if es != [] {
      EveryValidationIsCounted(limits, es[..|es| - 1]);
    }
  }

  // ---------------------------------------------------------------- what is kept

  lemma {:induction false} RecentMembers(times: seq<int>, now: int, window: int, t: int)
    ensures t in Recent(times, now, window) <==> t in times && t > now - window
  {
    if times != [] {
      RecentMembers(times[..|times| - 1], now, window, t);
      assert times == times[..|times| - 1] + [times[|times| - 1]];
    }
  }

  /** A message from a blocked sender leaves all lists alone. Any other leaves its sender's list with the times of the
      last hour and, if it is accepted, its own; no other list and no block changes. */
  lemma ValidationOnFields(f: Filter, limits: Limits, e: Event, t: int)
    requires e.Validate?
    ensures var g, v := FilterStep(f, limits, e), FilterVerdict(f, limits, e.sender, e.checkedAt, e.highRisk);
            && g.blocked == f.blocked && (forall q :: q != e.sender ==> ListOf(g.counts, q) == ListOf(f.counts, q))
            && (v == Blocked <==> e.sender in f.blocked) && (v == Blocked ==> g.counts == f.counts)
            && (v != Blocked ==>
                  (t in ListOf(g.counts, e.sender) <==>
                     (t in ListOf(f.counts, e.sender) && t > e.checkedAt - 3600 * 1_000_000) || (v == Accepted && t == e.recordedAt)))
  {
    RecentMembers(ListOf(f.counts, e.sender), e.checkedAt, HOUR, t);
  }
}
