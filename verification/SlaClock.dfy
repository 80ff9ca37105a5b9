/**
 * The SLA clock: an interval sweep over state spells and reporter waits,
 * proved equal to counting the running milliseconds one by one.
 */
module SlaClock {
  import opened Wrappers
  import opened WorkflowStates

  predicate Stops(t: StateType) { t.Review? || t.Completed? || t.Canceled? }

  datatype Transition = Transition(at: int, stateType: StateType)

  // A span spent waiting on the reporter; no end means still waiting.
  datatype Pause = Pause(start: int, end: Option<int>)

  datatype Timeline = Timeline(committedAt: Option<int>, transitions: seq<Transition>)

  datatype Input = Input(budgetMs: int, stateType: StateType, createdAt: int)

  datatype Status = OnTrack | AtRisk | Breached | Paused | Met

  datatype Clock = Clock(status: Status, budgetMs: int, elapsedMs: int, remainingMs: int, dueAt: Option<int>, startedAt: int)

  const AT_RISK_SHARE := 0.2

  ghost predicate Sorted(ts: seq<Transition>) {
    forall i, j :: 0 <= i < j < |ts| ==> ts[i].at <= ts[j].at
  }

  // ------------------------------------------------- the pointwise reference

  predicate Covers(p: Pause, t: int, now: int) { p.start <= t < p.end.GetOr(now) }

  ghost predicate PausedAt(pauses: seq<Pause>, t: int, now: int) {
    exists i :: 0 <= i < |pauses| && Covers(pauses[i], t, now)
  }

  /** The number of instants in [lo, hi) that some pause covers. */
  ghost function PausedMs(lo: int, hi: int, pauses: seq<Pause>, now: int): nat
    decreases hi - lo
  {
    if hi <= lo then 0 else PausedMs(lo, hi - 1, pauses, now) + (if PausedAt(pauses, hi - 1, now) then 1 else 0)
  }

  /** The state in force at t: the last transition at or before it; before the first one, that one's state. */
  function InForce(ts: seq<Transition>, current: StateType, t: int): StateType
    decreases |ts|
  {
    if ts == [] then current
    else if |ts| == 1 || ts[|ts| - 1].at <= t then ts[|ts| - 1].stateType
    else InForce(ts[..|ts| - 1], current, t)
  }

  ghost predicate RunningAt(ts: seq<Transition>, current: StateType, pauses: seq<Pause>, t: int, now: int) {
    !Stops(InForce(ts, current, t)) && !PausedAt(pauses, t, now)
  }

  /** The number of instants in [lo, hi) at which the clock runs. */
  ghost function RunningMs(lo: int, hi: int, ts: seq<Transition>, current: StateType, pauses: seq<Pause>, now: int): nat
    decreases hi - lo
  {
    if hi <= lo then 0
    else RunningMs(lo, hi - 1, ts, current, pauses, now) + (if RunningAt(ts, current, pauses, hi - 1, now) then 1 else 0)
  }

  function StartOf(timeline: Timeline, input: Input): int { timeline.committedAt.GetOr(input.createdAt) }

  /** How far the sweep looks: now, or the last transition when that lies after now. */
  function Horizon(ts: seq<Transition>, now: int): int {
    if ts == [] then now else Max(now, ts[|ts| - 1].at)
  }

  ghost function ElapsedMs(timeline: Timeline, input: Input, pauses: seq<Pause>, now: int): nat {
    RunningMs(StartOf(timeline, input), Horizon(timeline.transitions, now), timeline.transitions, input.stateType, pauses, now)
  }

  // ---------------------------------------------------- coverage of a sweep

  datatype Span = Span(lo: int, hi: int)

  ghost predicate InSpans(spans: seq<Span>, t: int) {
    exists i :: 0 <= i < |spans| && spans[i].lo <= t < spans[i].hi
  }

  ghost function CoveredMs(lo: int, hi: int, spans: seq<Span>): nat
    decreases hi - lo
  {
    if hi <= lo then 0 else CoveredMs(lo, hi - 1, spans) + (if InSpans(spans, hi - 1) then 1 else 0)
  }

  lemma {:induction false} CoveredSame(lo: int, hi: int, a: seq<Span>, b: seq<Span>)
    requires forall t :: lo <= t < hi ==> (InSpans(a, t) <==> InSpans(b, t))
    ensures CoveredMs(lo, hi, a) == CoveredMs(lo, hi, b)
    decreases hi - lo
  {
    if lo < hi {
      CoveredSame(lo, hi - 1, a, b);
    }
  }

  lemma {:induction false} CoveredAll(lo: int, a: int, b: int, spans: seq<Span>)
    requires lo <= a <= b
    requires forall t :: a <= t < b ==> InSpans(spans, t)
    ensures CoveredMs(lo, b, spans) == CoveredMs(lo, a, spans) + (b - a)
    decreases b - a
  {
    if a < b {
      CoveredAll(lo, a, b - 1, spans);
    }
  }

  lemma {:induction false} CoveredNone(lo: int, a: int, b: int, spans: seq<Span>)
    requires lo <= a <= b
    requires forall t :: a <= t < b ==> !InSpans(spans, t)
    ensures CoveredMs(lo, b, spans) == CoveredMs(lo, a, spans)
    decreases b - a
  {
    if a < b {
      CoveredNone(lo, a, b - 1, spans);
    }
  }

  lemma {:induction false} CoveredIsPaused(lo: int, hi: int, spans: seq<Span>, pauses: seq<Pause>, now: int)
    requires forall t :: lo <= t < hi ==> (InSpans(spans, t) <==> PausedAt(pauses, t, now))
    ensures CoveredMs(lo, hi, spans) == PausedMs(lo, hi, pauses, now)
    decreases hi - lo
  {
    if lo < hi {
      CoveredIsPaused(lo, hi - 1, spans, pauses, now);
    }
  }

  // ------------------------------------------------------------ pausedWithin

  ghost predicate SpansSorted(spans: seq<Span>) {
    forall i, j :: 0 <= i < j < |spans| ==> spans[i].lo <= spans[j].lo
  }

  /** Insert one span into a list kept in order of its starts. */
  method InsertSpan(spans: seq<Span>, s: Span) returns (r: seq<Span>)
    requires SpansSorted(spans)
    ensures SpansSorted(r) && multiset(r) == multiset(spans) + multiset{s}
  {
    var k := 0;
    while k < |spans| && spans[k].lo <= s.lo
      invariant 0 <= k <= |spans| && forall i :: 0 <= i < k ==> spans[i].lo <= s.lo
    {
      k := k + 1;
    }
    r := spans[..k] + [s] + spans[k..];
    assert spans == spans[..k] + spans[k..];
  }

  lemma SpansOfMultiset(a: seq<Span>, b: seq<Span>, s: Span, t: int)
    requires multiset(a) == multiset(b) + multiset{s}
    ensures InSpans(a, t) <==> InSpans(b, t) || s.lo <= t < s.hi
  {
    if InSpans(a, t) {
      var i :| 0 <= i < |a| && a[i].lo <= t < a[i].hi;
      assert a[i] in multiset(a);
      if a[i] != s {
        assert a[i] in multiset(b);
        assert a[i] in b;
      }
    }
    if InSpans(b, t) {
      var i :| 0 <= i < |b| && b[i].lo <= t < b[i].hi;
      assert b[i] in multiset(b);
      assert b[i] in multiset(a);
      assert b[i] in a;
    }
    if s.lo <= t < s.hi {
      assert s in multiset(a);
      assert s in a;
    }
  }

  /** The pauses clipped to [lo, hi), empty ones dropped, sorted by their starts. */
  method ClipPauses(lo: int, hi: int, pauses: seq<Pause>, now: int) returns (spans: seq<Span>)
    ensures SpansSorted(spans)
    ensures forall i :: 0 <= i < |spans| ==> lo <= spans[i].lo < spans[i].hi <= hi
    ensures forall t :: lo <= t < hi ==> (InSpans(spans, t) <==> PausedAt(pauses, t, now))
  {
    spans := [];
    for k := 0 to |pauses|
      invariant SpansSorted(spans)
      invariant forall i :: 0 <= i < |spans| ==> lo <= spans[i].lo < spans[i].hi <= hi
      invariant forall t :: lo <= t < hi ==> (InSpans(spans, t) <==> PausedAt(pauses[..k], t, now))
    {
      var s := Span(Max(lo, pauses[k].start), Min(hi, pauses[k].end.GetOr(now)));
      ghost var before := spans;
      if s.hi > s.lo {
        spans := InsertSpan(spans, s);
        forall i | 0 <= i < |spans|
          ensures lo <= spans[i].lo < spans[i].hi <= hi
        {
          assert spans[i] in multiset(spans);
          assert spans[i] == s || spans[i] in before;
        }
      }
      forall t | lo <= t < hi
        ensures InSpans(spans, t) <==> PausedAt(pauses[..k + 1], t, now)
      {
        if s.hi > s.lo {
          SpansOfMultiset(spans, before, s, t);
        }
        PausedSnoc(pauses, k, t, now);
      }
    }
    assert pauses[..|pauses|] == pauses;
  }

  lemma PausedSnoc(pauses: seq<Pause>, k: nat, t: int, now: int)
    requires k < |pauses|
    ensures PausedAt(pauses[..k + 1], t, now) <==> PausedAt(pauses[..k], t, now) || Covers(pauses[k], t, now)
  {
    var more, less := pauses[..k + 1], pauses[..k];
    if PausedAt(more, t, now) {
      var i :| 0 <= i < |more| && Covers(more[i], t, now);
      assert i < k ==> less[i] == more[i];
    }
    if PausedAt(less, t, now) {
      var i :| 0 <= i < |less| && Covers(less[i], t, now);
      assert more[i] == less[i];
    }
    assert more[k] == pauses[k];
  }

  /** One step of the sweep: the next span adds exactly what lies beyond the reach so far. */
  lemma SweepStep(start: int, spans: seq<Span>, k: nat, reach: int)
    requires k < |spans| && SpansSorted(spans) && start <= reach
    requires forall i :: 0 <= i < |spans| ==> start <= spans[i].lo < spans[i].hi
    requires forall i :: 0 <= i < k ==> spans[i].hi <= reach
    requires reach == start || exists i :: 0 <= i < k && spans[i].hi == reach
    ensures var lo := Max(spans[k].lo, reach); var next := Max(reach, spans[k].hi);
      CoveredMs(start, next, spans[..k + 1])
        == CoveredMs(start, reach, spans[..k]) + (if spans[k].hi > lo then spans[k].hi - lo else 0)
  {
    var before, after := spans[..k], spans[..k + 1];
    var lo, next := Max(spans[k].lo, reach), Max(reach, spans[k].hi);
    forall t | start <= t < reach
      ensures InSpans(after, t) <==> InSpans(before, t)
    {
      if InSpans(after, t) {
        var i :| 0 <= i < |after| && after[i].lo <= t < after[i].hi;
        if i == k {
          var j :| 0 <= j < k && spans[j].hi == reach;
          assert before[j].lo <= t < before[j].hi;
        } else {
          assert before[i] == after[i];
        }
      }
      if InSpans(before, t) {
        var i :| 0 <= i < |before| && before[i].lo <= t < before[i].hi;
        assert after[i] == before[i];
      }
    }
    CoveredSame(start, reach, after, before);
    if spans[k].hi > lo {
      forall t | reach <= t < lo
        ensures !InSpans(after, t)
      {
      }
      CoveredNone(start, reach, lo, after);
      forall t | lo <= t < spans[k].hi
        ensures InSpans(after, t)
      {
        assert after[k] == spans[k];
      }
      CoveredAll(start, lo, spans[k].hi, after);
    }
  }

  /** How long the work stood paused between start and end, however its pauses overlap. */
  method PausedWithin(start: int, end: int, pauses: seq<Pause>, now: int) returns (covered: int)
    ensures covered == PausedMs(start, end, pauses, now)
  {
    var spans := ClipPauses(start, end, pauses, now);
    covered := 0;
    var reach := start;
    for k := 0 to |spans|
      invariant start <= reach && (forall i :: 0 <= i < k ==> spans[i].hi <= reach)
      invariant reach == start || exists i :: 0 <= i < k && spans[i].hi == reach
      invariant covered == CoveredMs(start, reach, spans[..k])
    {
      SweepStep(start, spans, k, reach);
      var lo := Max(spans[k].lo, reach);
      if spans[k].hi > lo {
        covered := covered + (spans[k].hi - lo);
      }
      reach := Max(reach, spans[k].hi);
    }
    assert spans[..|spans|] == spans;
    if start <= end {
      CoveredNone(start, reach, end, spans);
    }
    CoveredIsPaused(start, end, spans, pauses, now);
  }

  // --------------------------------------------------------- computeSlaClock

  lemma {:induction false} InForceIs(ts: seq<Transition>, current: StateType, t: int, i: nat)
    requires i < |ts| && ts[i].at <= t && forall j :: i < j < |ts| ==> ts[j].at > t
    ensures InForce(ts, current, t) == ts[i].stateType
    decreases |ts|
  {
    if i < |ts| - 1 {
      InForceIs(ts[..|ts| - 1], current, t, i);
    }
  }

  lemma {:induction false} InForceFirst(ts: seq<Transition>, current: StateType, t: int)
    requires ts != [] && forall j :: 0 <= j < |ts| ==> ts[j].at > t
    ensures InForce(ts, current, t) == ts[0].stateType
    decreases |ts|
  {
    if |ts| > 1 {
      InForceFirst(ts[..|ts| - 1], current, t);
    }
  }

  /** Over a stretch with one state in force, the running time is its length less what is paused, or nothing. */
  lemma {:induction false} Stretch(lo: int, a: int, b: int, ts: seq<Transition>, current: StateType, pauses: seq<Pause>, now: int, state: StateType)
    requires lo <= a <= b
    requires forall t :: a <= t < b ==> InForce(ts, current, t) == state
    ensures RunningMs(lo, b, ts, current, pauses, now) == RunningMs(lo, a, ts, current, pauses, now)
      + (if Stops(state) then 0 else (b - a) - PausedMs(a, b, pauses, now))
    decreases b - a
  {
    if a < b {
      Stretch(lo, a, b - 1, ts, current, pauses, now, state);
    }
  }

  /** The points the sweep walks: the start with the state in force there, then every later transition. */
  ghost predicate IsPoints(points: seq<Transition>, ts: seq<Transition>, m: nat, start: int, current: StateType) {
    && m <= |ts| && |points| == 1 + |ts| - m && points[0].at == start && points[1..] == ts[m..]
    && (forall i :: 0 <= i < m ==> ts[i].at < start) && (forall i :: m <= i < |ts| ==> ts[i].at >= start)
    && points[0].stateType == (if m > 0 then ts[m - 1].stateType else if ts != [] then ts[0].stateType else current)
  }

  lemma PointInForce(points: seq<Transition>, ts: seq<Transition>, m: nat, start: int, current: StateType, k: nat, t: int)
    requires Sorted(ts) && IsPoints(points, ts, m, start, current) && k < |points|
    requires points[k].at <= t && (k + 1 < |points| ==> t < points[k + 1].at)
    ensures InForce(ts, current, t) == points[k].stateType
  {
    if k > 0 {
      assert points[k] == points[1..][k - 1] == ts[m + k - 1];
      assert k + 1 < |points| ==> points[k + 1] == points[1..][k] == ts[m + k];
      InForceIs(ts, current, t, m + k - 1);
    } else {
      assert 1 < |points| ==> points[1] == points[1..][0] == ts[m];
      if m > 0 {
        InForceIs(ts, current, t, m - 1);
      } else if ts != [] {
        InForceFirst(ts, current, t);
      }
    }
  }

  /** Split the timeline at the start of the clock, as two filters over the transitions. */
  method PointsOf(ts: seq<Transition>, start: int, current: StateType) returns (points: seq<Transition>, ghost m: nat)
    requires Sorted(ts)
    ensures IsPoints(points, ts, m, start, current)
  {
    var spells: seq<Transition> := [];
    var before: Option<StateType> := None;
    m := 0;
    for i := 0 to |ts|
      invariant m <= i && spells == ts[m..i]
      invariant (forall j :: 0 <= j < m ==> ts[j].at < start) && (forall j :: m <= j < i ==> ts[j].at >= start)
      invariant before == (if m > 0 then Some(ts[m - 1].stateType) else None)
    {
      assert m < i ==> ts[m].at <= ts[i].at;
      if ts[i].at >= start {
        spells := spells + [ts[i]];
      } else {
        assert m == i;
        before := Some(ts[i].stateType);
        m := i + 1;
      }
    }
    var first := if before.Some? then before.value else if spells != [] then spells[0].stateType else current;
    points := [Transition(start, first)] + spells;
  }

  predicate WaitingOnReporter(pauses: seq<Pause>, now: int) {
    exists i :: 0 <= i < |pauses| && pauses[i].end.None? && pauses[i].start <= now
  }

  function StatusOf(input: Input, remainingMs: int, waiting: bool): Status {
    if remainingMs < 0 then Breached
    else if Closes(input.stateType) then Met
    else if input.stateType.Review? || waiting then Paused
    else if remainingMs as real <= input.budgetMs as real * AT_RISK_SHARE then AtRisk
    else OnTrack
  }

  /** The clock the pointwise count stands for. */
  ghost function ClockOf(timeline: Timeline, input: Input, pauses: seq<Pause>, now: int): Clock {
    var elapsed := ElapsedMs(timeline, input, pauses, now);
    var remaining := input.budgetMs - elapsed;
    var waiting := WaitingOnReporter(pauses, now);
    Clock(StatusOf(input, remaining, waiting), input.budgetMs, elapsed, remaining,
          if Stops(input.stateType) || waiting then None else Some(now + remaining), StartOf(timeline, input))
  }

  /** Where point k ends; past the last point, the horizon. */
  ghost function ReachOf(points: seq<Transition>, ts: seq<Transition>, now: int, k: nat): int
    requires k <= |points|
  {
    if k < |points| then points[k].at else Horizon(ts, now)
  }

  /** The sweep over spells computes the clock of the pointwise count, for any overlapping, nested or open pauses. */
  method ComputeSlaClock(timeline: Timeline, input: Input, now: int, pauses: seq<Pause>) returns (clock: Clock)
    requires Sorted(timeline.transitions)
    ensures clock == ClockOf(timeline, input, pauses, now)
  {
    var ts := timeline.transitions;
    var startedAt := if timeline.committedAt.Some? then timeline.committedAt.value else input.createdAt;
    var points, m := PointsOf(ts, startedAt, input.stateType);
    var elapsedMs := 0;
    for index := 0 to |points|
      invariant elapsedMs == RunningMs(startedAt, ReachOf(points, ts, now, index), ts, input.stateType, pauses, now)
    {
      var point := points[index];
      var end := if index + 1 < |points| then points[index + 1].at else now;
      PointOrder(points, ts, m, startedAt, input.stateType, now, index);
      var paused := PausedWithin(point.at, end, pauses, now);
      if point.at <= end {
        forall t | point.at <= t < end
          ensures InForce(ts, input.stateType, t) == point.stateType
        {
          PointInForce(points, ts, m, startedAt, input.stateType, index, t);
        }
        Stretch(startedAt, point.at, end, ts, input.stateType, pauses, now, point.stateType);
      }
      if !Stops(point.stateType) {
        elapsedMs := elapsedMs + Max(0, end - point.at) - paused;
      }
    }
    var remainingMs := input.budgetMs - elapsedMs;
    var waiting := exists i :: 0 <= i < |pauses| && pauses[i].end.None? && pauses[i].start <= now;
    var running := !Stops(input.stateType) && !waiting;
    clock := Clock(StatusOf(input, remainingMs, waiting), input.budgetMs, elapsedMs, remainingMs,
                   if running then Some(now + remainingMs) else None, startedAt);
  }

  /** Each point ends where the next begins; the last one ends at now, or has no length when it lies after now. */
  lemma PointOrder(points: seq<Transition>, ts: seq<Transition>, m: nat, start: int, current: StateType, now: int, k: nat)
    requires Sorted(ts) && IsPoints(points, ts, m, start, current) && k < |points|
    ensures start <= points[k].at
    ensures k + 1 < |points| ==> points[k].at <= points[k + 1].at
    ensures k + 1 == |points| ==>
      if points[k].at <= now then Horizon(ts, now) == now
      else Horizon(ts, now) == points[k].at || (Horizon(ts, now) <= start && points[k].at == start)
  {
    assert k > 0 ==> points[k] == points[1..][k - 1] == ts[m + k - 1];
    assert k + 1 < |points| ==> points[k + 1] == points[1..][k] == ts[m + k];
  }
}

/** How the clock moves as time passes and events are added. */
module SlaHistory {
  import opened Wrappers
  import opened WorkflowStates
  import opened SlaClock

  /** Later knowledge of the same work: transitions and pauses added at or after an instant, open pauses possibly closed. */
  ghost predicate PauseContinues(p: Pause, p': Pause, since: int) {
    p' == p || (p.end.None? && p'.start == p.start && p'.end.Some? && p'.end.value >= since)
  }

  ghost predicate Continues(t: Timeline, ps: seq<Pause>, t': Timeline, ps': seq<Pause>, since: int) {
    && t'.committedAt == t.committedAt
    && t.transitions <= t'.transitions && Sorted(t'.transitions)
    && (forall i :: 0 <= i < |t.transitions| ==> t.transitions[i].at <= since)
    && (forall i :: |t.transitions| <= i < |t'.transitions| ==> t'.transitions[i].at >= since)
    && |ps| <= |ps'|
    && (forall i :: 0 <= i < |ps| ==> PauseContinues(ps[i], ps'[i], since))
    && (forall i :: |ps| <= i < |ps'| ==> ps'[i].start >= since)
  }

  lemma PausedPastFixed(ps: seq<Pause>, ps': seq<Pause>, since: int, now: int, t: int)
    requires |ps| <= |ps'| && since <= now && t < since
    requires forall i :: 0 <= i < |ps| ==> PauseContinues(ps[i], ps'[i], since)
    requires forall i :: |ps| <= i < |ps'| ==> ps'[i].start >= since
    ensures PausedAt(ps, t, since) <==> PausedAt(ps', t, now)
  {
    if PausedAt(ps, t, since) {
      var i :| 0 <= i < |ps| && Covers(ps[i], t, since);
      assert Covers(ps'[i], t, now);
    }
    if PausedAt(ps', t, now) {
      var i :| 0 <= i < |ps'| && Covers(ps'[i], t, now);
      assert Covers(ps[i], t, since);
    }
  }

  lemma {:induction false} InForcePastFixed(ts: seq<Transition>, ts': seq<Transition>, c: StateType, c': StateType, since: int, t: int)
    requires ts != [] && ts <= ts' && t < since
    requires forall i :: |ts| <= i < |ts'| ==> ts'[i].at >= since
    ensures InForce(ts', c', t) == InForce(ts, c, t)
    decreases |ts'|
  {
    if |ts| < |ts'| {
      InForcePastFixed(ts, ts'[..|ts'| - 1], c, c', since, t);
    } else {
      assert ts' == ts;
      CurrentIrrelevant(ts, c, c', t);
    }
  }

  lemma {:induction false} CurrentIrrelevant(ts: seq<Transition>, c: StateType, c': StateType, t: int)
    requires ts != []
    ensures InForce(ts, c, t) == InForce(ts, c', t)
    decreases |ts|
  {
    if |ts| > 1 {
      CurrentIrrelevant(ts[..|ts| - 1], c, c', t);
    }
  }

  lemma {:induction false} RunningAgree(lo: int, hi: int, ts: seq<Transition>, c: StateType, ps: seq<Pause>, now: int,
                                        ts': seq<Transition>, c': StateType, ps': seq<Pause>, now': int)
    requires forall t :: lo <= t < hi ==> (RunningAt(ts, c, ps, t, now) <==> RunningAt(ts', c', ps', t, now'))
    ensures RunningMs(lo, hi, ts, c, ps, now) == RunningMs(lo, hi, ts', c', ps', now')
    decreases hi - lo
  {
    if lo < hi {
      RunningAgree(lo, hi - 1, ts, c, ps, now, ts', c', ps', now');
    }
  }

  /** The count over a longer stretch is larger by at most the extra length, and by all of it exactly when every extra instant runs. */
  lemma {:induction false} RunningGrows(lo: int, a: int, b: int, ts: seq<Transition>, c: StateType, ps: seq<Pause>, now: int)
    requires a <= b
    ensures RunningMs(lo, a, ts, c, ps, now) <= RunningMs(lo, b, ts, c, ps, now) <= RunningMs(lo, a, ts, c, ps, now) + (b - a)
    ensures lo <= a ==>
      (RunningMs(lo, b, ts, c, ps, now) == RunningMs(lo, a, ts, c, ps, now) + (b - a)
       <==> forall t :: a <= t < b ==> RunningAt(ts, c, ps, t, now))
    decreases b - a
  {
    if a < b {
      RunningGrows(lo, a, b - 1, ts, c, ps, now);
      if lo <= a && RunningAt(ts, c, ps, b - 1, now) && (forall t :: a <= t < b - 1 ==> RunningAt(ts, c, ps, t, now)) {
        assert forall t :: a <= t < b ==> RunningAt(ts, c, ps, t, now);
      }
    }
  }

  /** Nothing of the stretch counted so far can be taken back: a transition is recorded, or the whole of it stood still. */
  ghost predicate PastIsFixed(t: Timeline, i: Input, ps: seq<Pause>, now: int) {
    t.transitions != [] || Stops(i.stateType) || forall x :: StartOf(t, i) <= x < now ==> PausedAt(ps, x, now)
  }

  lemma {:induction false} NothingRan(lo: int, hi: int, c: StateType, ps: seq<Pause>, now: int)
    ensures RunningMs(lo, hi, [], c, ps, now) == 0 <==> Stops(c) || forall x :: lo <= x < hi ==> PausedAt(ps, x, now)
    decreases hi - lo
  {
    if lo < hi {
      NothingRan(lo, hi - 1, c, ps, now);
      assert RunningAt([], c, ps, hi - 1, now) <==> !Stops(c) && !PausedAt(ps, hi - 1, now);
      if forall x :: lo <= x < hi - 1 ==> PausedAt(ps, x, now) {
        assert PausedAt(ps, hi - 1, now) ==> forall x :: lo <= x < hi ==> PausedAt(ps, x, now);
      }
    }
  }

  /** Time passing and events added never lower the elapsed time of a past that is fixed. */
  lemma ElapsedMonotone(t: Timeline, i: Input, ps: seq<Pause>, now: int, t': Timeline, i': Input, ps': seq<Pause>, now': int)
    requires Continues(t, ps, t', ps', now) && now <= now' && i'.createdAt == i.createdAt
    requires PastIsFixed(t, i, ps, now)
    ensures ElapsedMs(t', i', ps', now') >= ElapsedMs(t, i, ps, now)
  {
    if t.transitions == [] {
      NothingRan(StartOf(t, i), now, i.stateType, ps, now);
    } else {
      var start := StartOf(t, i);
      forall x | start <= x < now
        ensures RunningAt(t.transitions, i.stateType, ps, x, now) <==> RunningAt(t'.transitions, i'.stateType, ps', x, now')
      {
        PausedPastFixed(ps, ps', now, now', x);
        InForcePastFixed(t.transitions, t'.transitions, i.stateType, i'.stateType, now, x);
      }
      RunningAgree(start, now, t.transitions, i.stateType, ps, now, t'.transitions, i'.stateType, ps', now');
      RunningGrows(start, now, Horizon(t'.transitions, now'), t'.transitions, i'.stateType, ps', now');
    }
  }

  /** With no transition recorded yet, one that goes straight to Review wipes out the time already counted. */
  lemma EmptyHistoryDrops(t: Timeline, i: Input, ps: seq<Pause>, now: int) returns (t': Timeline, i': Input)
    requires t.transitions == []
    ensures Continues(t, ps, t', ps, now) && i' == i.(stateType := Review) && ElapsedMs(t', i', ps, now) == 0
  {
    t' := t.(transitions := [Transition(now, Review)]);
    i' := i.(stateType := Review);
    StoppedCountsNothing(StartOf(t, i), now, t'.transitions, Review, ps, now);
  }

  lemma {:induction false} StoppedCountsNothing(lo: int, hi: int, ts: seq<Transition>, c: StateType, ps: seq<Pause>, now: int)
    requires |ts| == 1 && Stops(ts[0].stateType)
    ensures RunningMs(lo, hi, ts, c, ps, now) == 0
    decreases hi - lo
  {
    if lo < hi {
      StoppedCountsNothing(lo, hi - 1, ts, c, ps, now);
    }
  }

  ghost predicate NeverDrops(t: Timeline, i: Input, ps: seq<Pause>, now: int) {
    forall t': Timeline, i': Input, ps': seq<Pause>, now': int ::
      Continues(t, ps, t', ps', now) && now <= now' && i'.createdAt == i.createdAt ==>
        ElapsedMs(t', i', ps', now') >= ElapsedMs(t, i, ps, now)
  }

  /** Exactly when the elapsed time can never drop: some transition is recorded, or the clock stood still all along. */
  lemma NeverDropsIff(t: Timeline, i: Input, ps: seq<Pause>, now: int)
    ensures NeverDrops(t, i, ps, now) <==> PastIsFixed(t, i, ps, now)
  {
    if PastIsFixed(t, i, ps, now) {
      forall t': Timeline, i': Input, ps': seq<Pause>, now': int |
        Continues(t, ps, t', ps', now) && now <= now' && i'.createdAt == i.createdAt
        ensures ElapsedMs(t', i', ps', now') >= ElapsedMs(t, i, ps, now)
      {
        ElapsedMonotone(t, i, ps, now, t', i', ps', now');
      }
    } else {
      NothingRan(StartOf(t, i), now, i.stateType, ps, now);
      var t', i' := EmptyHistoryDrops(t, i, ps, now);
      assert Continues(t, ps, t', ps, now);
    }
  }

  /** Whatever happens next under the same budget, the clock reads breached. */
  ghost predicate StaysBreached(t: Timeline, i: Input, ps: seq<Pause>, now: int) {
    forall t': Timeline, i': Input, ps': seq<Pause>, now': int ::
      Continues(t, ps, t', ps', now) && now <= now' && i'.createdAt == i.createdAt && i'.budgetMs == i.budgetMs ==>
        ClockOf(t', i', ps', now').status.Breached?
  }

  /** A breach is permanent for a fixed budget exactly when some transition is recorded, or there never was any time to spend. */
  lemma BreachIsPermanentIff(t: Timeline, i: Input, ps: seq<Pause>, now: int)
    requires ClockOf(t, i, ps, now).status.Breached?
    ensures StaysBreached(t, i, ps, now) <==> t.transitions != [] || i.budgetMs < 0
  {
    if t.transitions != [] || i.budgetMs < 0 {
      forall t': Timeline, i': Input, ps': seq<Pause>, now': int |
        Continues(t, ps, t', ps', now) && now <= now' && i'.createdAt == i.createdAt && i'.budgetMs == i.budgetMs
        ensures ClockOf(t', i', ps', now').status.Breached?
      {
        if t.transitions != [] {
          ElapsedMonotone(t, i, ps, now, t', i', ps', now');
        }
      }
    } else {
      var t', i' := EmptyHistoryDrops(t, i, ps, now);
      assert !ClockOf(t', i', ps, now).status.Breached?;
    }
  }

  /** Two readings of a running clock name the same due date exactly when it ran at every instant between them. */
  lemma DueAtFixedIff(t: Timeline, i: Input, ps: seq<Pause>, now: int, now': int)
    requires now <= now' && StartOf(t, i) <= now && forall k :: 0 <= k < |t.transitions| ==> t.transitions[k].at <= now
    requires ClockOf(t, i, ps, now).dueAt.Some? && ClockOf(t, i, ps, now').dueAt.Some?
    ensures ClockOf(t, i, ps, now).dueAt == ClockOf(t, i, ps, now').dueAt
      <==> forall x :: now <= x < now' ==> RunningAt(t.transitions, i.stateType, ps, x, now')
    ensures ClockOf(t, i, ps, now').remainingMs == ClockOf(t, i, ps, now').dueAt.value - now'
  {
    var start := StartOf(t, i);
    forall x | start <= x < now
      ensures RunningAt(t.transitions, i.stateType, ps, x, now) <==> RunningAt(t.transitions, i.stateType, ps, x, now')
    {
      PausedPastFixed(ps, ps, now, now', x);
    }
    RunningAgree(start, now, t.transitions, i.stateType, ps, now, t.transitions, i.stateType, ps, now');
    RunningGrows(start, now, now', t.transitions, i.stateType, ps, now');
  }

  /** While the clock runs and nothing new happens, the due date stands still. */
  lemma DueAtStands(t: Timeline, i: Input, ps: seq<Pause>, now: int, now': int)
    requires Sorted(t.transitions) && t.transitions != [] && now <= now' && StartOf(t, i) <= now
    requires t.transitions[|t.transitions| - 1] == Transition(t.transitions[|t.transitions| - 1].at, i.stateType)
    requires t.transitions[|t.transitions| - 1].at <= now && !Stops(i.stateType)
    requires forall k :: 0 <= k < |ps| ==> ps[k].end.Some? && ps[k].end.value <= now
    ensures ClockOf(t, i, ps, now').dueAt.Some? && ClockOf(t, i, ps, now').dueAt == ClockOf(t, i, ps, now).dueAt
  {
    forall x | now <= x < now'
      ensures RunningAt(t.transitions, i.stateType, ps, x, now')
    {
      InForceIs(t.transitions, i.stateType, x, |t.transitions| - 1);
    }
    DueAtFixedIff(t, i, ps, now, now');
  }
}

/** What the clock says, told in instants, transitions and pauses alone. */
module SlaReadings {
  import opened Wrappers
  import opened WorkflowStates
  import opened SlaClock
  import opened SlaHistory

  /** The state in force at x, read off the transitions: the last at or before x, else the first there is, else the current one. */
  ghost predicate IsInForce(ts: seq<Transition>, current: StateType, x: int, state: StateType) {
    || (ts == [] && state == current)
    || (ts != [] && state == ts[0].stateType && forall k :: 0 <= k < |ts| ==> ts[k].at > x)
    || exists i :: LastAt(ts, x, i) && state == ts[i].stateType
  }

  ghost predicate LastAt(ts: seq<Transition>, x: int, i: int) {
    0 <= i < |ts| && ts[i].at <= x && forall k :: i < k < |ts| ==> ts[k].at > x
  }

  lemma {:induction false} InForceIsLast(ts: seq<Transition>, current: StateType, x: int)
    ensures IsInForce(ts, current, x, InForce(ts, current, x))
    decreases |ts|
  {
    if ts != [] && ts[|ts| - 1].at <= x {
      assert LastAt(ts, x, |ts| - 1);
    } else if |ts| > 1 {
      var init := ts[..|ts| - 1];
      InForceIsLast(init, current, x);
      if i :| LastAt(init, x, i) && InForce(ts, current, x) == init[i].stateType {
        assert LastAt(ts, x, i);
      }
    }
  }

  lemma InForceUnique(ts: seq<Transition>, current: StateType, x: int, a: StateType, b: StateType)
    requires IsInForce(ts, current, x, a) && IsInForce(ts, current, x, b)
    ensures a == b
  {
    if i, j :| LastAt(ts, x, i) && LastAt(ts, x, j) && a == ts[i].stateType && b == ts[j].stateType {
      assert i == j;
    }
  }

  /** The clock runs at x: the state in force is neither Review nor closed, and no pause covers x. */
  ghost predicate Runs(ts: seq<Transition>, current: StateType, pauses: seq<Pause>, now: int, x: int) {
    && (exists state :: IsInForce(ts, current, x, state) && !(state.Review? || state.Completed? || state.Canceled?))
    && forall i :: 0 <= i < |pauses| ==>
         x < pauses[i].start || (if pauses[i].end.Some? then pauses[i].end.value <= x else now <= x)
  }

  lemma RunsIff(ts: seq<Transition>, current: StateType, pauses: seq<Pause>, now: int, x: int)
    ensures RunningAt(ts, current, pauses, x, now) <==> Runs(ts, current, pauses, now, x)
  {
    InForceIsLast(ts, current, x);
    var state := InForce(ts, current, x);
    if other :| IsInForce(ts, current, x, other) && !(other.Review? || other.Completed? || other.Canceled?) {
      InForceUnique(ts, current, x, state, other);
    }
    if RunningAt(ts, current, pauses, x, now) {
      forall i | 0 <= i < |pauses|
        ensures x < pauses[i].start || (if pauses[i].end.Some? then pauses[i].end.value <= x else now <= x)
      {
        assert !Covers(pauses[i], x, now);
      }
    }
    if Runs(ts, current, pauses, now, x) {
      forall i | 0 <= i < |pauses|
        ensures !Covers(pauses[i], x, now)
      {
      }
    }
  }

  /** The instants of [lo, hi) at which the clock runs. */
  ghost function Instants(lo: int, hi: int, ts: seq<Transition>, current: StateType, pauses: seq<Pause>, now: int): set<int> {
    set x: int | lo <= x < hi && Runs(ts, current, pauses, now, x)
  }

  lemma InstantsNext(lo: int, hi: int, ts: seq<Transition>, current: StateType, pauses: seq<Pause>, now: int)
    requires lo < hi
    ensures |Instants(lo, hi, ts, current, pauses, now)|
      == |Instants(lo, hi - 1, ts, current, pauses, now)| + (if Runs(ts, current, pauses, now, hi - 1) then 1 else 0)
  {
    var less, more := Instants(lo, hi - 1, ts, current, pauses, now), Instants(lo, hi, ts, current, pauses, now);
    if Runs(ts, current, pauses, now, hi - 1) {
      assert more == less + {hi - 1};
    } else {
      assert more == less;
    }
  }

  lemma {:induction false} RunningIsCount(lo: int, hi: int, ts: seq<Transition>, current: StateType, pauses: seq<Pause>, now: int)
    ensures RunningMs(lo, hi, ts, current, pauses, now) == |Instants(lo, hi, ts, current, pauses, now)|
    decreases hi - lo
  {
    if lo < hi {
      RunningIsCount(lo, hi - 1, ts, current, pauses, now);
      RunsIff(ts, current, pauses, now, hi - 1);
      InstantsNext(lo, hi, ts, current, pauses, now);
    } else {
      assert Instants(lo, hi, ts, current, pauses, now) == {};
    }
  }

  /** When the last event or the reading lies, whichever is later. */
  ghost function LookTo(ts: seq<Transition>, now: int): int { if ts != [] && ts[|ts| - 1].at > now then ts[|ts| - 1].at else now }

  /** Some pause has no end and has begun. */
  ghost predicate StillWaiting(pauses: seq<Pause>, now: int) {
    exists i :: 0 <= i < |pauses| && pauses[i].end.None? && pauses[i].start <= now
  }

  /**
   * The reading of a clock. Its elapsed time is the number of running instants since the
   * work was committed, or else created; it is breached exactly when that exceeds the
   * budget, else met when closed, else paused in review or while waiting, else at risk
   * with a fifth of the budget or less to go, else on track; it names a due date only
   * while it runs.
   */
  lemma ReadingIs(t: Timeline, i: Input, ps: seq<Pause>, now: int)
    ensures var clock := ClockOf(t, i, ps, now);
      var start := if t.committedAt.Some? then t.committedAt.value else i.createdAt;
      var elapsed := |Instants(start, LookTo(t.transitions, now), t.transitions, i.stateType, ps, now)|;
      var closed := i.stateType.Completed? || i.stateType.Canceled?;
      var halted := i.stateType.Review? || StillWaiting(ps, now);
      && clock.startedAt == start && clock.elapsedMs == elapsed && clock.budgetMs == i.budgetMs && clock.remainingMs == i.budgetMs - elapsed
      && (clock.status.Breached? <==> elapsed > i.budgetMs)
      && (clock.status.Met? <==> elapsed <= i.budgetMs && closed)
      && (clock.status.Paused? <==> elapsed <= i.budgetMs && !closed && halted)
      && (clock.status.AtRisk? <==> elapsed <= i.budgetMs && !closed && !halted && 5 * (i.budgetMs - elapsed) <= i.budgetMs)
      && (clock.status.OnTrack? <==> elapsed <= i.budgetMs && !closed && !halted && 5 * (i.budgetMs - elapsed) > i.budgetMs)
      && clock.dueAt == (if closed || halted then None else Some(now + i.budgetMs - elapsed))
  {
    var start := if t.committedAt.Some? then t.committedAt.value else i.createdAt;
    RunningIsCount(start, LookTo(t.transitions, now), t.transitions, i.stateType, ps, now);
    var remaining := ClockOf(t, i, ps, now).remainingMs;
    FifthOf(remaining, i.budgetMs);
  }

  lemma FifthOf(remaining: int, budget: int)
    ensures remaining as real <= budget as real * AT_RISK_SHARE <==> 5 * remaining <= budget
  {
  }

  /** While the clock runs with nothing new, the due date alone decides: on track until a fifth of the budget is left, then at risk up to the due date, then breached for good. */
  lemma RunningStatus(t: Timeline, i: Input, ps: seq<Pause>, now: int, due: int, later: int)
    requires Sorted(t.transitions) && t.transitions != [] && now <= later && StartOf(t, i) <= now
    requires t.transitions[|t.transitions| - 1] == Transition(t.transitions[|t.transitions| - 1].at, i.stateType)
    requires t.transitions[|t.transitions| - 1].at <= now && !Stops(i.stateType)
    requires forall k :: 0 <= k < |ps| ==> ps[k].end.Some? && ps[k].end.value <= now
    requires ClockOf(t, i, ps, now).dueAt == Some(due)
    ensures var status := ClockOf(t, i, ps, later).status;
      && (status.OnTrack? <==> later <= due && 5 * (due - later) > i.budgetMs)
      && (status.AtRisk? <==> later <= due && 5 * (due - later) <= i.budgetMs)
      && (status.Breached? <==> later > due)
  {
    DueAtStands(t, i, ps, now, later);
    ReadingIs(t, i, ps, later);
  }

  /** How far along a running clock is. */
  ghost function Stage(s: Status): nat { if s.OnTrack? then 0 else if s.AtRisk? then 1 else 2 }

  /** So it only ever moves from on track to at risk to breached. */
  lemma RunningNeverRecovers(t: Timeline, i: Input, ps: seq<Pause>, now: int, later: int, latest: int)
    requires Sorted(t.transitions) && t.transitions != [] && now <= later <= latest && StartOf(t, i) <= now
    requires t.transitions[|t.transitions| - 1] == Transition(t.transitions[|t.transitions| - 1].at, i.stateType)
    requires t.transitions[|t.transitions| - 1].at <= now && !Stops(i.stateType)
    requires forall k :: 0 <= k < |ps| ==> ps[k].end.Some? && ps[k].end.value <= now
    ensures var a, b := ClockOf(t, i, ps, later).status, ClockOf(t, i, ps, latest).status;
      !a.Met? && !a.Paused? && !b.Met? && !b.Paused? && Stage(a) <= Stage(b)
  {
    DueAtStands(t, i, ps, now, now);
    var due := ClockOf(t, i, ps, now).dueAt.value;
    RunningStatus(t, i, ps, now, due, later);
    RunningStatus(t, i, ps, now, due, latest);
  }
}
