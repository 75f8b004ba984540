/** The timing of one job: ticks on a fixed grid, jitter after them, overruns skipped. */
module TickLoop {
  import opened RealProducts

  /** What the clock does to one cycle: how long it runs, which fraction of the jitter is drawn
      for the pause after it, and how late the event loop wakes up from that pause. */
  datatype Cycle = Cycle(elapsed: real, draw: real, late: real)

  predicate Possible(c: Cycle) {
    c.elapsed >= 0.0 && 0.0 <= c.draw <= 1.0 && c.late >= 0.0
  }

  /** One start of a cycle: its tick, the instant planned for it and the instant it came to. */
  datatype Start = Start(tick: nat, planned: real, at: real)

  /** The instant of a tick. */
  function Slot(epoch: real, interval: real, tick: int): real {
    epoch + (tick as real) * interval
  }

  /** The range of the jitter, in seconds. */
  function Width(jitter: real, interval: real): real {
    jitter * interval
  }

  function MaxReal(a: real, b: real): real {
    if a >= b then a else b
  }

  function Interval(configured: real): (r: real)
    ensures r >= 1.0
  {
    MaxReal(1.0, configured)
  }

  function JitterFraction(configured: real): (r: real)
    ensures 0.0 <= r <= 1.0
  {
    if configured < 0.0 then 0.0 else if configured > 1.0 then 1.0 else configured
  }

  /** The tick after the given one, for a cycle that ends now. */
  function NextTick(epoch: real, interval: real, tick: int, now: real): int
    requires interval >= 1.0
  {
    var nextAt := Slot(epoch, interval, tick + 1);
    if nextAt <= now then tick + 1 + ((now - nextAt) / interval).Floor + 1 else tick + 1
  }

  // ---- the grid --------------------------------------------------------------------

  lemma SlotsAreApart(epoch: real, interval: real, j: int, k: int)
    ensures Slot(epoch, interval, k) - Slot(epoch, interval, j) == ((k - j) as real) * interval
    ensures interval >= 1.0 && j <= k ==> Slot(epoch, interval, j) <= Slot(epoch, interval, k)
    ensures interval >= 1.0 && j < k ==> Slot(epoch, interval, j) + interval <= Slot(epoch, interval, k)
  {
    var n := k - j;
    assert (k as real) * interval - (j as real) * interval == (n as real) * interval;
    if interval >= 1.0 && n >= 1 {
      Scaled(1.0, n as real, interval);
    }
  }

  lemma FloorBrackets(x: real, interval: real)
    requires interval >= 1.0
    ensures var q := (x / interval).Floor;
            (q as real) * interval <= x < (q as real) * interval + interval
  {
    var y := x / interval;
    Bracketed(x, y, y.Floor as real, interval);
  }

  lemma Bracketed(x: real, y: real, low: real, interval: real)
    requires interval >= 1.0 && x == y * interval && low <= y < low + 1.0
    ensures low * interval <= x < low * interval + interval
  {
    var over, under := y - low, low + 1.0 - y;
    NonNegative(over, interval);
    NonNegative(under, interval);
    assert over * interval == x - low * interval;
    assert under * interval == low * interval + interval - x;
  }

  /** The next tick is the first on the grid that lies strictly after now. */
  lemma NextTickIsLeast(epoch: real, interval: real, tick: int, now: real)
    requires interval >= 1.0 && Slot(epoch, interval, tick) <= now
    ensures var next := NextTick(epoch, interval, tick, now);
            next > tick && IsFirstAfter(epoch, interval, next, now)
  {
    var next := NextTick(epoch, interval, tick, now);
    var nextAt := Slot(epoch, interval, tick + 1);
    if nextAt <= now {
      FloorBrackets(now - nextAt, interval);
      SlotsAreApart(epoch, interval, tick + 1, next);
      SlotsAreApart(epoch, interval, tick + 1, next - 1);
      SlotsAreApart(epoch, interval, next - 1, next);
      assert (now - nextAt) / interval >= 0.0;
    }
    assert Slot(epoch, interval, next - 1) <= now < Slot(epoch, interval, next);
    forall k | Slot(epoch, interval, k) > now
      ensures k >= next
    {
      SlotsAreApart(epoch, interval, k, next - 1);
    }
  }

  lemma NextTickIs(epoch: real, interval: real, tick: int, now: real)
    requires interval >= 1.0
    ensures var nextAt := Slot(epoch, interval, tick + 1);
            && (nextAt <= now ==> (now - nextAt) / interval >= 0.0)
            && NextTick(epoch, interval, tick, now)
               == if nextAt <= now then tick + 1 + ((now - nextAt) / interval).Floor + 1 else tick + 1
  {
  }

  /** A slot is skipped exactly when the cycle ends a whole interval or more after its own slot:
      by running too long, by starting too late, or by both together. */
  lemma SkipsExactlyWhenLate(epoch: real, interval: real, tick: int, now: real)
    requires interval >= 1.0 && Slot(epoch, interval, tick) <= now
    ensures NextTick(epoch, interval, tick, now) > tick + 1 <==> now - Slot(epoch, interval, tick) >= interval
  {
    SlotsAreApart(epoch, interval, tick, tick + 1);
    NextTickIsLeast(epoch, interval, tick, now);
  }

  /** Every overrun skips a slot. */
  lemma OverrunSkips(epoch: real, interval: real, tick: int, started: real, elapsed: real)
    requires interval >= 1.0 && Slot(epoch, interval, tick) <= started && elapsed > interval
    ensures NextTick(epoch, interval, tick, started + elapsed) > tick + 1
  {
    SkipsExactlyWhenLate(epoch, interval, tick, started + elapsed);
  }

  // ---- whole runs --------------------------------------------------------------------

  /** The starts of a job so far: on the grid, in strictly ascending ticks, never before their slot,
      planned at most the jitter after it. */
  ghost predicate OnSchedule(epoch: real, interval: real, jitter: real, starts: seq<Start>) {
    && (forall i | 0 <= i < |starts| ::
          && Slot(epoch, interval, starts[i].tick) <= starts[i].planned
          && starts[i].planned <= Slot(epoch, interval, starts[i].tick) + Width(jitter, interval)
          && starts[i].planned <= starts[i].at)
    && (forall i, j | 0 <= i < j < |starts| :: starts[i].tick < starts[j].tick)
  }

  /** Each start takes the least slot after the end of the cycle before it. */
  ghost predicate LeastSlots(epoch: real, interval: real, starts: seq<Start>, cycles: seq<Cycle>)
    requires |starts| <= |cycles| + 1
  {
    forall i | 0 < i < |starts| ::
      IsFirstAfter(epoch, interval, starts[i].tick, starts[i - 1].at + cycles[i - 1].elapsed)
  }

  /** Each start but the first is planned at its slot plus the jitter drawn for it, and comes as late as
      the event loop wakes up. */
  ghost predicate AsDrawn(epoch: real, interval: real, jitter: real, starts: seq<Start>, cycles: seq<Cycle>)
    requires |starts| <= |cycles| + 1
  {
    forall i | 0 < i < |starts| ::
      && starts[i].planned == Slot(epoch, interval, starts[i].tick) + Drawn(cycles[i - 1].draw, jitter, interval)
      && starts[i].at == starts[i].planned + cycles[i - 1].late
  }

  ghost predicate IsFirstAfter(epoch: real, interval: real, tick: int, now: real) {
    Slot(epoch, interval, tick) > now && forall k :: Slot(epoch, interval, k) > now ==> k >= tick
  }

  function Overruns(interval: real, cycles: seq<Cycle>): nat {
    if cycles == [] then 0
    else Overruns(interval, cycles[..|cycles| - 1]) + if cycles[|cycles| - 1].elapsed > interval then 1 else 0
  }

  /** The run in numbers. Every start is planned in the jitter after a multiple of the interval. */
  ghost predicate Timely(epoch: real, interval: real, jitter: real, starts: seq<Start>, cycles: seq<Cycle>)
    requires |starts| == |cycles| + 1
  {
    && (forall i | 0 <= i < |starts| :: InTime(epoch, interval, jitter, starts[i]))
    && (forall i | 0 < i < |starts| :: FollowsOn(epoch, interval, jitter, starts[i - 1], cycles[i - 1], starts[i]))
  }

  ghost predicate InTime(epoch: real, interval: real, jitter: real, s: Start) {
    epoch + s.tick as real * interval <= s.planned <= epoch + s.tick as real * interval + jitter * interval
  }

  /** Each but the first takes the least multiple that lies after the end of the cycle before it, and comes
      after that by the fraction of the jitter that was drawn and the wake-up. */
  ghost predicate FollowsOn(epoch: real, interval: real, jitter: real, before: Start, cycle: Cycle, s: Start) {
    && epoch + (s.tick - 1) as real * interval <= before.at + cycle.elapsed < epoch + s.tick as real * interval
    && s.planned == epoch + s.tick as real * interval + cycle.draw * (jitter * interval)
    && s.at == s.planned + cycle.late
  }

  lemma RunsAreTimely(epoch: real, interval: real, jitter: real, starts: seq<Start>, cycles: seq<Cycle>)
    requires |starts| == |cycles| + 1
    requires OnSchedule(epoch, interval, jitter, starts) && LeastSlots(epoch, interval, starts, cycles)
    requires AsDrawn(epoch, interval, jitter, starts, cycles)
    ensures Timely(epoch, interval, jitter, starts, cycles)
  {
    hide IsFirstAfter, Slot, Width, Drawn, InTime, FollowsOn;
    forall i | 0 <= i < |starts| ensures InTime(epoch, interval, jitter, starts[i]) {
      IsInTime(epoch, interval, jitter, starts[i]);
    }
    forall i | 0 < i < |starts| ensures FollowsOn(epoch, interval, jitter, starts[i - 1], cycles[i - 1], starts[i]) {
      DoesFollowOn(epoch, interval, jitter, starts[i - 1], cycles[i - 1], starts[i]);
    }
  }

  lemma IsInTime(epoch: real, interval: real, jitter: real, s: Start)
    requires Slot(epoch, interval, s.tick) <= s.planned <= Slot(epoch, interval, s.tick) + Width(jitter, interval)
    ensures InTime(epoch, interval, jitter, s)
  {
  }

  lemma DoesFollowOn(epoch: real, interval: real, jitter: real, before: Start, cycle: Cycle, s: Start)
    requires IsFirstAfter(epoch, interval, s.tick, before.at + cycle.elapsed)
    requires s.planned == Slot(epoch, interval, s.tick) + Drawn(cycle.draw, jitter, interval)
    requires s.at == s.planned + cycle.late
    ensures FollowsOn(epoch, interval, jitter, before, cycle, s)
  {
    hide IsFirstAfter;
    NotBeforeTheFirst(epoch, interval, s.tick, before.at + cycle.elapsed);
  }

  lemma NotBeforeTheFirst(epoch: real, interval: real, tick: int, now: real)
    requires IsFirstAfter(epoch, interval, tick, now)
    ensures Slot(epoch, interval, tick - 1) <= now < Slot(epoch, interval, tick)
  {
    hide Slot;
  }

  /** The cycles longer than the interval. */
  ghost function TooLong(interval: real, cycles: seq<Cycle>): set<int> {
    set i | 0 <= i < |cycles| && cycles[i].elapsed > interval
  }

  lemma {:induction false} OverrunsCount(interval: real, cycles: seq<Cycle>)
    ensures Overruns(interval, cycles) == |TooLong(interval, cycles)|
  {
    if cycles == [] {
      assert TooLong(interval, cycles) == {};
    } else {
      var n := |cycles| - 1;
      OverrunsCount(interval, cycles[..n]);
      assert TooLong(interval, cycles)
          == TooLong(interval, cycles[..n]) + if cycles[n].elapsed > interval then {n} else {};
    }
  }

  lemma ConfiguredAs(configured: real, jitterConfigured: real)
    ensures Interval(configured) == if configured > 1.0 then configured else 1.0
    ensures JitterFraction(jitterConfigured)
            == if jitterConfigured <= 0.0 then 0.0 else if jitterConfigured >= 1.0 then 1.0 else jitterConfigured
  {
  }

  class Scheduler {
    var overruns: nat

    constructor ()
      ensures overruns == 0
    {
      overruns := 0;
    }

    /** _run_job, for a loop that is stopped after the given cycles. The result lists the starts of
        the cycles, and then the start that was next; `missed` is what the skips add up to. The interval
        is the configured one, but at least a second; the jitter is a fraction of it. */
    method RunJob(configured: real, jitterConfigured: real, epoch: real, cycles: seq<Cycle>)
      returns (starts: seq<Start>, tick: nat, ghost missed: nat)
      requires forall c | c in cycles :: Possible(c)
      modifies this
      ensures |starts| == |cycles| + 1 && starts[0] == Start(0, epoch, epoch) && starts[|cycles|].tick == tick
      ensures OnSchedule(epoch, Interval(configured), JitterFraction(jitterConfigured), starts)
      ensures LeastSlots(epoch, Interval(configured), starts, cycles)
      ensures AsDrawn(epoch, Interval(configured), JitterFraction(jitterConfigured), starts, cycles)
      ensures missed == |Untaken(starts, tick)| == tick - |cycles|
      ensures overruns == old(overruns) + Overruns(Interval(configured), cycles)
      ensures var interval := if configured > 1.0 then configured else 1.0;
              var jitter :=
                if jitterConfigured <= 0.0 then 0.0 else if jitterConfigured >= 1.0 then 1.0 else jitterConfigured;
              && Timely(epoch, interval, jitter, starts, cycles)
              && overruns == old(overruns) + |TooLong(interval, cycles)|
    {
      hide Slot, IsFirstAfter, LeastSlots, NextTick, Drawn, Width, Timely, TooLong;
      ConfiguredAs(configured, jitterConfigured);
      var interval := Interval(configured);
      var jitter := JitterFraction(jitterConfigured);
      tick, missed := 0, 0;
      starts := [Start(0, epoch, epoch)];
      FirstStart(epoch, interval, jitter);
      FirstSlots(epoch, interval, cycles);
      for i := 0 to |cycles|
        invariant |starts| == i + 1 && starts[0] == Start(0, epoch, epoch) && starts[i].tick == tick
        invariant OnSchedule(epoch, interval, jitter, starts)
        invariant LeastSlots(epoch, interval, starts, cycles)
        invariant AsDrawn(epoch, interval, jitter, starts, cycles)
        invariant tick == i + missed
        invariant overruns == old(overruns) + Overruns(interval, cycles[..i])
      {
        assert Possible(cycles[i]);
        var started := starts[i].at;
        var now := started + cycles[i].elapsed;
        if cycles[i].elapsed > interval {
          overruns := overruns + 1;
        }
        assert cycles[..i + 1][..i] == cycles[..i];
        ghost var before := tick;
        NextTickIs(epoch, interval, before, now);
        NextTickIsLeast(epoch, interval, before, now);
        tick := tick + 1;
        var nextAt := Slot(epoch, interval, tick);
        if nextAt <= now {
          var skipped := ((now - nextAt) / interval).Floor + 1;
          tick := tick + skipped;
          nextAt := Slot(epoch, interval, tick);
          missed := missed + skipped;
        }
        assert tick == NextTick(epoch, interval, before, now);
        var sleepFor := nextAt - now;
        if jitter != 0.0 {
          sleepFor := sleepFor + Drawn(cycles[i].draw, jitter, interval);
        }
        DrawIsBounded(cycles[i].draw, jitter, interval);
        var planned := now + MaxReal(0.0, sleepFor);
        var next := Start(tick, planned, planned + cycles[i].late);
        assert planned == nextAt + Drawn(cycles[i].draw, jitter, interval);
        ScheduleGoesOn(epoch, interval, jitter, starts, cycles, next);
        starts := starts + [next];
      }
      assert cycles[..|cycles|] == cycles;
      UntakenAddUp(starts);
      RunsAreTimely(epoch, interval, jitter, starts, cycles);
      OverrunsCount(interval, cycles);
    }
  }

  /** The slots below a tick that no start takes. */
  ghost function Untaken(starts: seq<Start>, tick: nat): set<nat> {
    set k: nat | k < tick && IsUntaken(starts, k)
  }

  ghost predicate IsUntaken(starts: seq<Start>, k: nat) {
    forall i | 0 <= i < |starts| :: starts[i].tick != k
  }

  predicate IsAbove(k: nat, low: nat) {
    k > low
  }

  ghost function Between(low: nat, high: nat): set<nat> {
    set k: nat | k < high && IsAbove(k, low)
  }

  lemma {:induction false} BetweenCounts(low: nat, high: nat)
    requires low < high
    ensures |Between(low, high)| == high - low - 1
    decreases high
  {
    if low + 1 == high {
      assert Between(low, high) == {};
    } else {
      BetweenCounts(low, high - 1);
      assert Between(low, high) == Between(low, high - 1) + {high - 1};
    }
  }

  /** Of the slots below the last start, all but those of the earlier starts are untaken. */
  lemma {:induction false} UntakenAddUp(starts: seq<Start>)
    requires starts != [] && starts[0].tick == 0
    requires forall i, j | 0 <= i < j < |starts| :: starts[i].tick < starts[j].tick
    ensures |Untaken(starts, starts[|starts| - 1].tick)| == starts[|starts| - 1].tick - (|starts| - 1)
  {
    var n := |starts| - 1;
    if n == 0 {
      assert Untaken(starts, 0) == {};
    } else {
      var init, low, high := starts[..n], starts[n - 1].tick, starts[n].tick;
      UntakenAddUp(init);
      BetweenCounts(low, high);
      forall k: nat | k in Untaken(init, low) ensures k in Untaken(starts, high) {}
      forall k: nat | k in Untaken(starts, high) ensures k in Untaken(init, low) + Between(low, high) {
        assert starts[n - 1].tick != k;
        assert forall i | 0 <= i < |init| :: init[i] == starts[i];
      }
      forall k: nat | k in Between(low, high) ensures IsUntaken(starts, k) {}
      assert Untaken(starts, high) == Untaken(init, low) + Between(low, high);
      assert Untaken(init, low) !! Between(low, high);
    }
  }

  /** The starts stay on schedule when the next one takes the first slot after the last cycle. */
  lemma ScheduleGoesOn(epoch: real, interval: real, jitter: real, starts: seq<Start>, cycles: seq<Cycle>, next: Start)
    requires 0 < |starts| <= |cycles|
    requires OnSchedule(epoch, interval, jitter, starts) && LeastSlots(epoch, interval, starts, cycles)
    requires next.tick > starts[|starts| - 1].tick
    requires IsFirstAfter(epoch, interval, next.tick, starts[|starts| - 1].at + cycles[|starts| - 1].elapsed)
    requires Slot(epoch, interval, next.tick) <= next.planned
             <= Slot(epoch, interval, next.tick) + Width(jitter, interval)
    requires next.planned <= next.at
    ensures OnSchedule(epoch, interval, jitter, starts + [next]) && LeastSlots(epoch, interval, starts + [next], cycles)
  {
    hide Slot, IsFirstAfter;
  }

  lemma FirstStart(epoch: real, interval: real, jitter: real)
    requires interval >= 1.0 && jitter >= 0.0
    ensures OnSchedule(epoch, interval, jitter, [Start(0, epoch, epoch)])
  {
    assert Slot(epoch, interval, 0) == epoch;
    assert jitter * interval >= 0.0;
  }

  lemma FirstSlots(epoch: real, interval: real, cycles: seq<Cycle>)
    ensures LeastSlots(epoch, interval, [Start(0, epoch, epoch)], cycles)
  {
  }

  // ---- skips and overruns ------------------------------------------------------------------------------

  /** Its first instant, the jitter drawn and the wake-ups leave a run no choice. */
  lemma {:induction false} StartsAreDetermined(epoch: real, interval: real, jitter: real, cycles: seq<Cycle>,
                                               a: seq<Start>, b: seq<Start>)
    requires 0 < |a| == |b| <= |cycles| + 1 && a[0] == b[0]
    requires LeastSlots(epoch, interval, a, cycles) && AsDrawn(epoch, interval, jitter, a, cycles)
    requires LeastSlots(epoch, interval, b, cycles) && AsDrawn(epoch, interval, jitter, b, cycles)
    ensures a == b
  {
    hide LeastSlots, AsDrawn;
    var n := |a| - 1;
    if n > 0 {
      ShorterRun(epoch, interval, jitter, cycles, a, n);
      ShorterRun(epoch, interval, jitter, cycles, b, n);
      StartsAreDetermined(epoch, interval, jitter, cycles, a[..n], b[..n]);
      assert a[n - 1] == a[..n][n - 1] == b[..n][n - 1] == b[n - 1];
      NextIsDetermined(epoch, interval, jitter, cycles, a, b, n);
      assert a == a[..n] + [a[n]] && b == b[..n] + [b[n]];
    }
  }

  lemma ShorterRun(epoch: real, interval: real, jitter: real, cycles: seq<Cycle>, starts: seq<Start>, n: nat)
    requires n <= |starts| <= |cycles| + 1
    requires LeastSlots(epoch, interval, starts, cycles) && AsDrawn(epoch, interval, jitter, starts, cycles)
    ensures LeastSlots(epoch, interval, starts[..n], cycles) && AsDrawn(epoch, interval, jitter, starts[..n], cycles)
  {
    hide Slot, Drawn, IsFirstAfter;
  }

  lemma NextIsDetermined(epoch: real, interval: real, jitter: real, cycles: seq<Cycle>, a: seq<Start>, b: seq<Start>,
                         n: nat)
    requires 0 < n < |a| == |b| <= |cycles| + 1 && a[n - 1] == b[n - 1]
    requires LeastSlots(epoch, interval, a, cycles) && AsDrawn(epoch, interval, jitter, a, cycles)
    requires LeastSlots(epoch, interval, b, cycles) && AsDrawn(epoch, interval, jitter, b, cycles)
    ensures a[n] == b[n]
  {
    hide Slot, Drawn, IsFirstAfter;
    FirstIsUnique(epoch, interval, a[n].tick, b[n].tick, a[n - 1].at + cycles[n - 1].elapsed);
  }

  lemma FirstIsUnique(epoch: real, interval: real, k: int, l: int, now: real)
    requires IsFirstAfter(epoch, interval, k, now) && IsFirstAfter(epoch, interval, l, now)
    ensures k == l
  {
    hide Slot;
  }

  /** How long after its slot a cycle starts: not at all for the first, then by the jitter and the
      wake-up. */
  function Delay(interval: real, jitter: real, cycles: seq<Cycle>, i: nat): real
    requires i < |cycles|
  {
    if i == 0 then 0.0 else Drawn(cycles[i - 1].draw, jitter, interval) + cycles[i - 1].late
  }

  /** A slot is skipped after a cycle with no overrun counted if and only if the cycle takes no longer than
      the interval, but at least what its late start has left of it. */
  lemma SkipsUncountedExactlyIf(epoch: real, interval: real, jitter: real, starts: seq<Start>, cycles: seq<Cycle>,
                                i: nat)
    requires interval >= 1.0 && |starts| == |cycles| + 1 && i < |cycles| && forall c | c in cycles :: Possible(c)
    requires starts[0] == Start(0, epoch, epoch) && OnSchedule(epoch, interval, jitter, starts)
    requires LeastSlots(epoch, interval, starts, cycles) && AsDrawn(epoch, interval, jitter, starts, cycles)
    ensures starts[i + 1].tick > starts[i].tick + 1 && !(cycles[i].elapsed > interval)
            <==> interval - Delay(interval, jitter, cycles, i) <= cycles[i].elapsed <= interval
  {
    hide Drawn, LeastSlots;
    var tick, now := starts[i].tick, starts[i].at + cycles[i].elapsed;
    assert Possible(cycles[i]);
    assert starts[i].at == Slot(epoch, interval, tick) + Delay(interval, jitter, cycles, i) by {
      assert Slot(epoch, interval, 0) == epoch;
    }
    NextTickIsLeast(epoch, interval, tick, now);
    SkipsExactlyWhenLate(epoch, interval, tick, now);
    NextStart(epoch, interval, starts, cycles, i, NextTick(epoch, interval, tick, now));
  }

  lemma NextStart(epoch: real, interval: real, starts: seq<Start>, cycles: seq<Cycle>, i: nat, tick: int)
    requires |starts| == |cycles| + 1 && i < |cycles| && LeastSlots(epoch, interval, starts, cycles)
    requires IsFirstAfter(epoch, interval, tick, starts[i].at + cycles[i].elapsed)
    ensures starts[i + 1].tick == tick
  {
    hide Slot, IsFirstAfter;
    FirstIsUnique(epoch, interval, starts[i + 1].tick, tick, starts[i].at + cycles[i].elapsed);
  }

  /** Two cycles of a job every ten seconds: after the first, the jitter puts the start five seconds late,
      and the second takes six. */
  const LATE_START := [Cycle(1.0, 1.0, 0.0), Cycle(6.0, 0.0, 0.0)]

  const LATE_STARTS := [Start(0, 0.0, 0.0), Start(1, 15.0, 15.0), Start(3, 30.0, 30.0)]

  /** So slot 2 is skipped, in every run with these cycles, and there is no overrun. */
  lemma SkipWithoutOverrun(starts: seq<Start>)
    requires |starts| == 3 && starts[0] == Start(0, 0.0, 0.0)
    requires LeastSlots(0.0, 10.0, starts, LATE_START) && AsDrawn(0.0, 10.0, 0.5, starts, LATE_START)
    ensures starts == LATE_STARTS && Overruns(10.0, LATE_START) == 0
  {
    hide LeastSlots, AsDrawn;
    LateStartsHappen();
    StartsAreDetermined(0.0, 10.0, 0.5, LATE_START, starts, LATE_STARTS);
    assert LATE_START[..1] == [LATE_START[0]] && LATE_START[..1][..0] == [];
    assert Overruns(10.0, LATE_START[..1]) == 0;
  }

  /** There is such a run. */
  lemma LateStartsHappen()
    ensures LeastSlots(0.0, 10.0, LATE_STARTS, LATE_START) && AsDrawn(0.0, 10.0, 0.5, LATE_STARTS, LATE_START)
  {
    hide IsFirstAfter, Slot, Drawn;
    FirstByTens(1, 1.0);
    FirstByTens(3, 21.0);
    LateDraws();
  }

  lemma LateDraws()
    ensures Slot(0.0, 10.0, 1) == 10.0 && Slot(0.0, 10.0, 3) == 30.0
    ensures Drawn(1.0, 0.5, 10.0) == 5.0 && Drawn(0.0, 0.5, 10.0) == 0.0
  {
  }

  lemma FirstByTens(tick: int, now: real)
    requires (tick - 1) as real * 10.0 <= now < tick as real * 10.0
    ensures IsFirstAfter(0.0, 10.0, tick, now)
  {
  }

  /** `random.uniform(0, interval * jitter)` */
  function Drawn(draw: real, jitter: real, interval: real): real {
    draw * (jitter * interval)
  }

  lemma DrawIsBounded(draw: real, jitter: real, interval: real)
    requires 0.0 <= draw <= 1.0 && interval >= 1.0 && jitter >= 0.0
    ensures 0.0 <= Drawn(draw, jitter, interval) <= Width(jitter, interval)
    ensures jitter == 0.0 ==> Drawn(draw, jitter, interval) == 0.0
  {
    var width := jitter * interval;
    assert width >= 0.0;
    assert draw * width <= width;
  }

  /** No drift, however the cycles go: by any instant T the job has started at most as many cycles
      as there are slots up to T, and its k-th start is never early for k slots. */
  lemma NoMoreStartsThanSlots(epoch: real, interval: real, jitter: real, starts: seq<Start>, k: nat, at: real)
    requires interval >= 1.0 && OnSchedule(epoch, interval, jitter, starts)
    requires k < |starts| && starts[k].at <= at
    ensures k + 1 <= ((at - epoch) / interval).Floor + 1
  {
    TicksCount(epoch, interval, jitter, starts, k);
    var q := ((at - epoch) / interval).Floor;
    FloorBrackets(at - epoch, interval);
    assert Slot(epoch, interval, k) <= at by {
      SlotsAreApart(epoch, interval, k, starts[k].tick);
    }
    if q + 1 <= k {
      SlotsAreApart(epoch, interval, q + 1, k);
    }
  }

  lemma {:induction false} TicksCount(epoch: real, interval: real, jitter: real, starts: seq<Start>, k: nat)
    requires k < |starts| && OnSchedule(epoch, interval, jitter, starts)
    ensures k <= starts[k].tick
  {
    if k > 0 {
      TicksCount(epoch, interval, jitter, starts, k - 1);
    }
  }
}
