/** When the shipper's `spooled` counter tells the truth, call by call. */
module SpoolCounter {
  import opened Measurements
  import opened Outcomes
  import opened RetryLaws
  import opened Shipping
  import opened ShippingLaws
  import opened SpoolQueue
  import opened Wrappers

  /** The state in which a call begins to flush, if it does. */
  function FlushStart(c: Config, s: State, call: Call): Option<State> {
    match call
    case Submit(items, now) =>
      if items != [] && |s.buffer| + |items| >= c.batchMaxSize then Some(Queued(s, items, now)) else None
    case Tick(now) => if Due(c, s, now) then Some(s) else None
    case Flush(_) => Some(s)
    case Stop(drain, _) => if drain then Some(s) else None
    case Replay(_) => None
    case Start => None
  }

  /** The flush of what is queued uses up its attempts, and the disk refuses the spool file. */
  predicate FlushIsRefused(c: Config, s: State) {
    var n := Attempts(c);
    && s.buffer != [] && s.spool.Some?
    && Refusals(s.started, s.turns, n) == n && !TurnAt(s.turns, n - 1).writes
  }

  /** A call that counts what is not written, or writes what it does not count. */
  predicate Miscounts(c: Config, s: State, call: Call) {
    || (FlushStart(c, s, call).Some? && FlushIsRefused(c, FlushStart(c, s, call).value))
    || (call.Stop? && !call.drain && call.writes && s.buffer != [] && s.spool.Some?)
  }

  lemma {:induction false} ReplayKeepsGap(s: State, maxFiles: nat)
    ensures Replayed(s, maxFiles).0.ledger.unwritten == s.ledger.unwritten
    ensures Replayed(s, maxFiles).0.ledger.stopSpooled == s.ledger.stopSpooled
    decreases maxFiles
  {
    hide OutcomeNow, Peeked, Removed, Items, Skipped;
    if maxFiles > 0 && s.spool.Some? && s.started {
      var s1 := Looked(s);
      if s1.spool.value.files != [] && OutcomeNow(s1) != Retry {
        ReplayKeepsGap(Settled(Posted(s1, s1.spool.value.files[0].batch), OutcomeNow(s1)), maxFiles - 1);
      }
    }
  }

  lemma SendingGap(c: Config, s: State, batch: seq<Measurement>)
    requires batch != []
    ensures Gap(Sent(c, s, batch, 1))
            == Gap(s) + if FlushIsRefused(c, s.(buffer := batch)) then |batch| else 0
  {
    hide Sent, Accepted, Refusals, TurnAt, OutcomeAt, Perform, EvictedItems;
    EveryBatchIsResolved(c, s, batch);
  }

  lemma FlushGap(c: Config, s: State, force: bool)
    ensures Gap(Flushed(c, s, force).0) == Gap(s) + if FlushIsRefused(c, s) then |s.buffer| else 0
  {
    hide Sent, Accepted, Refusals, TurnAt, Replayed;
    if s.buffer != [] {
      SendingGap(c, Taken(s), s.buffer);
      ReplayKeepsGap(Sent(c, Taken(s), s.buffer, 1), if force then DRAIN_REPLAYS else FLUSH_REPLAYS);
    }
  }

  /** Each call moves the gap one way, or not at all: within one call nothing cancels. */
  lemma CallGap(c: Config, s: State, call: Call)
    ensures Gap(After(c, s, call)) == Gap(s) <==> !Miscounts(c, s, call)
  {
    hide Flushed, Replayed, FlushIsRefused, Due, EvictedItems, Perform;
    RefusalNeedsABatch(c, s);
    match call
    case Submit(items, now) =>
      FlushGap(c, Queued(s, items, now), false);
      RefusalNeedsABatch(c, Queued(s, items, now));
    case Tick(now) =>
      FlushGap(c, s, false);
      ReplayKeepsGap(s, 1);
    case Flush(force) => FlushGap(c, s, force);
    case Replay(maxFiles) => ReplayKeepsGap(s, maxFiles);
    case Stop(drain, writes) => FlushGap(c, s, true);
    case Start =>
  }

  lemma RefusalNeedsABatch(c: Config, s: State)
    ensures FlushIsRefused(c, s) ==> |s.buffer| > 0
  {
  }

  ghost predicate HonestAt(c: Config, s: State, calls: seq<Call>, n: nat)
    requires n <= |calls|
  {
    SpoolHonest(s, AfterAll(c, s, calls[..n]))
  }

  ghost predicate MiscountsAt(c: Config, s: State, calls: seq<Call>, i: nat)
    requires i < |calls|
  {
    Miscounts(c, AfterAll(c, s, calls[..i]), calls[i])
  }

  lemma OneMoreCall(c: Config, s: State, calls: seq<Call>, i: nat)
    requires Initial(s) && i < |calls| && HonestAt(c, s, calls, i)
    ensures HonestAt(c, s, calls, i + 1) <==> !MiscountsAt(c, s, calls, i)
  {
    hide SpoolHonest, After, Miscounts, Gap;
    HonestWithoutGap(c, s, calls[..i]);
    HonestWithoutGap(c, s, calls[..i + 1]);
    assert calls[..i + 1][..i] == calls[..i];
    CallGap(c, AfterAll(c, s, calls[..i]), calls[i]);
  }

  /** The counter is right after every call of a history if and only if no flush in it uses up its
      attempts with a spool file refused, and no stop without draining writes what is left. */
  lemma SpooledIsHonest(c: Config, s: State, calls: seq<Call>)
    requires Initial(s)
    ensures (forall n: nat | n <= |calls| :: HonestAt(c, s, calls, n))
            <==> (forall i: nat | i < |calls| :: !MiscountsAt(c, s, calls, i))
  {
    hide SpoolHonest, AfterAll, Miscounts, HonestAt, MiscountsAt;
    if forall n: nat | n <= |calls| :: HonestAt(c, s, calls, n) {
      forall i: nat | i < |calls| ensures !MiscountsAt(c, s, calls, i) {
        assert HonestAt(c, s, calls, i) && HonestAt(c, s, calls, i + 1);
        OneMoreCall(c, s, calls, i);
      }
    }
    if forall i: nat | i < |calls| :: !MiscountsAt(c, s, calls, i) {
      forall n: nat | n <= |calls| ensures HonestAt(c, s, calls, n) {
        HonestUpTo(c, s, calls, n);
      }
    }
  }

  lemma {:induction false} HonestUpTo(c: Config, s: State, calls: seq<Call>, n: nat)
    requires Initial(s) && n <= |calls| && forall i: nat | i < |calls| :: !MiscountsAt(c, s, calls, i)
    ensures HonestAt(c, s, calls, n)
  {
    hide MiscountsAt;
    if n == 0 {
      assert calls[..0] == [];
    } else {
      HonestUpTo(c, s, calls, n - 1);
      assert !MiscountsAt(c, s, calls, n - 1);
      OneMoreCall(c, s, calls, n - 1);
    }
  }

  /** A new shipper with an empty spool that will meet one attempt without an answer. */
  function Unlucky(writes: bool): State {
    State([], None, true, ZERO_STATS, Some(EMPTY_DIRECTORY), ZERO_LEDGER, [Turn(NoAnswer, 0.0, writes)], [], 0.0)
  }

  /** A failing history: the flush gives up and the disk refuses the file, which is counted. */
  lemma RefusedWriteIsCounted(c: Config, m: Measurement)
    requires c.maxRetries <= 1 && c.batchMaxSize > 1
    ensures var s := Unlucky(false);
            var t := AfterAll(c, s, [Submit([m], 1.0), Flush(false)]);
            Initial(s) && t.stats.spooled == 1 && SpoolWeight(t) == 0 && !SpoolHonest(s, t)
  {
    hide Flushed;
    var s := Unlucky(false);
    var queued := Queued(s, [m], 1.0);
    assert After(c, s, Submit([m], 1.0)) == queued;
    TwoCalls(c, s, Submit([m], 1.0), Flush(false));
    RefusedFlush(c, queued, m, Turn(NoAnswer, 0.0, false));
  }

  /** Another: a stop writes the file and does not count it. */
  lemma StopWritesUncounted(c: Config, m: Measurement)
    requires c.batchMaxSize > 1
    ensures var s := Unlucky(true);
            var t := AfterAll(c, s, [Submit([m], 1.0), Stop(false, true)]);
            Initial(s) && t.stats.spooled == 0 && SpoolWeight(t) == 1 && !SpoolHonest(s, t)
  {
    hide Stopped;
    var s := Unlucky(true);
    var queued := Queued(s, [m], 1.0);
    assert After(c, s, Submit([m], 1.0)) == queued;
    TwoCalls(c, s, Submit([m], 1.0), Stop(false, true));
    SpooledByStop(c, queued, m);
  }

  lemma TwoCalls(c: Config, s: State, a: Call, b: Call)
    ensures AfterAll(c, s, [a, b]) == After(c, After(c, s, a), b)
  {
    hide After;
    assert [a, b][..1] == [a] && [a][..0] == [];
    assert AfterAll(c, s, [a]) == After(c, s, a);
  }

  lemma RefusedFlush(c: Config, s: State, m: Measurement, spare: Turn)
    requires c.maxRetries <= 1 && s.buffer == [m] && s.started && s.turns == [spare]
    requires spare.answer == NoAnswer && !spare.writes
    requires s.spool == Some(EMPTY_DIRECTORY) && s.stats.spooled == 0
    ensures var t := Flushed(c, s, false).0;
            && t.stats == s.stats.(queued := 0, spooled := 1, failedAttempts := s.stats.failedAttempts + 1)
            && t.spool == Some(Directory([], 1))
            && t.ledger == s.ledger.(unwritten := s.ledger.unwritten + [m])
  {
    assert Attempts(c) == 1;
  }

  lemma SpooledByStop(c: Config, s: State, m: Measurement)
    requires s.buffer == [m] && s.spool == Some(EMPTY_DIRECTORY)
    ensures var t := Stopped(c, s, false, true);
            && t.stats == s.stats && SpoolWeight(t) == 1 && t.ledger.evicted == s.ledger.evicted
            && t.ledger.replayDropped == s.ledger.replayDropped && t.ledger.quarantined == s.ledger.quarantined
  {
    var file := SpoolFile(1, [m], true, c.sizeOf([m]));
    assert [] + [file] == [file];
    EvictionIsLeast([file], c.maxBytes);
    assert Evicted([file], c.maxBytes) == [];
    assert Appended([], file, c.maxBytes) == [file];
    assert Weight([file]) == 1;
  }
}
