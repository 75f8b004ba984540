/** What the shipper's counters are worth, and how it empties its spool: for every sequence of
    operations that do not overlap, against any server, network and disk. */
module ShippingLaws {
  import opened Measurements
  import opened Outcomes
  import opened RealProducts
  import opened Shipping
  import opened SpoolQueue
  import opened Wrappers

  // ---- conservation -------------------------------------------------------------

  function SpoolWeight(s: State): nat {
    if s.spool.Some? then Weight(s.spool.value.files) else 0
  }

  function LiveDrops(s: State): nat {
    |s.ledger.rejected| + |s.ledger.unspooled|
  }

  /** Every submitted measurement is queued, was shipped live, went to the spool, or was dropped;
      every measurement that was in the spool at the start or went there since is there still, was
      replayed, was dropped on replay, went with an evicted or a quarantined file, or was never
      written. `initial` is the weight of the spool at the start. */
  ghost predicate Balanced(s: State, initial: nat) {
    && s.stats.replayed <= s.stats.shipped
    && |s.ledger.submitted| == |s.buffer| + (s.stats.shipped - s.stats.replayed) + s.stats.spooled
                               + |s.ledger.stopSpooled| + LiveDrops(s)
    && initial + s.stats.spooled + |s.ledger.stopSpooled|
       == SpoolWeight(s) + s.stats.replayed + |s.ledger.replayDropped| + |s.ledger.evicted|
          + |s.ledger.quarantined| + |s.ledger.unwritten|
    && s.stats.dropped == LiveDrops(s) + |s.ledger.replayDropped|
  }

  /** A batch that has left the buffer and is not accounted for yet. */
  ghost predicate BalancedWith(s: State, initial: nat, batch: seq<Measurement>) {
    Balanced(CountRejected(s, batch), initial)
  }

  lemma StoringBalances(c: Config, s: State, batch: seq<Measurement>, writes: bool)
    requires s.spool.Some?
    ensures var t := Stored(c, s, batch, writes);
            SpoolWeight(t) + (|t.ledger.evicted| - |s.ledger.evicted|)
            + (|t.ledger.unwritten| - |s.ledger.unwritten|)
            == SpoolWeight(s) + |batch|
    ensures var t := Stored(c, s, batch, writes);
            t == s.(spool := t.spool, ledger := s.ledger.(evicted := t.ledger.evicted, unwritten := t.ledger.unwritten))
  {
    var d := s.spool.value;
    var file := SpoolFile(d.clock + 1, batch, true, c.sizeOf(batch));
    WeightSplits(d.files, [file]);
    WeightSplits(Evicted(d.files + [file], c.maxBytes), Appended(d.files, file, c.maxBytes));
  }

  lemma {:induction false} SendingBalances(c: Config, s: State, batch: seq<Measurement>, attempt: nat, initial: nat)
    requires 1 <= attempt <= Attempts(c)
    requires BalancedWith(s, initial, batch)
    ensures Balanced(Sent(c, s, batch, attempt), initial)
    decreases Attempts(c) - attempt
  {
    if OutcomeNow(s) == Retry {
      if attempt < Attempts(c) {
        var pause := Times(NextTurn(s.turns).jitter, Delay(c, attempt));
        SendingBalances(c, Paused(Tried(s, batch), pause), batch, attempt + 1, initial);
      } else if s.spool.Some? {
        StoringBalances(c, Tried(s, batch), batch, NextTurn(s.turns).writes);
      }
    }
  }

  lemma {:induction false} RemovingHead(q: Queue)
    requires q != [] && InOrder(q)
    ensures Removed(q, q[0].name) == q[1..]
    ensures Weight(q) == |q[0].batch| + Weight(Removed(q, q[0].name))
    ensures InOrder(q[1..])
  {
    RemoveTakesOne(q, 0);
  }

  ghost predicate Ordered(s: State) {
    s.spool.Some? ==> WellFormed(s.spool.value)
  }

  lemma LookingBalances(s: State, initial: nat)
    requires s.spool.Some? && Balanced(s, initial) && Ordered(s)
    ensures Balanced(Looked(s), initial) && Ordered(Looked(s)) && Looked(s).spool.Some?
  {
    var q := s.spool.value.files;
    WeightSplits(Skipped(q), Peeked(q));
    SuffixInOrder(Skipped(q), Peeked(q));
  }

  lemma SettlingBalances(s: State, outcome: Outcome, initial: nat)
    requires s.spool.Some? && s.spool.value.files != [] && outcome != Retry
    requires Balanced(s, initial) && Ordered(s)
    ensures Balanced(Settled(s, outcome), initial) && Ordered(Settled(s, outcome))
  {
    RemovingHead(s.spool.value.files);
  }

  lemma PostingBalances(s: State, batch: seq<Measurement>, initial: nat)
    requires Balanced(s, initial) && Ordered(s)
    ensures var t := Posted(s, batch); Balanced(t, initial) && Ordered(t) && t.spool == s.spool
  {
  }

  lemma {:induction false} ReplayBalances(s: State, maxFiles: nat, initial: nat)
    requires Balanced(s, initial) && Ordered(s)
    ensures Balanced(Replayed(s, maxFiles).0, initial) && Ordered(Replayed(s, maxFiles).0)
    decreases maxFiles
  {
    hide Balanced, Ordered, Looked, Posted, Settled, OutcomeNow;
    if maxFiles > 0 && s.spool.Some? && s.started {
      LookingBalances(s, initial);
      var s1 := Looked(s);
      if s1.spool.value.files != [] {
        PostingBalances(s1, s1.spool.value.files[0].batch, initial);
      }
      if s1.spool.value.files != [] && OutcomeNow(s1) != Retry {
        var s2 := Posted(s1, s1.spool.value.files[0].batch);
        SettlingBalances(s2, OutcomeNow(s1), initial);
        ReplayBalances(Settled(s2, OutcomeNow(s1)), maxFiles - 1, initial);
      }
    }
  }

  lemma StoringKeepsOrder(c: Config, s: State, batch: seq<Measurement>, writes: bool)
    requires s.spool.Some? && Ordered(s)
    ensures Ordered(Stored(c, s, batch, writes))
  {
    StepKeepsForm(s.spool.value, Append(batch, writes, c.sizeOf(batch)), c.maxBytes);
  }

  lemma {:induction false} SendingKeepsOrder(c: Config, s: State, batch: seq<Measurement>, attempt: nat)
    requires 1 <= attempt <= Attempts(c) && Ordered(s)
    ensures Ordered(Sent(c, s, batch, attempt))
    decreases Attempts(c) - attempt
  {
    if OutcomeNow(s) == Retry {
      if attempt < Attempts(c) {
        var pause := Times(NextTurn(s.turns).jitter, Delay(c, attempt));
        SendingKeepsOrder(c, Paused(Tried(s, batch), pause), batch, attempt + 1);
      } else if s.spool.Some? {
        StoringKeepsOrder(c, Tried(s, batch), batch, NextTurn(s.turns).writes);
      }
    }
  }

  lemma FlushBalances(c: Config, s: State, force: bool, initial: nat)
    requires Balanced(s, initial) && Ordered(s)
    ensures Balanced(Flushed(c, s, force).0, initial) && Ordered(Flushed(c, s, force).0)
  {
    if s.buffer != [] {
      SendingBalances(c, Taken(s), s.buffer, 1, initial);
      SendingKeepsOrder(c, Taken(s), s.buffer, 1);
      ReplayBalances(Sent(c, Taken(s), s.buffer, 1), if force then DRAIN_REPLAYS else FLUSH_REPLAYS, initial);
    }
  }

  /** The operations of the shipper. `Start` makes a client again after a stop. */
  datatype Call = Submit(items: seq<Measurement>, now: real) | Tick(now: real) | Flush(force: bool)
                | Replay(maxFiles: nat) | Stop(drain: bool, writes: bool) | Start

  function After(c: Config, s: State, call: Call): State {
    match call
    case Submit(items, now) => Submitted(c, s, items, now)
    case Tick(now) => Ticked(c, s, now)
    case Flush(force) => Flushed(c, s, force).0
    case Replay(maxFiles) => Replayed(s, maxFiles).0
    case Stop(drain, writes) => Stopped(c, s, drain, writes)
    case Start => s.(started := true)
  }

  function AfterAll(c: Config, s: State, calls: seq<Call>): State {
    if calls == [] then s else After(c, AfterAll(c, s, calls[..|calls| - 1]), calls[|calls| - 1])
  }

  /** Queueing and starting. */
  lemma QueueingBalances(s: State, items: seq<Measurement>, now: real, started: bool, initial: nat)
    requires Balanced(s, initial) && Ordered(s)
    ensures Balanced(Queued(s, items, now), initial) && Ordered(Queued(s, items, now))
    ensures Balanced(s.(started := started), initial) && Ordered(s.(started := started))
  {
  }

  lemma StoppingBalances(c: Config, s: State, drain: bool, writes: bool, initial: nat)
    requires Balanced(s, initial) && Ordered(s)
    ensures Balanced(Stopped(c, s, drain, writes), initial) && Ordered(Stopped(c, s, drain, writes))
  {
    hide Flushed, Stored;
    FlushBalances(c, s, true, initial);
    if s.spool.Some? {
      StoringBalances(c, s, s.buffer, writes);
      StoringKeepsOrder(c, s, s.buffer, writes);
    }
  }

  lemma CallBalances(c: Config, s: State, call: Call, initial: nat)
    requires Balanced(s, initial) && Ordered(s)
    ensures Balanced(After(c, s, call), initial) && Ordered(After(c, s, call))
  {
    hide Balanced, Ordered, Flushed, Replayed, Stopped, Queued;
    match call
    case Submit(items, now) =>
      QueueingBalances(s, items, now, true, initial);
      FlushBalances(c, Queued(s, items, now), false, initial);
    case Tick(now) =>
      FlushBalances(c, s, false, initial);
      ReplayBalances(s, 1, initial);
    case Flush(force) => FlushBalances(c, s, force, initial);
    case Replay(maxFiles) => ReplayBalances(s, maxFiles, initial);
    case Stop(drain, writes) => StoppingBalances(c, s, drain, writes, initial);
    case Start => QueueingBalances(s, [], 0.0, true, initial);
  }

  /** A shipper before its first operation, over a spool left by an earlier run. */
  ghost predicate Initial(s: State) {
    && s.buffer == [] && s.oldest == None && s.stats == ZERO_STATS && s.ledger == ZERO_LEDGER
    && s.log == [] && s.slept == 0.0 && Ordered(s)
  }

  /** Conservation over every sequence of operations. */
  lemma {:induction false} NothingGoesUncounted(c: Config, s: State, calls: seq<Call>)
    requires Initial(s)
    ensures Balanced(AfterAll(c, s, calls), SpoolWeight(s)) && Ordered(AfterAll(c, s, calls))
  {
    if calls != [] {
      NothingGoesUncounted(c, s, calls[..|calls| - 1]);
      CallBalances(c, AfterAll(c, s, calls[..|calls| - 1]), calls[|calls| - 1], SpoolWeight(s));
    }
  }

  /** The `spooled` counter accounts for the spool: what was there before and what was counted since is
      there still, was replayed, or was dropped on replay, by eviction or by quarantine. */
  ghost predicate SpoolHonest(s: State, t: State) {
    SpoolWeight(s) + t.stats.spooled
    == SpoolWeight(t) + t.stats.replayed + |t.ledger.replayDropped| + |t.ledger.evicted| + |t.ledger.quarantined|
  }

  /** The measurements counted and not written less those written and not counted. */
  function Gap(t: State): int {
    |t.ledger.unwritten| - |t.ledger.stopSpooled|
  }

  lemma HonestWithoutGap(c: Config, s: State, calls: seq<Call>)
    requires Initial(s)
    ensures SpoolHonest(s, AfterAll(c, s, calls)) <==> Gap(AfterAll(c, s, calls)) == 0
  {
    NothingGoesUncounted(c, s, calls);
  }

  // ---- the other counters -------------------------------------------------------------

  /** `queued` and the age of the buffer are up to date, and no more was replayed than shipped. */
  ghost predicate UpToDate(s: State) {
    && s.stats.queued == |s.buffer|
    && (s.oldest.Some? <==> s.buffer != [])
    && s.stats.replayed <= s.stats.shipped
  }

  /** The disk takes every write still to come, and nothing has been lost to it. */
  ghost predicate Sound(s: State) {
    && (forall t | t in s.turns :: t.writes)
    && s.ledger.unwritten == [] && s.ledger.stopSpooled == []
  }

  lemma {:induction false} SendingIsSound(c: Config, s: State, batch: seq<Measurement>, attempt: nat)
    requires 1 <= attempt <= Attempts(c) && UpToDate(s)
    ensures UpToDate(Sent(c, s, batch, attempt)) && (Sound(s) ==> Sound(Sent(c, s, batch, attempt)))
    decreases Attempts(c) - attempt
  {
    hide Perform, EvictedItems;
    if OutcomeNow(s) == Retry && attempt < Attempts(c) {
      var pause := Times(NextTurn(s.turns).jitter, Delay(c, attempt));
      SendingIsSound(c, Paused(Tried(s, batch), pause), batch, attempt + 1);
    }
  }

  lemma {:induction false} ReplayIsSound(s: State, maxFiles: nat)
    requires UpToDate(s)
    ensures UpToDate(Replayed(s, maxFiles).0) && (Sound(s) ==> Sound(Replayed(s, maxFiles).0))
    decreases maxFiles
  {
    hide Peeked, Skipped, Removed, Items, OutcomeNow;
    if maxFiles > 0 && s.spool.Some? && s.started {
      var s1 := Looked(s);
      if s1.spool.value.files != [] && OutcomeNow(s1) != Retry {
        ReplayIsSound(Settled(Posted(s1, s1.spool.value.files[0].batch), OutcomeNow(s1)), maxFiles - 1);
      }
    }
  }

  lemma FlushIsSound(c: Config, s: State, force: bool)
    requires UpToDate(s)
    ensures UpToDate(Flushed(c, s, force).0) && (Sound(s) ==> Sound(Flushed(c, s, force).0))
  {
    if s.buffer != [] {
      SendingIsSound(c, Taken(s), s.buffer, 1);
      ReplayIsSound(Sent(c, Taken(s), s.buffer, 1), if force then DRAIN_REPLAYS else FLUSH_REPLAYS);
    }
  }

  /** A stop that puts a batch into the spool without draining. */
  predicate SpoolsUndrained(s: State, call: Call) {
    call.Stop? && !call.drain && s.buffer != [] && s.spool.Some?
  }

  lemma CallIsSound(c: Config, s: State, call: Call)
    requires UpToDate(s)
    ensures if SpoolsUndrained(s, call) then After(c, s, call).stats.queued != |After(c, s, call).buffer|
            else UpToDate(After(c, s, call)) && (Sound(s) ==> Sound(After(c, s, call)))
  {
    hide Flushed, Replayed;
    match call
    case Submit(items, now) =>
      if items != [] {
        FlushIsSound(c, Queued(s, items, now), false);
      }
    case Tick(now) =>
      FlushIsSound(c, s, false);
      ReplayIsSound(s, 1);
    case Flush(force) => FlushIsSound(c, s, force);
    case Replay(maxFiles) => ReplayIsSound(s, maxFiles);
    case Stop(drain, writes) => FlushIsSound(c, s, true);
    case Start =>
  }

  ghost predicate QueuedIsRight(c: Config, s: State, calls: seq<Call>, n: nat)
    requires n <= |calls|
  {
    AfterAll(c, s, calls[..n]).stats.queued == |AfterAll(c, s, calls[..n]).buffer|
  }

  ghost predicate StopsStale(c: Config, s: State, calls: seq<Call>, n: nat)
    requires n < |calls|
  {
    SpoolsUndrained(AfterAll(c, s, calls[..n]), calls[n])
  }

  lemma AfterOneMore(c: Config, s: State, calls: seq<Call>, n: nat)
    requires n < |calls|
    ensures AfterAll(c, s, calls[..n + 1]) == After(c, AfterAll(c, s, calls[..n]), calls[n])
  {
    assert calls[..n + 1][..n] == calls[..n];
  }

  /** Up to the first stop that spools without draining all is well, whatever the disk does. */
  lemma {:induction false} RunsAreSound(c: Config, s: State, calls: seq<Call>, n: nat)
    requires UpToDate(s) && n <= |calls| && forall k | 0 <= k < n :: !StopsStale(c, s, calls, k)
    ensures UpToDate(AfterAll(c, s, calls[..n])) && (Sound(s) ==> Sound(AfterAll(c, s, calls[..n])))
  {
    hide UpToDate, Sound, After, SpoolsUndrained;
    if n > 0 {
      RunsAreSound(c, s, calls, n - 1);
      AfterOneMore(c, s, calls, n - 1);
      assert !StopsStale(c, s, calls, n - 1);
      CallIsSound(c, AfterAll(c, s, calls[..n - 1]), calls[n - 1]);
    }
  }

  /** Over any sequence of operations and with any disk, `queued` is the length of the buffer after every
      one of them if and only if no stop spools without draining. */
  lemma QueuedIsRightExactlyIf(c: Config, s: State, calls: seq<Call>)
    requires UpToDate(s)
    ensures (forall n: nat | n <= |calls| :: QueuedIsRight(c, s, calls, n))
            <==> forall n: nat | n < |calls| :: !StopsStale(c, s, calls, n)
    ensures (forall n: nat | n < |calls| :: !StopsStale(c, s, calls, n)) ==> UpToDate(AfterAll(c, s, calls))
  {
    hide After, AfterAll, SpoolsUndrained;
    if forall n: nat | n < |calls| :: !StopsStale(c, s, calls, n) {
      forall n: nat | n <= |calls| ensures QueuedIsRight(c, s, calls, n) {
        RunsAreSound(c, s, calls, n);
      }
      RunsAreSound(c, s, calls, |calls|);
      assert calls[..|calls|] == calls;
    } else {
      var n := FirstStale(c, s, calls);
      RunsAreSound(c, s, calls, n);
      AfterOneMore(c, s, calls, n);
      CallIsSound(c, AfterAll(c, s, calls[..n]), calls[n]);
      assert !QueuedIsRight(c, s, calls, n + 1);
    }
  }

  lemma FirstStale(c: Config, s: State, calls: seq<Call>) returns (n: nat)
    requires exists k: nat :: k < |calls| && StopsStale(c, s, calls, k)
    ensures n < |calls| && StopsStale(c, s, calls, n) && forall k | 0 <= k < n :: !StopsStale(c, s, calls, k)
  {
    hide StopsStale;
    n := 0;
    while !StopsStale(c, s, calls, n)
      invariant n < |calls| && forall k | 0 <= k < n :: !StopsStale(c, s, calls, k)
      decreases |calls| - n
    {
      n := n + 1;
    }
  }

  /** Every stop in the sequence drains the buffer. */
  ghost predicate StopsDrain(calls: seq<Call>) {
    forall call | call in calls && call.Stop? :: call.drain
  }

  /** With a disk that takes every write, and draining stops, the shipper's own counters tell the
      whole story: what was submitted is queued, shipped live, spooled or dropped live, and what
      was ever in the spool is there still, was replayed, dropped on replay, evicted or
      quarantined. */
  lemma CountersTellAll(c: Config, s: State, calls: seq<Call>)
    requires Initial(s) && (forall t | t in s.turns :: t.writes) && StopsDrain(calls)
    ensures var t := AfterAll(c, s, calls);
            && |t.ledger.submitted|
               == t.stats.queued + (t.stats.shipped - t.stats.replayed) + t.stats.spooled + LiveDrops(t)
            && SpoolHonest(s, t)
            && t.stats.dropped == LiveDrops(t) + |t.ledger.replayDropped|
  {
    hide After, SpoolsUndrained;
    NothingGoesUncounted(c, s, calls);
    forall n: nat | n < |calls| ensures !StopsStale(c, s, calls, n) {
      DrainingStopsAreFine(AfterAll(c, s, calls[..n]), calls[n]);
    }
    RunsAreSound(c, s, calls, |calls|);
    assert calls[..|calls|] == calls;
  }

  lemma DrainingStopsAreFine(s: State, call: Call)
    ensures (call.Stop? ==> call.drain) ==> !SpoolsUndrained(s, call)
  {
  }

  /** A stop that does not drain leaves `queued` as it was: the counter is wrong afterwards exactly
      when there was something to spool. */
  lemma StopLeavesQueuedStale(c: Config, s: State, writes: bool)
    requires UpToDate(s)
    ensures var t := Stopped(c, s, false, writes);
            t.stats.queued == |t.buffer| <==> s.buffer == [] || s.spool.None?
  {
  }
}
