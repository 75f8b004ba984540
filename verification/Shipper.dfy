/** The shipper as it runs: a buffer, counters, a connection and a spool, changed in place. */
module Shipper {
  import opened FlushLaws
  import opened Measurements
  import opened Outcomes
  import opened RealProducts
  import opened Shipping
  import opened SpoolDirectory
  import opened Wrappers

  /** The server and the network in between, scripted; also the clock that sleeps pass on. */
  class Network {
    var turns: seq<Turn>
    var log: seq<Exchange>
    var slept: real

    constructor (turns: seq<Turn>)
      ensures this.turns == turns && log == [] && slept == 0.0
    {
      this.turns, log, slept := turns, [], 0.0;
    }

    /** One POST, or none when the caller has no client. */
    method Attempt(started: bool, batch: seq<Measurement>) returns (outcome: Outcome, turn: Turn)
      modifies `turns, `log
      ensures turn == NextTurn(old(turns)) && turns == LaterTurns(old(turns))
      ensures log == if started then old(log) + [Exchange(batch, turn.answer)] else old(log)
      ensures outcome == if started then OutcomeOf(turn.answer) else Retry
    {
      turn := NextTurn(turns);
      turns := LaterTurns(turns);
      if !started {
        return Retry, turn;
      }
      log := log + [Exchange(batch, turn.answer)];
      outcome := OutcomeOf(turn.answer);
    }

    method Sleep(pause: real)
      modifies `slept
      ensures slept == old(slept) + pause
    {
      slept := slept + pause;
    }
  }

  class Shipper {
    const config: Config
    const net: Network
    const spool: Spool?
    var started: bool
    var buffer: seq<Measurement>
    var oldest: Option<real>
    var queued: nat
    var shipped: nat
    var batchesSent: nat
    var failedAttempts: nat
    var spooled: nat
    var replayed: nat
    var dropped: nat
    ghost var ledger: Ledger

    ghost predicate Valid()
      reads this, net, spool
    {
      spool != null ==> spool.Valid() && spool.maxBytes == config.maxBytes
    }

    ghost function Counters(): Stats
      reads this
    {
      Stats(queued, shipped, batchesSent, failedAttempts, spooled, replayed, dropped)
    }

    ghost function View(): State
      reads this, net, spool
    {
      State(buffer, oldest, started, Counters(),
            if spool == null then None else Some(SpoolQueue.Directory(spool.Queue(), spool.clock)),
            ledger, net.turns, net.log, net.slept)
    }

    constructor (config: Config, net: Network, spool: Spool?)
      requires spool != null ==> spool.Valid() && spool.maxBytes == config.maxBytes
      ensures this.config == config && this.net == net && this.spool == spool
      ensures Valid() && buffer == [] && oldest == None && started
      ensures Counters() == ZERO_STATS && ledger == ZERO_LEDGER
      ensures queued == shipped == batchesSent == failedAttempts == spooled == replayed == dropped == 0
    {
      this.config, this.net, this.spool, started, buffer, oldest := config, net, spool, true, [], None;
      queued, shipped, batchesSent, failedAttempts, spooled, replayed, dropped := 0, 0, 0, 0, 0, 0, 0;
      ledger := ZERO_LEDGER;
    }

    method Submit(items: seq<Measurement>, now: real)
      requires Valid()
      modifies this, net, spool
      ensures Valid() && View() == Submitted(config, old(View()), items, now)
      ensures items != [] && |old(buffer)| + |items| >= config.batchMaxSize ==>
                GoesOut(config, old(View()), old(buffer) + items, View(), 3)
      ensures items != [] && |old(buffer)| + |items| < config.batchMaxSize ==>
                && buffer == old(buffer) + items && net.log == old(net.log) && queued == |buffer|
                && oldest == if old(oldest) == None then Some(now) else old(oldest)
    {
      SubmittingFillsOrSends(config, View(), items, now);
      if items == [] {
        return;
      }
      if oldest == None {
        oldest := Some(now);
      }
      buffer := buffer + items;
      queued := |buffer|;
      ledger := ledger.(submitted := ledger.submitted + items);
      if |buffer| >= config.batchMaxSize {
        var accepted := Flush(false);
      }
    }

    method FlushLoopTick(now: real)
      requires Valid()
      modifies this, net, spool
      ensures Valid() && View() == Ticked(config, old(View()), now)
      ensures old(buffer) != [] && old(oldest).Some? && old(oldest).value != 0.0
              && now - old(oldest).value >= config.batchMaxSeconds ==>
                GoesOut(config, old(View()), old(buffer), View(), 3)
      ensures old(buffer) == []
              || (old(oldest).Some? && old(oldest).value != 0.0 && now - old(oldest).value < config.batchMaxSeconds)
              || ((old(oldest) == None || old(oldest) == Some(0.0)) && config.batchMaxSeconds > 0.0) ==>
                Waits(old(View()), View())
    {
      TickByAge(config, View(), now);
      if oldest == None || oldest == Some(0.0) {
        TickWithoutStamp(config, View(), now);
      }
      var age := if oldest.Some? && oldest.value != 0.0 then now - oldest.value else 0.0;
      if buffer != [] && age >= config.batchMaxSeconds {
        var accepted := Flush(false);
      } else {
        var n := ReplaySpool(1);
      }
    }

    method Flush(force: bool) returns (accepted: bool)
      requires Valid()
      modifies this, net, spool
      ensures Valid() && (View(), accepted) == Flushed(config, old(View()), force)
      ensures old(buffer) != [] ==> GoesOut(config, old(View()), old(buffer), View(), if force then 100 else 3)
    {
      if buffer != [] {
        FlushGoesOut(config, View(), force);
      }
      if buffer == [] {
        return true;
      }
      var batch := buffer;
      buffer, oldest, queued := [], None, 0;
      accepted := SendWithRetries(batch);
      if accepted {
        var n := ReplaySpool(if force then DRAIN_REPLAYS else FLUSH_REPLAYS);
      }
    }

    method SendWithRetries(batch: seq<Measurement>) returns (accepted: bool)
      requires Valid()
      modifies this, net, spool
      ensures Valid() && View() == Sent(config, old(View()), batch, 1)
      ensures accepted == Accepted(config, old(View()), batch, 1)
    {
      hide Sent, Accepted, Tried, Spooled;
      var attempts := if config.maxRetries < 1 then 1 else config.maxRetries;
      var delay := if config.retryInitialDelay < 0.0 then 0.0 else config.retryInitialDelay;
      var attempt := 1;
      ghost var result := (Sent(config, View(), batch, 1), Accepted(config, View(), batch, 1));
      while true
        invariant 1 <= attempt <= attempts == Attempts(config)
        invariant Valid()
        invariant delay == Delay(config, attempt)
        invariant LoopsTo(config, View(), batch, attempt, result.0, result.1)
        decreases attempts - attempt
      {
        ghost var before := View();
        LoopEnds(config, before, batch, attempt, result.0, result.1);
        var outcome, turn := TryOnce(batch);
        if outcome == Shipped {
          return true;
        }
        if outcome == Poison {
          return false;
        }
        if attempt == attempts {
          SpoolBatch(batch, turn.writes);
          return false;
        }
        var pause := Times(turn.jitter, delay);
        net.Sleep(pause);
        assert View() == Paused(Tried(before, batch), pause);
        LoopGoesOn(config, before, batch, attempt, result.0, result.1, pause);
        delay := Times(delay, config.retryBackoff);
        attempt := attempt + 1;
      }
    }

    /** One pass through the body of the retry loop, up to the decision to go on. */
    method TryOnce(batch: seq<Measurement>) returns (outcome: Outcome, turn: Turn)
      requires Valid()
      modifies this, net
      ensures Valid() && View() == Tried(old(View()), batch)
      ensures outcome == OutcomeNow(old(View())) && turn == NextTurn(old(net.turns))
    {
      outcome, turn := SendOnce(batch);
      if outcome == Shipped {
        shipped := shipped + |batch|;
        batchesSent := batchesSent + 1;
        return;
      }
      failedAttempts := failedAttempts + 1;
      if outcome == Poison {
        dropped := dropped + |batch|;
        ledger := ledger.(rejected := ledger.rejected + batch);
      }
    }

    method SendOnce(batch: seq<Measurement>) returns (outcome: Outcome, turn: Turn)
      requires Valid()
      modifies net
      ensures Valid() && View() == Posted(old(View()), batch)
      ensures outcome == OutcomeNow(old(View())) && turn == NextTurn(old(net.turns))
      ensures net.log == if started then old(net.log) + [Exchange(batch, turn.answer)] else old(net.log)
      ensures outcome == Shipped <==> started && turn.answer.Status? && 200 <= turn.answer.code <= 299
      ensures outcome == Poison <==> started && turn.answer.Status? && turn.answer.code in {400, 404, 413, 422}
    {
      OutcomesByStatus(NextTurn(net.turns).answer);
      outcome, turn := net.Attempt(started, batch);
    }

    method SpoolBatch(batch: seq<Measurement>, writes: bool)
      requires Valid()
      modifies this, spool
      ensures Valid() && View() == Spooled(config, old(View()), batch, writes)
    {
      if spool == null {
        dropped := dropped + |batch|;
        ledger := ledger.(unspooled := ledger.unspooled + batch);
        return;
      }
      ghost var after := Stored(config, View(), batch, writes);
      var name := spool.Append(batch, writes, config.sizeOf(batch));
      ledger := after.ledger;
      spooled := spooled + |batch|;
    }

    method ReplaySpool(maxFiles: nat) returns (n: nat)
      requires Valid()
      modifies this, net, spool
      ensures Valid() && (View(), n) == Shipping.Replayed(old(View()), maxFiles)
      ensures RequestsFiles(old(View()), View(), maxFiles)
    {
      ReplayRequestsFiles(View(), maxFiles);
      hide Shipping.Replayed, Looked, Settled, Posted, ReplaysTo;
      n := 0;
      ghost var all := Shipping.Replayed(View(), maxFiles);
      ReplayStarts(View(), maxFiles);
      if spool == null || !started {
        return;
      }
      var left := maxFiles;
      while left > 0
        invariant Valid() && started
        invariant ReplaysTo(View(), left, n, all)
      {
        ReplayStep(View(), left, n, all);
        var entry := TakeOldest();
        if entry.None? {
          return;
        }
        var (name, batch) := entry.value;
        var outcome, turn := SendOnce(batch);
        if outcome == Retry {
          return;
        }
        SettleOldest(name, batch, outcome);
        if outcome == Shipped {
          n := n + 1;
        }
        left := left - 1;
      }
      ReplayStops(View(), n, all);
    }

    method TakeOldest() returns (entry: Option<(nat, seq<Measurement>)>)
      requires Valid() && spool != null
      modifies `ledger, spool
      ensures Valid() && View() == Looked(old(View()))
      ensures entry == SpoolQueue.Head(spool.Queue())
    {
      ledger := Looked(View()).ledger;
      entry := spool.PeekOldest();
    }

    method SettleOldest(name: nat, batch: seq<Measurement>, outcome: Outcome)
      requires Valid() && spool != null && outcome != Retry
      requires SpoolQueue.Head(spool.Queue()) == Some((name, batch))
      modifies this, spool
      ensures Valid() && View() == Settled(old(View()), outcome) && started == old(started)
    {
      spool.Remove(name);
      if outcome == Shipped {
        replayed := replayed + |batch|;
        shipped := shipped + |batch|;
      } else {
        dropped := dropped + |batch|;
        ledger := ledger.(replayDropped := ledger.replayDropped + batch);
      }
    }

    method Stop(drain: bool, writes: bool)
      requires Valid()
      modifies this, net, spool
      ensures Valid() && View() == Stopped(config, old(View()), drain, writes)
      ensures !started && (old(buffer) != [] && (drain || spool != null) ==> buffer == [])
      ensures !drain ==> net.log == old(net.log)
    {
      StoppingSendsOrSpools(config, View(), drain, writes);
      if drain {
        var accepted := Flush(true);
      } else if buffer != [] && spool != null {
        ghost var after := Stored(config, View(), buffer, writes);
        var name := spool.Append(buffer, writes, config.sizeOf(buffer));
        ledger := after.ledger.(stopSpooled := ledger.stopSpooled + buffer);
        buffer := [];
      }
      started := false;
    }
  }

  /** The rest of the replay, added to what it has taken so far. */
  ghost predicate ReplaysTo(s: State, left: nat, n: nat, all: (State, nat)) {
    var (after, more) := Replayed(s, left);
    all == (after, n + more)
  }

  lemma ReplayStarts(s: State, maxFiles: nat)
    ensures ReplaysTo(s, maxFiles, 0, Replayed(s, maxFiles))
    ensures s.spool.None? || !s.started ==> Replayed(s, maxFiles) == (s, 0)
  {
  }

  lemma ReplayStops(s: State, n: nat, all: (State, nat))
    requires ReplaysTo(s, 0, n, all)
    ensures all == (s, n)
  {
  }

  /** One round of the replay, told on the result. */
  lemma ReplayStep(s: State, left: nat, n: nat, all: (State, nat))
    requires left > 0 && s.spool.Some? && s.started && ReplaysTo(s, left, n, all)
    ensures var s1 := Looked(s);
            if s1.spool.value.files == [] then all == (s1, n)
            else
              var outcome, s2 := OutcomeNow(s1), Posted(s1, s1.spool.value.files[0].batch);
              if outcome == Retry then all == (s2, n)
              else ReplaysTo(Settled(s2, outcome), left - 1, n + (if outcome == Shipped then 1 else 0), all)
  {
  }

  /** One attempt of the retry loop, told on the result: unless the loop goes on, the rest of it
      is what is done with the batch now. */
  ghost predicate LoopsTo(c: Config, s: State, batch: seq<Measurement>, attempt: nat, after: State, accepted: bool)
    requires 1 <= attempt <= Attempts(c)
  {
    Sent(c, s, batch, attempt) == after && Accepted(c, s, batch, attempt) == accepted
  }

  lemma LoopEnds(c: Config, s: State, batch: seq<Measurement>, attempt: nat, after: State, accepted: bool)
    requires 1 <= attempt <= Attempts(c) && LoopsTo(c, s, batch, attempt, after, accepted)
    ensures OutcomeNow(s) != Retry ==> after == Tried(s, batch) && accepted == (OutcomeNow(s) == Shipped)
    ensures OutcomeNow(s) == Retry && attempt == Attempts(c) ==>
              !accepted && after == Spooled(c, Tried(s, batch), batch, NextTurn(s.turns).writes)
  {
  }

  lemma LoopGoesOn(c: Config, s: State, batch: seq<Measurement>, attempt: nat, after: State, accepted: bool,
                   pause: real)
    requires 1 <= attempt < Attempts(c) && LoopsTo(c, s, batch, attempt, after, accepted)
    requires OutcomeNow(s) == Retry && pause == Times(NextTurn(s.turns).jitter, Delay(c, attempt))
    ensures LoopsTo(c, Paused(Tried(s, batch), pause), batch, attempt + 1, after, accepted)
  {
    AcceptedNeedsTurnsOnly(c, Posted(s, batch), Paused(Tried(s, batch), pause), batch, attempt + 1);
  }
}
