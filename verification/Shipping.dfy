/** What the shipper's operations do, as functions from state to state. One operation runs at a
    time here; module Delivery has the interleavings.

    The outside world is a list of turns, one for each HTTP attempt. */
module Shipping {
  import opened Measurements
  import opened Outcomes
  import opened RealProducts
  import opened SpoolQueue
  import opened Wrappers

  /** `answer` ends the attempt, `jitter` (0 to 1) scales the pause after it, and `writes` tells
      whether the disk takes a spool file should the batch be spooled. */
  datatype Turn = Turn(answer: Answer, jitter: real, writes: bool)

  const DEAD_TURN := Turn(NoAnswer, 0.0, true)

  datatype Config = Config(batchMaxSize: int, batchMaxSeconds: real, maxRetries: int,
                           retryInitialDelay: real, retryBackoff: real, maxBytes: int,
                           sizeOf: seq<Measurement> -> nat)

  /** The counters the shipper keeps. */
  datatype Stats = Stats(queued: nat, shipped: nat, batchesSent: nat, failedAttempts: nat,
                         spooled: nat, replayed: nat, dropped: nat)

  const ZERO_STATS := Stats(0, 0, 0, 0, 0, 0, 0)

  /** What the shipper does not keep: the measurements submitted, those the server rejected on the way
      from the buffer and on the way from the spool, those dropped for want of a spool, those a refused
      write lost, those that went with evicted and with quarantined files, those spooled by
      stop(drain=False). */
  datatype Ledger = Ledger(submitted: seq<Measurement>, rejected: seq<Measurement>, replayDropped: seq<Measurement>,
                           unspooled: seq<Measurement>, unwritten: seq<Measurement>, evicted: seq<Measurement>,
                           quarantined: seq<Measurement>, stopSpooled: seq<Measurement>)

  const ZERO_LEDGER := Ledger([], [], [], [], [], [], [], [])

  datatype Exchange = Exchange(batch: seq<Measurement>, answer: Answer)

  datatype State = State(buffer: seq<Measurement>, oldest: Option<real>, started: bool, stats: Stats,
                         spool: Option<Directory>, ledger: Ledger,
                         turns: seq<Turn>, log: seq<Exchange>, slept: real)

  const FLUSH_REPLAYS := 3
  const DRAIN_REPLAYS := 100

  function NextTurn(turns: seq<Turn>): Turn {
    if turns == [] then DEAD_TURN else turns[0]
  }

  function LaterTurns(turns: seq<Turn>): seq<Turn> {
    if turns == [] then [] else turns[1..]
  }

  /** The outcome of one attempt; without a client nothing is posted. */
  function OutcomeNow(s: State): Outcome {
    if s.started then OutcomeOf(NextTurn(s.turns).answer) else Retry
  }

  function Posted(s: State, batch: seq<Measurement>): State {
    s.(turns := LaterTurns(s.turns),
       log := if s.started then s.log + [Exchange(batch, NextTurn(s.turns).answer)] else s.log)
  }

  function Attempts(c: Config): nat
    ensures Attempts(c) >= 1
  {
    if c.maxRetries < 1 then 1 else c.maxRetries
  }

  /** The longest pause after the given failed attempt. */
  function Delay(c: Config, attempt: nat): real
    requires attempt >= 1
  {
    if attempt == 1 then (if c.retryInitialDelay < 0.0 then 0.0 else c.retryInitialDelay)
    else Times(Delay(c, attempt - 1), c.retryBackoff)
  }

  function EvictedItems(q: Queue, file: SpoolFile, maxBytes: int): seq<Measurement> {
    Items(Evicted(q + [file], maxBytes))
  }

  /** spool.append, with its consequences for the ledger. */
  function Stored(c: Config, s: State, batch: seq<Measurement>, writes: bool): State
    requires s.spool.Some?
  {
    var d := s.spool.value;
    var file := SpoolFile(d.clock + 1, batch, true, c.sizeOf(batch));
    s.(spool := Some(Perform(d, Append(batch, writes, c.sizeOf(batch)), c.maxBytes)),
       ledger := if batch == [] then s.ledger
                 else if !writes then s.ledger.(unwritten := s.ledger.unwritten + batch)
                 else s.ledger.(evicted := s.ledger.evicted + EvictedItems(d.files, file, c.maxBytes)))
  }

  /** _spool: without a spool the batch is dropped; a refused write is counted as spooled. */
  function Spooled(c: Config, s: State, batch: seq<Measurement>, writes: bool): State {
    if s.spool.None? then CountUnspooled(s, batch)
    else
      Stored(c, s, batch, writes).(stats := s.stats.(spooled := s.stats.spooled + |batch|))
  }

  function CountShipped(s: State, n: nat): State {
    s.(stats := s.stats.(shipped := s.stats.shipped + n, batchesSent := s.stats.batchesSent + 1))
  }

  function CountFailure(s: State): State {
    s.(stats := s.stats.(failedAttempts := s.stats.failedAttempts + 1))
  }

  function CountRejected(s: State, batch: seq<Measurement>): State {
    s.(stats := s.stats.(dropped := s.stats.dropped + |batch|),
       ledger := s.ledger.(rejected := s.ledger.rejected + batch))
  }

  function CountUnspooled(s: State, batch: seq<Measurement>): State {
    s.(stats := s.stats.(dropped := s.stats.dropped + |batch|),
       ledger := s.ledger.(unspooled := s.ledger.unspooled + batch))
  }

  function Paused(s: State, pause: real): State {
    s.(slept := s.slept + pause)
  }

  /** One attempt to send a batch, counted. */
  function Tried(s: State, batch: seq<Measurement>): State {
    var s1 := Posted(s, batch);
    match OutcomeNow(s)
    case Shipped => CountShipped(s1, |batch|)
    case Poison => CountRejected(CountFailure(s1), batch)
    case Retry => CountFailure(s1)
  }

  /** _send_with_retries, from the given attempt on. */
  function Sent(c: Config, s: State, batch: seq<Measurement>, attempt: nat): State
    requires 1 <= attempt <= Attempts(c)
    decreases Attempts(c) - attempt
  {
    var s1 := Tried(s, batch);
    if OutcomeNow(s) != Retry then s1
    else if attempt < Attempts(c) then
      Sent(c, Paused(s1, Times(NextTurn(s.turns).jitter, Delay(c, attempt))), batch, attempt + 1)
    else Spooled(c, s1, batch, NextTurn(s.turns).writes)
  }

  /** The server takes the batch on this attempt or a later one. */
  predicate Accepted(c: Config, s: State, batch: seq<Measurement>, attempt: nat)
    requires 1 <= attempt <= Attempts(c)
    decreases Attempts(c) - attempt
  {
    OutcomeNow(s) == Shipped
    || (OutcomeNow(s) == Retry && attempt < Attempts(c) && Accepted(c, Posted(s, batch), batch, attempt + 1))
  }

  /** Acceptance depends on the server's turns, not on the counters. */
  lemma {:induction false} AcceptedNeedsTurnsOnly(c: Config, s: State, t: State, batch: seq<Measurement>, a: nat)
    requires 1 <= a <= Attempts(c)
    requires s.started == t.started && s.turns == t.turns
    ensures Accepted(c, s, batch, a) == Accepted(c, t, batch, a)
    decreases Attempts(c) - a
  {
    if a < Attempts(c) {
      AcceptedNeedsTurnsOnly(c, Posted(s, batch), Posted(t, batch), batch, a + 1);
    }
  }

  /** peek_oldest. */
  function Looked(s: State): State
    requires s.spool.Some?
  {
    var q := s.spool.value.files;
    s.(spool := Some(s.spool.value.(files := Peeked(q))),
       ledger := s.ledger.(quarantined := s.ledger.quarantined + Items(Skipped(q))))
  }

  /** The oldest file, once the server has taken it or refused it for good. */
  function Settled(s: State, outcome: Outcome): State
    requires s.spool.Some? && s.spool.value.files != [] && outcome != Retry
  {
    var file := s.spool.value.files[0];
    var s1 := s.(spool := Some(s.spool.value.(files := Removed(s.spool.value.files, file.name))));
    if outcome == Shipped then
      s1.(stats := s.stats.(replayed := s.stats.replayed + |file.batch|, shipped := s.stats.shipped + |file.batch|))
    else
      s1.(stats := s.stats.(dropped := s.stats.dropped + |file.batch|),
          ledger := s.ledger.(replayDropped := s.ledger.replayDropped + file.batch))
  }

  /** replay_spool: the new state and the number of files the server took. */
  function Replayed(s: State, maxFiles: nat): (State, nat)
    decreases maxFiles
  {
    if maxFiles == 0 || s.spool.None? || !s.started then (s, 0)
    else
      var s1 := Looked(s);
      if s1.spool.value.files == [] then (s1, 0)
      else
        var outcome, s2 := OutcomeNow(s1), Posted(s1, s1.spool.value.files[0].batch);
        if outcome == Retry then (s2, 0)
        else
          var (s3, n) := Replayed(Settled(s2, outcome), maxFiles - 1);
          (s3, n + if outcome == Shipped then 1 else 0)
  }

  function Taken(s: State): State {
    s.(buffer := [], oldest := None, stats := s.stats.(queued := 0))
  }

  /** flush: the new state and the result. */
  function Flushed(c: Config, s: State, force: bool): (State, bool) {
    if s.buffer == [] then (s, true)
    else
      var s1 := Sent(c, Taken(s), s.buffer, 1);
      if Accepted(c, Taken(s), s.buffer, 1)
      then (Replayed(s1, if force then DRAIN_REPLAYS else FLUSH_REPLAYS).0, true)
      else (s1, false)
  }

  function Queued(s: State, items: seq<Measurement>, now: real): State {
    s.(buffer := s.buffer + items,
       oldest := if s.oldest == None then Some(now) else s.oldest,
       stats := s.stats.(queued := |s.buffer| + |items|),
       ledger := s.ledger.(submitted := s.ledger.submitted + items))
  }

  function Submitted(c: Config, s: State, items: seq<Measurement>, now: real): State {
    if items == [] then s
    else
      var s1 := Queued(s, items, now);
      if |s1.buffer| >= c.batchMaxSize then Flushed(c, s1, false).0 else s1
  }

  /** The oldest queued measurement has waited long enough. A stamp of zero reads as no stamp. */
  predicate Due(c: Config, s: State, now: real) {
    var age := if s.oldest.Some? && s.oldest.value != 0.0 then now - s.oldest.value else 0.0;
    s.buffer != [] && age >= c.batchMaxSeconds
  }

  /** One turn of the flush loop. */
  function Ticked(c: Config, s: State, now: real): State {
    if Due(c, s, now) then Flushed(c, s, false).0 else Replayed(s, 1).0
  }

  /** What stop does with the buffer, the loop being gone. Without draining, the batch goes to the
      spool uncounted, `queued` keeps its value, and a refused write is not noticed. */
  function Stopped(c: Config, s: State, drain: bool, writes: bool): State {
    var s1 :=
      if drain then Flushed(c, s, true).0
      else if s.buffer != [] && s.spool.Some? then
        Stored(c, s, s.buffer, writes)
        .(buffer := [],
          ledger := Stored(c, s, s.buffer, writes).ledger.(stopSpooled := s.ledger.stopSpooled + s.buffer))
      else s;
    s1.(started := false)
  }
}
