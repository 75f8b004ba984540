/** The retry loop ends, in one of three ways, after boundedly many attempts and pauses. */
module RetryLaws {
  import opened Measurements
  import opened Outcomes
  import opened RealProducts
  import opened Shipping
  import opened SpoolQueue
  import opened Wrappers

  function TurnAt(turns: seq<Turn>, i: nat): Turn {
    if i < |turns| then turns[i] else DEAD_TURN
  }

  /** The outcome of the attempt made after `i` others. */
  function OutcomeAt(started: bool, turns: seq<Turn>, i: nat): Outcome {
    if started then OutcomeOf(TurnAt(turns, i).answer) else Retry
  }

  /** The number of attempts that end in "try again" before one that does not, up to `n`. */
  function Refusals(started: bool, turns: seq<Turn>, n: nat): (k: nat)
    ensures k <= n
    ensures forall i | 0 <= i < k :: OutcomeAt(started, turns, i) == Retry
    ensures k < n ==> OutcomeAt(started, turns, k) != Retry
  {
    if n == 0 || OutcomeAt(started, turns, 0) != Retry then 0
    else
      var k := Refusals(started, LaterTurns(turns), n - 1);
      assert forall i :: 0 < i ==> OutcomeAt(started, turns, i) == OutcomeAt(started, LaterTurns(turns), i - 1);
      k + 1
  }

  function TurnsAfter(turns: seq<Turn>, k: nat): seq<Turn> {
    if k <= |turns| then turns[k..] else []
  }

  function Exchanges(turns: seq<Turn>, batch: seq<Measurement>, k: nat): seq<Exchange> {
    seq(k, i requires 0 <= i < k => Exchange(batch, TurnAt(turns, i).answer))
  }

  /** The pauses after the attempts numbered a, a + 1, ..., a + k - 1. */
  function Pauses(c: Config, turns: seq<Turn>, a: nat, k: nat): real
    requires a >= 1
    decreases k
  {
    if k == 0 then 0.0
    else Times(TurnAt(turns, 0).jitter, Delay(c, a)) + Pauses(c, LaterTurns(turns), a + 1, k - 1)
  }

  /** The state after k attempts, all to be retried, the first being number a. */
  function AfterRefusals(c: Config, s: State, batch: seq<Measurement>, a: nat, k: nat): State
    requires a >= 1
  {
    s.(stats := s.stats.(failedAttempts := s.stats.failedAttempts + k),
       turns := TurnsAfter(s.turns, k),
       log := if s.started then s.log + Exchanges(s.turns, batch, k) else s.log,
       slept := s.slept + Pauses(c, s.turns, a, k))
  }

  lemma RefusalsPileUp(c: Config, s: State, batch: seq<Measurement>, a: nat, k: nat)
    requires a >= 1 && Tried(s, batch) == CountFailure(Posted(s, batch))
    ensures AfterRefusals(c, Paused(Tried(s, batch), Times(NextTurn(s.turns).jitter, Delay(c, a))), batch, a + 1, k)
            == AfterRefusals(c, s, batch, a, k + 1)
  {
    hide Times, Delay, OutcomeAt, OutcomeNow;
    var s1 := Paused(Tried(s, batch), Times(NextTurn(s.turns).jitter, Delay(c, a)));
    assert TurnsAfter(s1.turns, k) == TurnsAfter(s.turns, k + 1);
    assert forall i: nat :: TurnAt(s1.turns, i) == TurnAt(s.turns, i + 1);
    assert s.log + [Exchange(batch, TurnAt(s.turns, 0).answer)] + Exchanges(s1.turns, batch, k)
        == s.log + Exchanges(s.turns, batch, k + 1);
  }

  ghost predicate Resolved(c: Config, s: State, batch: seq<Measurement>, a: nat)
    requires 1 <= a <= Attempts(c)
  {
    var n := Attempts(c) + 1 - a;
    var k := Refusals(s.started, s.turns, n);
    && Sent(c, s, batch, a)
       == (if k < n then Tried(AfterRefusals(c, s, batch, a, k), batch)
           else
             var u := AfterRefusals(c, s, batch, a, n - 1);
             Spooled(c, CountFailure(Posted(u, batch)), batch, NextTurn(u.turns).writes))
    && Accepted(c, s, batch, a) == (k < n && OutcomeAt(s.started, s.turns, k) == Shipped)
  }

  /** The loop is resolved by the first of at most n attempts whose outcome is not to be retried:
      a shipment or a rejection. When there is none, the batch goes to the spool. */
  lemma {:induction false} LoopResolves(c: Config, s: State, batch: seq<Measurement>, a: nat)
    requires 1 <= a <= Attempts(c)
    ensures Resolved(c, s, batch, a)
    decreases Attempts(c) - a, 1
  {
    hide Spooled, Perform;
    if OutcomeNow(s) == Retry && a < Attempts(c) {
      LoopResolvesLater(c, s, batch, a);
    } else {
      assert AfterRefusals(c, s, batch, a, 0) == s by {
        assert s.log + Exchanges(s.turns, batch, 0) == s.log;
      }
    }
  }

  lemma {:induction false} LoopResolvesLater(c: Config, s: State, batch: seq<Measurement>, a: nat)
    requires 1 <= a < Attempts(c) && OutcomeNow(s) == Retry
    ensures Resolved(c, s, batch, a)
    decreases Attempts(c) - a, 0
  {
    hide Spooled, Perform, AfterRefusals, Tried, Times, Paused, Posted, OutcomeAt, TurnAt, Delay, Sent, Accepted,
         Refusals, CountFailure, OutcomeNow, NextTurn;
    var n := Attempts(c) + 1 - a;
    var s1 := Paused(Tried(s, batch), Times(NextTurn(s.turns).jitter, Delay(c, a)));
    RetryGoesOn(c, s, batch, a);
    LoopResolves(c, s1, batch, a + 1);
    var k1 := Refusals(s1.started, s1.turns, n - 1);
    RefusalsPileUp(c, s, batch, a, k1);
    RefusalsPileUp(c, s, batch, a, n - 2);
    OutcomeLater(s.started, s.turns, k1);
  }

  /** After an attempt to be retried the loop is that of the next attempt, with one refusal less. */
  lemma RetryGoesOn(c: Config, s: State, batch: seq<Measurement>, a: nat)
    requires 1 <= a < Attempts(c) && OutcomeNow(s) == Retry
    ensures var s1 := Paused(Tried(s, batch), Times(NextTurn(s.turns).jitter, Delay(c, a)));
            && s1.started == s.started && s1.turns == LaterTurns(s.turns)
            && Sent(c, s, batch, a) == Sent(c, s1, batch, a + 1)
            && Accepted(c, s, batch, a) == Accepted(c, s1, batch, a + 1)
            && Tried(s, batch) == CountFailure(Posted(s, batch))
            && (forall n: nat | n > 0 ::
                  Refusals(s.started, s.turns, n) == Refusals(s1.started, s1.turns, n - 1) + 1)
  {
    hide Times, Delay, Spooled;
    var s1 := Paused(Tried(s, batch), Times(NextTurn(s.turns).jitter, Delay(c, a)));
    AcceptedNeedsTurnsOnly(c, Posted(s, batch), s1, batch, a + 1);
    assert OutcomeAt(s.started, s.turns, 0) == Retry;
  }

  lemma OutcomeLater(started: bool, turns: seq<Turn>, i: nat)
    ensures OutcomeAt(started, LaterTurns(turns), i) == OutcomeAt(started, turns, i + 1)
  {
  }

  function AttemptsMade(c: Config, s: State): nat {
    var n := Attempts(c);
    var k := Refusals(s.started, s.turns, n);
    if k < n then k + 1 else n
  }

  /** The last attempt leaves turns, log, pauses and buffer as the post leaves them. */
  lemma LoopEndsInAPost(c: Config, s: State, batch: seq<Measurement>)
    ensures var t, made := Sent(c, s, batch, 1), AttemptsMade(c, s);
            var p := Posted(AfterRefusals(c, s, batch, 1, made - 1), batch);
            t == p.(stats := t.stats, spool := t.spool, ledger := t.ledger)
  {
    hide Refusals, AfterRefusals, Posted, Perform, Accepted, OutcomeAt, OutcomeNow, EvictedItems;
    LoopResolves(c, s, batch, 1);
  }

  /** The posts are the batch itself, once for each attempt made. */
  lemma AttemptsAreLogged(c: Config, s: State, batch: seq<Measurement>)
    ensures var t, made := Sent(c, s, batch, 1), AttemptsMade(c, s);
            && 1 <= made <= (if c.maxRetries > 1 then c.maxRetries else 1)
            && t.log == (if s.started then s.log + Exchanges(s.turns, batch, made) else s.log)
            && t.turns == TurnsAfter(s.turns, made)
            && t.slept == s.slept + Pauses(c, s.turns, 1, made - 1)
            && t.buffer == s.buffer && t.oldest == s.oldest && t.started == s.started
            && (s.started ==> |t.log| == |s.log| + made
                              && forall i | |s.log| <= i < |t.log| :: t.log[i].batch == batch)
  {
    hide Sent, Refusals, Pauses, AfterRefusals, Posted;
    LoopEndsInAPost(c, s, batch);
    PostAfterRefusals(c, s, batch, AttemptsMade(c, s) - 1);
  }

  lemma PostAfterRefusals(c: Config, s: State, batch: seq<Measurement>, k: nat)
    ensures var p := Posted(AfterRefusals(c, s, batch, 1, k), batch);
            && p.log == (if s.started then s.log + Exchanges(s.turns, batch, k + 1) else s.log)
            && p.turns == TurnsAfter(s.turns, k + 1)
            && p.slept == s.slept + Pauses(c, s.turns, 1, k)
            && p.buffer == s.buffer && p.oldest == s.oldest && p.started == s.started
  {
    hide Pauses, Delay;
    var u := AfterRefusals(c, s, batch, 1, k);
    assert NextTurn(u.turns) == TurnAt(s.turns, k);
    assert LaterTurns(u.turns) == TurnsAfter(s.turns, k + 1);
    assert s.log + Exchanges(s.turns, batch, k) + [Exchange(batch, TurnAt(s.turns, k).answer)]
        == s.log + Exchanges(s.turns, batch, k + 1);
  }

  /** The batch is with the server, after k failures. */
  ghost predicate EndsShipped(s: State, t: State, batch: seq<Measurement>, k: nat) {
    && t.spool == s.spool && t.ledger == s.ledger
    && t.stats == s.stats.(failedAttempts := s.stats.failedAttempts + k, shipped := s.stats.shipped + |batch|,
                           batchesSent := s.stats.batchesSent + 1)
  }

  /** The batch is dropped for good because the server rejected it, after k other failures. */
  ghost predicate EndsRejected(s: State, t: State, batch: seq<Measurement>, k: nat) {
    && t.spool == s.spool && t.ledger == s.ledger.(rejected := s.ledger.rejected + batch)
    && t.stats == s.stats.(failedAttempts := s.stats.failedAttempts + k + 1, dropped := s.stats.dropped + |batch|)
  }

  /** All n attempts having failed, the batch is handed to the spool, written or not. */
  ghost predicate EndsSpooled(c: Config, s: State, t: State, batch: seq<Measurement>, writes: bool, n: nat)
    requires s.spool.Some?
  {
    && t.spool == Some(Perform(s.spool.value, Append(batch, writes, c.sizeOf(batch)), c.maxBytes))
    && t.ledger == Stored(c, s, batch, writes).ledger
    && t.stats == s.stats.(failedAttempts := s.stats.failedAttempts + n, spooled := s.stats.spooled + |batch|)
  }

  /** Or there is no spool, and it is dropped. */
  ghost predicate EndsUnspooled(s: State, t: State, batch: seq<Measurement>, n: nat) {
    && t.spool == None && t.ledger == s.ledger.(unspooled := s.ledger.unspooled + batch)
    && t.stats == s.stats.(failedAttempts := s.stats.failedAttempts + n, dropped := s.stats.dropped + |batch|)
  }

  /** Every batch ends in exactly one of these ways, after at most max(1, max_retries) attempts. */
  lemma EveryBatchIsResolved(c: Config, s: State, batch: seq<Measurement>)
    ensures var t, n := Sent(c, s, batch, 1), if c.maxRetries > 1 then c.maxRetries else 1;
            var k := Refusals(s.started, s.turns, n);
            if k == n then
              !Accepted(c, s, batch, 1)
              && if s.spool.Some? then EndsSpooled(c, s, t, batch, TurnAt(s.turns, n - 1).writes, n)
                 else EndsUnspooled(s, t, batch, n)
            else if OutcomeAt(s.started, s.turns, k) == Shipped then
              Accepted(c, s, batch, 1) && EndsShipped(s, t, batch, k)
            else
              !Accepted(c, s, batch, 1) && EndsRejected(s, t, batch, k)
  {
    hide Refusals, Accepted, AfterRefusals, Sent, TurnAt, OutcomeAt, OutcomeNow, NextTurn, Tried, Posted,
         Spooled, CountFailure, EndsShipped, EndsRejected, EndsSpooled, EndsUnspooled;
    LoopResolves(c, s, batch, 1);
    var n, k := Attempts(c), Refusals(s.started, s.turns, Attempts(c));
    var last := AttemptsMade(c, s) - 1;
    RefusedState(c, s, batch, last);
    if k == n {
      FailedForGood(c, s, batch, last);
    } else {
      Decided(c, s, batch, k);
    }
  }

  lemma Decided(c: Config, s: State, batch: seq<Measurement>, k: nat)
    ensures var u := AfterRefusals(c, s, batch, 1, k);
            && (OutcomeNow(u) == Shipped ==> EndsShipped(s, Tried(u, batch), batch, k))
            && (OutcomeNow(u) == Poison ==> EndsRejected(s, Tried(u, batch), batch, k))
  {
    hide OutcomeNow, Pauses, Exchanges;
  }

  lemma FailedForGood(c: Config, s: State, batch: seq<Measurement>, k: nat)
    ensures var u, writes := AfterRefusals(c, s, batch, 1, k), TurnAt(s.turns, k).writes;
            var t := Spooled(c, CountFailure(Posted(u, batch)), batch, writes);
            if s.spool.Some? then EndsSpooled(c, s, t, batch, writes, k + 1) else EndsUnspooled(s, t, batch, k + 1)
  {
    hide Pauses, Exchanges, Perform, Evicted, TurnAt, Items;
  }

  /** What failed attempts leave as it was, and what comes next. */
  lemma RefusedState(c: Config, s: State, batch: seq<Measurement>, k: nat)
    ensures var u := AfterRefusals(c, s, batch, 1, k);
            && u.spool == s.spool && u.ledger == s.ledger
            && u.stats == s.stats.(failedAttempts := s.stats.failedAttempts + k)
            && NextTurn(u.turns) == TurnAt(s.turns, k)
            && OutcomeNow(u) == OutcomeAt(s.started, s.turns, k)
  {
    hide Pauses, Exchanges;
  }

  // ---- pauses ---------------------------------------------------------------------

  function Power(b: real, k: nat): real {
    if k == 0 then 1.0 else Times(b, Power(b, k - 1))
  }

  /** The longest the loop can pause over k retries, the first of them after attempt a. */
  function LongestPauses(c: Config, a: nat, k: nat): real
    requires a >= 1
  {
    if k == 0 then 0.0 else LongestPauses(c, a, k - 1) + Delay(c, a + k - 1)
  }

  lemma TimesIsAssociative(x: real, y: real, z: real)
    ensures Times(Times(x, y), z) == Times(x, Times(y, z)) == Times(x, Times(z, y))
  {
  }

  /** The first delay is the configured one, or none if that is negative. */
  lemma FirstDelay(c: Config)
    ensures Delay(c, 1) == if c.retryInitialDelay > 0.0 then c.retryInitialDelay else 0.0
  {
  }

  lemma {:induction false} DelayIsGeometric(c: Config, a: nat)
    requires a >= 1
    ensures Delay(c, a) == Times(Delay(c, 1), Power(c.retryBackoff, a - 1))
    ensures Delay(c, a)
            == Times(if c.retryInitialDelay > 0.0 then c.retryInitialDelay else 0.0, Power(c.retryBackoff, a - 1))
  {
    FirstDelay(c);
    if a > 1 {
      DelayIsGeometric(c, a - 1);
      TimesIsAssociative(Delay(c, 1), Power(c.retryBackoff, a - 2), c.retryBackoff);
    }
  }

  /** The geometric sum, for any backoff. */
  lemma {:induction false} LongestPausesSum(c: Config, k: nat)
    ensures Times(LongestPauses(c, 1, k), c.retryBackoff - 1.0)
            == Times(Delay(c, 1), Power(c.retryBackoff, k) - 1.0)
  {
    if k > 0 {
      LongestPausesSum(c, k - 1);
      DelayIsGeometric(c, k);
      GeometricStep(LongestPauses(c, 1, k - 1), Delay(c, 1), Power(c.retryBackoff, k - 1), c.retryBackoff);
    }
  }

  lemma GeometricStep(sum: real, d: real, p: real, b: real)
    requires Times(sum, b - 1.0) == Times(d, p - 1.0)
    ensures Times(sum + Times(d, p), b - 1.0) == Times(d, Times(b, p) - 1.0)
  {
    var q := d * p;
    assert q * b == d * (b * p);
    assert sum * (b - 1.0) == q - d;
  }

  lemma Quotient(x: real, y: real, z: real)
    requires y != 0.0 && Times(x, y) == z
    ensures x == z / y
  {
    assert z / y == (x * y) / y;
  }

  lemma TimesBounds(x: real, y: real)
    requires x >= 0.0 && y >= 0.0
    ensures Times(x, y) >= 0.0
    ensures x <= 1.0 ==> Times(x, y) <= y
  {
  }

  lemma {:induction false} LongestPausesFromTheFront(c: Config, a: nat, k: nat)
    requires a >= 1 && k >= 1
    ensures LongestPauses(c, a, k) == Delay(c, a) + LongestPauses(c, a + 1, k - 1)
  {
    if k > 1 {
      LongestPausesFromTheFront(c, a, k - 1);
    } else {
      assert LongestPauses(c, a, 0) == 0.0;
    }
  }

  ghost predicate FairJitter(turns: seq<Turn>) {
    forall t | t in turns :: 0.0 <= t.jitter <= 1.0
  }

  lemma {:induction false} DelayIsNonNegative(c: Config, a: nat)
    requires a >= 1 && c.retryBackoff >= 0.0
    ensures Delay(c, a) >= 0.0
  {
    if a > 1 {
      DelayIsNonNegative(c, a - 1);
      TimesBounds(Delay(c, a - 1), c.retryBackoff);
    }
  }

  lemma {:induction false} PausesAreBounded(c: Config, turns: seq<Turn>, a: nat, k: nat)
    requires a >= 1 && FairJitter(turns) && c.retryBackoff >= 0.0
    ensures 0.0 <= Pauses(c, turns, a, k) <= LongestPauses(c, a, k)
    decreases k
  {
    hide Times, Delay;
    if k > 0 {
      PausesAreBounded(c, LaterTurns(turns), a + 1, k - 1);
      LongestPausesFromTheFront(c, a, k);
      DelayIsNonNegative(c, a);
      TimesBounds(TurnAt(turns, 0).jitter, Delay(c, a));
    }
  }

  lemma {:induction false} LongestPausesGrow(c: Config, k: nat, n: nat)
    requires k <= n && c.retryBackoff >= 0.0
    ensures LongestPauses(c, 1, k) <= LongestPauses(c, 1, n)
  {
    if k < n {
      LongestPausesGrow(c, k, n - 1);
      DelayIsNonNegative(c, n);
    }
  }

  lemma {:induction false} LongestPausesWithoutBackoff(c: Config, k: nat)
    requires c.retryBackoff == 1.0
    ensures LongestPauses(c, 1, k) == Times(k as real, Delay(c, 1))
  {
    if k > 0 {
      LongestPausesWithoutBackoff(c, k - 1);
      DelayWithoutBackoff(c, k);
      assert k as real == (k - 1) as real + 1.0;
      assert Times((k - 1) as real + 1.0, Delay(c, 1)) == Times((k - 1) as real, Delay(c, 1)) + Delay(c, 1);
    }
  }

  lemma {:induction false} DelayWithoutBackoff(c: Config, a: nat)
    requires c.retryBackoff == 1.0 && a >= 1
    ensures Delay(c, a) == Delay(c, 1)
  {
    if a > 1 {
      DelayWithoutBackoff(c, a - 1);
    }
  }

  lemma SleepIsWithinLongest(c: Config, s: State, batch: seq<Measurement>)
    requires FairJitter(s.turns) && c.retryBackoff >= 0.0
    ensures s.slept <= Sent(c, s, batch, 1).slept <= s.slept + LongestPauses(c, 1, Attempts(c) - 1)
  {
    hide Sent, Pauses, LongestPauses, Delay, Power, Exchanges, Times;
    AttemptsAreLogged(c, s, batch);
    var last := AttemptsMade(c, s) - 1;
    PausesAreBounded(c, s.turns, 1, last);
    LongestPausesGrow(c, last, Attempts(c) - 1);
  }

  /** The time slept over one batch is at most the geometric sum of n - 1 delays, whatever the
      server answers: for a backoff b other than 1 that is d * (b^(n-1) - 1) / (b - 1). */
  lemma SleepIsBounded(c: Config, s: State, batch: seq<Measurement>)
    requires FairJitter(s.turns) && c.retryBackoff >= 0.0
    ensures var n, b := if c.maxRetries > 1 then c.maxRetries else 1, c.retryBackoff;
            var d := if c.retryInitialDelay > 0.0 then c.retryInitialDelay else 0.0;
            s.slept <= Sent(c, s, batch, 1).slept
                    <= s.slept + if b == 1.0 then Times((n - 1) as real, d)
                                 else Times(d, Power(b, n - 1) - 1.0) / (b - 1.0)
  {
    FirstDelay(c);
    hide Sent, LongestPauses, Delay, Power, Times;
    SleepIsWithinLongest(c, s, batch);
    var n, b := Attempts(c), c.retryBackoff;
    if b == 1.0 {
      LongestPausesWithoutBackoff(c, n - 1);
    } else {
      LongestPausesSum(c, n - 1);
      Quotient(LongestPauses(c, 1, n - 1), b - 1.0, Times(Delay(c, 1), Power(b, n - 1) - 1.0));
    }
  }
}
