/** When the buffer is sent, and what goes over the wire then: said of the requests that are logged. */
module FlushLaws {
  import opened Measurements
  import opened Outcomes
  import opened RealProducts
  import opened Shipping
  import opened SpoolQueue
  import opened Wrappers

  /** The batches requested since. */
  function Requested(s: State, t: State): seq<seq<Measurement>>
    requires |s.log| <= |t.log|
  {
    seq(|t.log| - |s.log|, i requires 0 <= i < |t.log| - |s.log| => t.log[|s.log| + i].batch)
  }

  ghost predicate IsFileBatch(s: State, batch: seq<Measurement>) {
    s.spool.Some? && exists f :: f in s.spool.value.files && f.batch == batch
  }

  // ---- sending ------------------------------------------------------------------------------------------

  /** A batch is requested at least once with a client, and no more often than there are attempts left. */
  ghost predicate Sends(s: State, t: State, batch: seq<Measurement>, most: int) {
    && s.log <= t.log && t.buffer == s.buffer && t.oldest == s.oldest && t.started == s.started
    && (if s.started then 1 <= |t.log| - |s.log| <= most else t.log == s.log)
    && forall i | |s.log| <= i < |t.log| :: t.log[i].batch == batch
  }

  lemma {:induction false} SendingSends(c: Config, s: State, batch: seq<Measurement>, attempt: nat)
    requires 1 <= attempt <= Attempts(c)
    ensures Sends(s, Sent(c, s, batch, attempt), batch, Attempts(c) + 1 - attempt)
    decreases Attempts(c) - attempt
  {
    hide Perform, EvictedItems, OutcomeNow, Times, Delay;
    if OutcomeNow(s) == Retry && attempt < Attempts(c) {
      var s1 := Paused(Tried(s, batch), Times(NextTurn(s.turns).jitter, Delay(c, attempt)));
      SendingSends(c, s1, batch, attempt + 1);
    }
  }

  lemma AttemptsAre(c: Config)
    ensures Attempts(c) == if c.maxRetries < 1 then 1 else c.maxRetries
  {
  }

  // ---- replaying ------------------------------------------------------------------------------------------

  /** At most so many files are requested, and nothing but files. */
  ghost predicate RequestsFiles(s: State, t: State, most: int) {
    && s.log <= t.log && t.buffer == s.buffer && t.oldest == s.oldest && t.started == s.started
    && |t.log| - |s.log| <= most
    && forall i | |s.log| <= i < |t.log| :: IsFileBatch(s, t.log[i].batch)
  }

  lemma {:induction false} ReplayRequestsFiles(s: State, maxFiles: nat)
    ensures RequestsFiles(s, Replayed(s, maxFiles).0, maxFiles)
    decreases maxFiles
  {
    hide Peeked, Removed, Skipped, Items, OutcomeNow, IsFileBatch;
    if maxFiles > 0 && s.spool.Some? && s.started {
      var s1 := Looked(s);
      if s1.spool.value.files != [] {
        var batch := s1.spool.value.files[0].batch;
        OldestIsAFile(s);
        if OutcomeNow(s1) != Retry {
          var s2 := Settled(Posted(s1, batch), OutcomeNow(s1));
          ReplayRequestsFiles(s2, maxFiles - 1);
          forall b | IsFileBatch(s2, b) ensures IsFileBatch(s, b) {
            SettledFilesWereThere(s, b);
          }
        }
      }
    }
  }

  lemma OldestIsAFile(s: State)
    requires s.spool.Some? && Peeked(s.spool.value.files) != []
    ensures IsFileBatch(s, Looked(s).spool.value.files[0].batch)
  {
    hide Skipped, Items;
    PeekFindsTheOldest(s.spool.value.files);
    assert Peeked(s.spool.value.files)[0] in s.spool.value.files;
  }

  lemma SettledFilesWereThere(s: State, b: seq<Measurement>)
    requires s.spool.Some? && Peeked(s.spool.value.files) != [] && OutcomeNow(Looked(s)) != Retry
    requires var s1 := Looked(s);
             IsFileBatch(Settled(Posted(s1, s1.spool.value.files[0].batch), OutcomeNow(s1)), b)
    ensures IsFileBatch(s, b)
  {
    hide Peeked, Removed, Skipped, Items, OutcomeNow;
    var q := s.spool.value.files;
    PeekFindsTheOldest(q);
    RemovedContents(Peeked(q), Peeked(q)[0].name);
  }

  // ---- flushing -------------------------------------------------------------------------------------------

  /** The buffer is taken whole and, with a client, requested first: at least once, at most max_retries
      times; after it come at most so many files. */
  ghost predicate GoesOut(c: Config, s: State, batch: seq<Measurement>, t: State, files: int) {
    && t.buffer == [] && t.oldest == None && t.started == s.started && s.log <= t.log
    && (!s.started ==> t.log == s.log)
    && (s.started ==> exists k :: Parts(s, batch, t, k) && k <= (if c.maxRetries < 1 then 1 else c.maxRetries)
                                  && |t.log| - |s.log| - k <= files)
  }

  /** The first k of the new requests carry the batch, the others files. They come only after an answer
      from 200 to 299. */
  ghost predicate Parts(s: State, batch: seq<Measurement>, t: State, k: int) {
    && 1 <= k <= |t.log| - |s.log|
    && (forall i | |s.log| <= i < |s.log| + k :: t.log[i].batch == batch)
    && (k < |t.log| - |s.log| ==>
          var answer := t.log[|s.log| + k - 1].answer; answer.Status? && 200 <= answer.code <= 299)
  }

  lemma {:induction false} AcceptanceIsLogged(c: Config, s: State, batch: seq<Measurement>, attempt: nat)
    requires 1 <= attempt <= Attempts(c) && Accepted(c, s, batch, attempt)
    ensures var t := Sent(c, s, batch, attempt);
            && s.started && t.log != [] && OutcomeOf(t.log[|t.log| - 1].answer) == Shipped
    decreases Attempts(c) - attempt
  {
    hide Perform, EvictedItems, Times, Delay, OutcomeOf;
    if OutcomeNow(s) == Retry && attempt < Attempts(c) {
      var s1 := Paused(Tried(s, batch), Times(NextTurn(s.turns).jitter, Delay(c, attempt)));
      AcceptedNeedsTurnsOnly(c, Posted(s, batch), s1, batch, attempt + 1);
      AcceptanceIsLogged(c, s1, batch, attempt + 1);
    }
  }

  lemma FlushGoesOut(c: Config, s: State, force: bool)
    requires s.buffer != []
    ensures GoesOut(c, s, s.buffer, Flushed(c, s, force).0, if force then 100 else 3)
  {
    hide Sent, Accepted, Replayed, OutcomeOf, IsFileBatch;
    var s1 := Sent(c, Taken(s), s.buffer, 1);
    SendingSends(c, Taken(s), s.buffer, 1);
    AttemptsAre(c);
    var t := Flushed(c, s, force).0;
    if Accepted(c, Taken(s), s.buffer, 1) {
      ReplayRequestsFiles(s1, if force then DRAIN_REPLAYS else FLUSH_REPLAYS);
      AcceptanceIsLogged(c, Taken(s), s.buffer, 1);
      OutcomesByStatus(s1.log[|s1.log| - 1].answer);
    }
    if s.started {
      assert Parts(s, s.buffer, t, |s1.log| - |s.log|);
    }
  }

  // ---- one turn of the loop -----------------------------------------------------------------------------------

  /** The buffer and its stamp stay, and at most one file is requested, and nothing else. */
  ghost predicate Waits(s: State, t: State) {
    RequestsFiles(s, t, 1)
  }

  /** A stamped buffer goes out when it is batch_max_seconds old, and not before. */
  lemma TickByAge(c: Config, s: State, now: real)
    ensures var t := Ticked(c, s, now);
            && (s.buffer != [] && s.oldest.Some? && s.oldest.value != 0.0 && now - s.oldest.value >= c.batchMaxSeconds
                ==> GoesOut(c, s, s.buffer, t, 3))
            && (s.oldest.Some? && s.oldest.value != 0.0 && now - s.oldest.value < c.batchMaxSeconds ==> Waits(s, t))
            && (s.buffer == [] ==> Waits(s, t))
  {
    hide Flushed, Replayed, GoesOut, RequestsFiles;
    ReplayRequestsFiles(s, 1);
    if s.buffer != [] {
      FlushGoesOut(c, s, false);
    }
  }

  /** A stamp of zero reads as no stamp: such a buffer never comes of age, unless no age is asked for. */
  lemma TickWithoutStamp(c: Config, s: State, now: real)
    requires s.oldest == None || s.oldest == Some(0.0)
    ensures c.batchMaxSeconds > 0.0 ==> Waits(s, Ticked(c, s, now))
    ensures c.batchMaxSeconds <= 0.0 && s.buffer != [] ==> GoesOut(c, s, s.buffer, Ticked(c, s, now), 3)
  {
    hide Flushed, Replayed, GoesOut, RequestsFiles;
    ReplayRequestsFiles(s, 1);
    if s.buffer != [] {
      FlushGoesOut(c, s, false);
    }
  }

  lemma SameStart(c: Config, a: State, b: State, batch: seq<Measurement>, t: State, files: int)
    requires GoesOut(c, a, batch, t, files) && a.log == b.log && a.started == b.started
    ensures GoesOut(c, b, batch, t, files)
  {
    if a.started {
      var k :| Parts(a, batch, t, k) && k <= (if c.maxRetries < 1 then 1 else c.maxRetries)
               && |t.log| - |a.log| - k <= files;
      assert Parts(b, batch, t, k);
    }
  }

  // ---- submitting ---------------------------------------------------------------------------------------------

  /** A buffer that reaches batch_max_size goes out at once, with what was added. Otherwise nothing is
      requested; the age is that of the oldest measurement. */
  lemma SubmittingFillsOrSends(c: Config, s: State, items: seq<Measurement>, now: real)
    ensures var t := Submitted(c, s, items, now);
            if items == [] then t == s
            else if |s.buffer| + |items| >= c.batchMaxSize then GoesOut(c, s, s.buffer + items, t, 3)
            else
              && t.buffer == s.buffer + items && t.log == s.log && t.spool == s.spool && t.turns == s.turns
              && t.oldest == (if s.oldest == None then Some(now) else s.oldest) && t.stats.queued == |t.buffer|
  {
    hide Flushed;
    if items != [] {
      var s1 := Queued(s, items, now);
      FlushGoesOut(c, s1, false);
      SameStart(c, s1, s, s1.buffer, Flushed(c, s1, false).0, 3);
    }
  }

  // ---- stopping -----------------------------------------------------------------------------------------------

  /** The last stop: drained, the buffer goes out, with up to a hundred files after it. Undrained, nothing is
      requested; with a spool the buffer becomes its newest file, if the disk writes, and without one it
      stays. There is no client afterwards. */
  lemma StoppingSendsOrSpools(c: Config, s: State, drain: bool, writes: bool)
    ensures var t := Stopped(c, s, drain, writes);
            && !t.started
            && (drain && s.buffer != [] ==> GoesOut(c, s, s.buffer, t.(started := s.started), 100))
            && (drain && s.buffer == [] ==> t == s.(started := false))
            && (!drain ==> t.log == s.log && t.stats == s.stats)
            && (!drain && s.buffer != [] && s.spool.Some? ==>
                  && t.buffer == [] && t.spool.Some?
                  && if writes then IsNewestFile(s.spool.value, t.spool.value, s.buffer)
                     else t.spool.value.files == s.spool.value.files)
            && (!drain && (s.buffer == [] || s.spool.None?) ==> t.buffer == s.buffer && t.spool == s.spool)
  {
    hide Flushed, GoesOut, EvictedItems, Appended, IsNewestFile;
    if s.buffer == [] {
      NothingToFlush(c, s);
    } else {
      FlushGoesOut(c, s, true);
      StartedStays(c, s, Flushed(c, s, true).0, s.buffer);
    }
    if s.buffer != [] && s.spool.Some? {
      NewestIsLast(s.spool.value, s.buffer, c.sizeOf(s.buffer), c.maxBytes);
    }
  }

  lemma NothingToFlush(c: Config, s: State)
    requires s.buffer == []
    ensures Flushed(c, s, true).0 == s
  {
  }

  lemma StartedStays(c: Config, s: State, t: State, batch: seq<Measurement>)
    ensures GoesOut(c, s, batch, t, 100) ==> t.started == s.started
  {
  }

  ghost predicate IsNewestFile(d: Directory, d': Directory, batch: seq<Measurement>) {
    && d'.files != [] && d'.files[|d'.files| - 1].batch == batch && d'.files[|d'.files| - 1].name > d.clock
    && d'.files[|d'.files| - 1].readable
  }

  lemma NewestIsLast(d: Directory, batch: seq<Measurement>, size: nat, maxBytes: int)
    requires batch != []
    ensures IsNewestFile(d, Perform(d, Append(batch, true, size), maxBytes), batch)
  {
    hide Appended;
    AppendGoesToTheTail(d.files, SpoolFile(d.clock + 1, batch, true, size), maxBytes);
  }
}
