/** What holds in every reachable state of the delivery protocol. */
module DeliveryTheorems {
  import opened Delivery
  import opened DeliveryInvariant
  import opened Ingest
  import opened KeyedTable
  import opened Measurements
  import opened Outcomes
  import opened SpoolQueue
  import opened Storage
  import opened Wrappers

  /** Exactly-once storage: however sends, lost answers, unacknowledged commits, retries, spooling
      and overlapping replays are interleaved, every (ts, id) is in the table at most once, every
      row is what was submitted under that key, every acknowledged measurement is there, and the
      hop table is the union of the hops of the stored measurements, each once. */
  lemma ExactlyOnce(c: Config, events: seq<Event>)
    requires Legal(c, events)
    ensures var s := After(c, events);
            && UniqueKeys(RowKeyOf, s.tables.rows)
            && UniqueKeys(HopKeyOf, s.tables.hops)
            && s.stored <= s.submitted
            && Tells(s.tables, s.stored)
            && (forall r: Row :: r in s.tables.rows <==> exists m :: m in s.stored && r == RowOf(m))
            && (forall m | m in s.acked :: RowOf(m) in s.tables.rows)
            && (forall h: HopRow :: h in s.tables.hops <==> exists m :: m in s.stored && h in HopRowsOf(m))
  {
    hide After, Legal, Batches, Tracked, Accounted, Tells;
    RunsKeepInvariant(c, events);
    HoldingTells(After(c, events).tables, After(c, events).stored);
  }

  /** No silent loss: wherever a run stops, each submitted measurement is in the buffer, in a
      flush under way, in a spool file or in the table, or its loss is recorded by its kind. */
  lemma NoSilentLoss(c: Config, events: seq<Event>, m: Measurement)
    requires Legal(c, events) && m in After(c, events).submitted
    ensures var s := After(c, events);
            || m in s.buffer
            || (exists t :: t in s.tasks && IsLive(s.tasks[t]) && m in s.tasks[t].batch)
            || (exists f :: f in s.spool.files && m in f.batch)
            || RowOf(m) in s.tables.rows
            || m in AllLost(s.lost)
  {
    hide After, Legal, Tracked, AllLost;
    RunsKeepInvariant(c, events);
  }

  /** No answer of success is a lie, whoever hears it and whenever: in every reachable state the whole batch
      of a request that was so answered is in the table, with its hops. */
  lemma AnswersAreTrue(c: Config, events: seq<Event>, p: nat)
    requires Legal(c, events) && p in After(c, events).posts
    requires var answer := After(c, events).posts[p].answer; answer.Some? && 200 <= answer.value <= 299
    ensures var s := After(c, events);
            forall m | m in s.posts[p].batch ::
              RowOf(m) in s.tables.rows && forall h | h in HopRowsOf(m) :: h in s.tables.hops
  {
    hide After, Legal, Tracked, Contained, Accounted;
    OutcomesByStatus(Status(After(c, events).posts[p].answer.value));
    AcceptanceIsSuccess(After(c, events).posts[p].answer.value);
    RunsKeepInvariant(c, events);
    var s := After(c, events);
    assert SuccessIsTrue(s.posts[p], s.stored);
  }

  /** Tasks in flight never exceed their attempts, and a replay, however late its answer, holds
      the oldest file of the spool or one that is gone. */
  lemma TasksKeepTheirPlace(c: Config, events: seq<Event>, t: nat)
    requires Legal(c, events) && t in After(c, events).tasks
    ensures var s := After(c, events); var task := s.tasks[t];
            && (IsLive(task) ==> 1 <= task.attempt <= Attempts(c))
            && (task.AwaitingReplay? ==>
                  if exists f :: f in s.spool.files && f.name == task.name
                  then s.spool.files[0].name == task.name && s.spool.files[0].batch == task.batch
                  else forall f | f in s.spool.files :: task.name < f.name)
  {
    hide After, Legal, Contained, Truthful, Accounted;
    RunsKeepInvariant(c, events);
    var s := After(c, events);
    assert TaskTracked(c, s, s.tasks[t]);
    if f :| s.tasks[t].AwaitingReplay? && f in s.spool.files && f.name == s.tasks[t].name {
      assert s.spool.files[0] in s.spool.files;
    }
  }

  /** The spool of any run, overlapping replays and all, is in order and within its cap. */
  lemma SpoolStaysBounded(c: Config, events: seq<Event>)
    requires Legal(c, events)
    ensures var s := After(c, events); WellFormed(s.spool) && Bounded(s.spool.files, c.maxBytes)
  {
    hide After, Legal, Contained, Truthful, Accounted;
    RunsKeepInvariant(c, events);
  }

  // ---- where losses come from --------------------------------------------------------

  function DiskOf(e: Event): Option<Disk> {
    match e
    case SendWithoutClient(t, disk) => Some(disk)
    case Answered(t, disk) => Some(disk)
    case Unanswered(t, disk) => Some(disk)
    case SpoolBuffer(disk) => Some(disk)
    case _ => None
  }

  predicate RefusesWrite(e: Event) {
    DiskOf(e).Some? && !DiskOf(e).value.writes
  }

  /** The loss recorded so far, by the events that can cause it. */
  ghost predicate Caused(c: Config, events: seq<Event>, s: State) {
    && (s.lost.unspooled != {} ==> !c.spoolConfigured)
    && (s.lost.unwritten != {} ==> exists e :: e in events && RefusesWrite(e))
    && (s.lost.quarantined != {} || (exists f :: f in s.spool.files && !f.readable) ==>
          exists e :: e in events && e.Damage?)
    && (s.lost.cancelled != {} ==> exists e :: e in events && e.Cancel?)
    && (s.lost.faulted != {} ==> exists e :: e in events && e.Fault?)
    && (s.lost.crashed != {} ==> exists e :: e in events && e.Crash?)
  }

  /** What one event may add to the losses. */
  ghost predicate Explains(c: Config, s: State, e: Event, s': State) {
    && (s'.lost.unspooled != s.lost.unspooled ==> !c.spoolConfigured)
    && (s'.lost.unwritten != s.lost.unwritten ==> RefusesWrite(e))
    && (s'.lost.quarantined != s.lost.quarantined ==> exists f :: f in s.spool.files && !f.readable)
    && (NoRot(s.spool.files, s'.spool.files) || e.Damage?)
    && (s'.lost.cancelled != s.lost.cancelled ==> e.Cancel?)
    && (s'.lost.faulted != s.lost.faulted ==> e.Fault?)
    && (s'.lost.crashed != s.lost.crashed ==> e.Crash?)
  }

  lemma CauseIsKnown(c: Config, events: seq<Event>, s: State, e: Event)
    requires Caused(c, events, s) && Enabled(c, s, e)
    ensures Caused(c, events + [e], Next(c, s, e))
  {
    hide Next, Enabled, RefusesWrite;
    EventExplains(c, s, e);
    assert forall x :: x in events + [e] <==> x in events || x == e;
  }

  lemma EventExplains(c: Config, s: State, e: Event)
    requires Enabled(c, s, e)
    ensures Explains(c, s, e, Next(c, s, e))
  {
    hide Refused, Looked, Served, Spooled, Batches, InFlight, IsSuccess, OutcomeOf, WellIdentified, Removed, Perform;
    match e
    case SendWithoutClient(t, disk) => RefusalHasCause(c, s, t, disk);
    case Answered(t, disk) => AnswerHasCause(c, s, t, disk);
    case Unanswered(t, disk) => RefusalHasCause(c, s, t, disk);
    case SpoolBuffer(disk) => SpoolingHasCause(c, s, s.buffer, disk);
    case Look(t, p) => LookHasCause(s, t, p);
    case Serve(p, req, connected, verdict) => ServingSparesLosses(c, s, p, req, connected, verdict);
    case _ =>
  }

  lemma ServingSparesLosses(c: Config, s: State, p: nat, req: Request, connected: bool, verdict: Verdict)
    requires p in s.posts
    ensures Served(c, s, p, req, connected, verdict).lost == s.lost
    ensures Served(c, s, p, req, connected, verdict).spool == s.spool
  {
  }

  /** No file of the later spool is unreadable unless one of the earlier was. */
  ghost predicate NoRot(q: Queue, q': Queue) {
    (exists f :: f in q' && !f.readable) ==> exists f :: f in q && !f.readable
  }

  lemma SpoolingHasCause(c: Config, s: State, batch: seq<Measurement>, disk: Disk)
    ensures var s' := Spooled(c, s, batch, disk);
            && s'.lost == s.lost.(unspooled := s'.lost.unspooled, unwritten := s'.lost.unwritten,
                                  evicted := s'.lost.evicted)
            && (s'.lost.unspooled != s.lost.unspooled ==> !c.spoolConfigured)
            && (s'.lost.unwritten != s.lost.unwritten ==> !disk.writes)
            && NoRot(s.spool.files, s'.spool.files)
  {
    hide Batches;
    var file := SpoolFile(s.spool.clock + 1, batch, true, disk.size);
    var all := s.spool.files + [file];
    assert all == Evicted(all, c.maxBytes) + Appended(s.spool.files, file, c.maxBytes);
    assert forall f | f in Appended(s.spool.files, file, c.maxBytes) :: f in all;
  }

  lemma RefusalHasCause(c: Config, s: State, t: nat, disk: Disk)
    requires t in s.tasks && (IsLive(s.tasks[t]) || HasPost(s, t))
    ensures var s' := Refused(c, s, t, disk);
            && s'.lost == s.lost.(unspooled := s'.lost.unspooled, unwritten := s'.lost.unwritten,
                                  evicted := s'.lost.evicted)
            && (s'.lost.unspooled != s.lost.unspooled ==> !c.spoolConfigured)
            && (s'.lost.unwritten != s.lost.unwritten ==> !disk.writes)
            && NoRot(s.spool.files, s'.spool.files)
  {
    hide Spooled;
    if !s.tasks[t].AwaitingReplay? {
      SpoolingHasCause(c, Without(s, t), s.tasks[t].batch, disk);
    }
  }

  lemma AnswerHasCause(c: Config, s: State, t: nat, disk: Disk)
    requires Enabled(c, s, Answered(t, disk))
    ensures var s' := Next(c, s, Answered(t, disk));
            && s'.lost == s.lost.(rejected := s'.lost.rejected, unspooled := s'.lost.unspooled,
                                  unwritten := s'.lost.unwritten, evicted := s'.lost.evicted)
            && (s'.lost.unspooled != s.lost.unspooled ==> !c.spoolConfigured)
            && (s'.lost.unwritten != s.lost.unwritten ==> !disk.writes)
            && NoRot(s.spool.files, s'.spool.files)
  {
    hide Refused, Removed, OutcomeOf;
    RefusalHasCause(c, s, t, disk);
    if s.tasks[t].AwaitingReplay? {
      RemovedContents(s.spool.files, s.tasks[t].name);
    }
  }

  lemma {:induction false} ReadableQuarantinesNone(q: Queue)
    requires forall f | f in q :: f.readable
    ensures Quarantined(q) == []
  {
    if q != [] {
      ReadableQuarantinesNone(q[1..]);
    }
  }

  lemma LookHasCause(s: State, t: nat, p: nat)
    requires t in s.tasks && s.tasks[t].Replaying?
    ensures var s' := Looked(s, t, p);
            && s'.lost == s.lost.(quarantined := s'.lost.quarantined)
            && (s'.lost.quarantined != s.lost.quarantined ==> exists f :: f in s.spool.files && !f.readable)
            && NoRot(s.spool.files, s'.spool.files)
  {
    hide Peeked, Quarantined;
    assert s.spool.files == Skipped(s.spool.files) + Peeked(s.spool.files);
    if forall f | f in s.spool.files :: f.readable {
      ReadableQuarantinesNone(s.spool.files);
      assert Batches([]) == {};
    }
  }

  /** A request with the measurement was answered by a permanent refusal. */
  ghost predicate WasRefused(s: State, m: Measurement) {
    exists p :: p in s.posts && IsRefusal(s.posts[p]) && m in s.posts[p].batch
  }

  predicate IsRefusal(post: Post) {
    post.answer.Some? && post.answer.value in {400, 404, 413, 422}
  }

  lemma AnswersStay(c: Config, s: State, e: Event, p: nat)
    requires Enabled(c, s, e) && p in s.posts && s.posts[p].answer.Some?
    ensures var posts := Next(c, s, e).posts;
            p in posts && posts[p].answer == s.posts[p].answer && posts[p].batch == s.posts[p].batch
  {
    hide Perform, Batches, TablesAfter, StatusOf, ReachesStorage, Contents, InFlight, Peeked, Quarantined, Removed,
         Evicted, OutcomeOf;
  }

  lemma RejectionIsAnswered(c: Config, s: State, e: Event, m: Measurement)
    requires Tracked(c, s) && Enabled(c, s, e)
    requires m in Next(c, s, e).lost.rejected && m !in s.lost.rejected
    ensures WasRefused(s, m)
  {
    hide Perform, Batches, TablesAfter, StatusOf, ReachesStorage, InFlight, Peeked, Quarantined, Removed, Evicted,
         OutcomeOf, Bounded, WellFormed;
    assert e.Answered?;
    OutcomesByStatus(Status(s.posts[s.tasks[e.task].post].answer.value));
    assert TaskTracked(c, s, s.tasks[e.task]);
    assert m in s.posts[s.tasks[e.task].post].batch;
  }

  /** What is recorded as rejected was in a request that was answered 400, 404, 413 or 422. */
  lemma {:induction false} RejectedWereRefused(c: Config, events: seq<Event>, m: Measurement)
    requires Legal(c, events) && m in After(c, events).lost.rejected
    ensures WasRefused(After(c, events), m)
    decreases |events|
  {
    hide Next, Enabled, Tracked, Contained, Truthful, Accounted;
    if events != [] {
      var init, e := events[..|events| - 1], events[|events| - 1];
      var s := After(c, init);
      if m in s.lost.rejected {
        RejectedWereRefused(c, init, m);
      } else {
        RunsKeepInvariant(c, init);
        RejectionIsAnswered(c, s, e, m);
      }
      var p :| p in s.posts && IsRefusal(s.posts[p]) && m in s.posts[p].batch;
      AnswersStay(c, s, e, p);
    }
  }

  /** A request with the measurement was answered by a success. */
  ghost predicate WasTaken(s: State, m: Measurement) {
    exists p :: p in s.posts && IsTaking(s.posts[p]) && m in s.posts[p].batch
  }

  predicate IsTaking(post: Post) {
    post.answer.Some? && 200 <= post.answer.value <= 299
  }

  lemma AcceptanceIsAnswered(c: Config, s: State, e: Event, m: Measurement)
    requires Tracked(c, s) && Enabled(c, s, e)
    requires m in Next(c, s, e).acked && m !in s.acked
    ensures WasTaken(s, m)
  {
    hide Perform, Batches, TablesAfter, StatusOf, ReachesStorage, InFlight, Peeked, Quarantined, Removed, Evicted,
         OutcomeOf, Bounded, WellFormed;
    assert e.Answered?;
    OutcomesByStatus(Status(s.posts[s.tasks[e.task].post].answer.value));
    assert TaskTracked(c, s, s.tasks[e.task]);
    assert m in s.posts[s.tasks[e.task].post].batch;
  }

  /** What is acknowledged was in a request that was answered by a status from 200 to 299. */
  lemma {:induction false} AckedWereTaken(c: Config, events: seq<Event>, m: Measurement)
    requires Legal(c, events) && m in After(c, events).acked
    ensures WasTaken(After(c, events), m)
    decreases |events|
  {
    hide Next, Enabled, Tracked, Contained, Truthful, Accounted;
    if events != [] {
      var init, e := events[..|events| - 1], events[|events| - 1];
      var s := After(c, init);
      if m in s.acked {
        AckedWereTaken(c, init, m);
      } else {
        RunsKeepInvariant(c, init);
        AcceptanceIsAnswered(c, s, e, m);
      }
      var p :| p in s.posts && IsTaking(s.posts[p]) && m in s.posts[p].batch;
      AnswersStay(c, s, e, p);
    }
  }

  /** The event writes a file that takes a spool with other files over its cap. */
  ghost predicate Overflows(c: Config, s: State, e: Event) {
    && Enabled(c, s, e)
    && OpOf(c, s, e).Some? && OpOf(c, s, e).value.Append? && OpOf(c, s, e).value.writes
    && s.spool.files != [] && TotalBytes(s.spool.files) + OpOf(c, s, e).value.size > c.maxBytes
  }

  ghost predicate OverflowedAt(c: Config, events: seq<Event>, i: nat) {
    i < |events| && Legal(c, events[..i]) && Overflows(c, After(c, events[..i]), events[i])
  }

  lemma SpoolingOverflows(c: Config, s: State, batch: seq<Measurement>, disk: Disk)
    requires Spooled(c, s, batch, disk).lost.evicted != s.lost.evicted
    ensures c.spoolConfigured && batch != [] && disk.writes
    ensures s.spool.files != [] && TotalBytes(s.spool.files) + disk.size > c.maxBytes
  {
    var file := SpoolFile(s.spool.clock + 1, batch, true, disk.size);
    var all := s.spool.files + [file];
    EvictionIsLeast(all, c.maxBytes);
    TotalSplits(s.spool.files, [file]);
    assert all[0..] == all && Batches([]) == {};
  }

  lemma EvictionOverflows(c: Config, s: State, e: Event)
    requires Enabled(c, s, e) && Next(c, s, e).lost.evicted != s.lost.evicted
    ensures Overflows(c, s, e)
  {
    hide Spooled, Removed, Peeked, Quarantined, Batches, InFlight, TablesAfter, StatusOf, ReachesStorage, OutcomeOf,
         Perform, WellIdentified, IsSuccess;
    match e
    case SendWithoutClient(t, disk) => SpoolingOverflows(c, Without(s, t), s.tasks[t].batch, disk);
    case Answered(t, disk) => SpoolingOverflows(c, Without(s, t), s.tasks[t].batch, disk);
    case Unanswered(t, disk) => SpoolingOverflows(c, Without(s, t), s.tasks[t].batch, disk);
    case SpoolBuffer(disk) => SpoolingOverflows(c, s, s.buffer, disk);
  }

  /** Files were evicted only by a write over the cap. */
  lemma {:induction false} EvictedByOverflow(c: Config, events: seq<Event>)
    requires Legal(c, events) && After(c, events).lost.evicted != {}
    ensures exists i: nat :: OverflowedAt(c, events, i)
    decreases |events|
  {
    hide Next, Enabled, Overflows;
    if events != [] {
      var n := |events| - 1;
      var init := events[..n];
      if After(c, init).lost.evicted != {} {
        EvictedByOverflow(c, init);
        var i: nat :| OverflowedAt(c, init, i);
        assert events[..i] == init[..i];
        assert OverflowedAt(c, events, i);
      } else {
        EvictionOverflows(c, After(c, init), events[n]);
        assert OverflowedAt(c, events, n);
      }
    }
  }

  /** Each kind of loss needs its own kind of trouble: a permanent refusal, a missing spool, a refused
      write, a spool over its cap, a file gone bad, a cancellation, an exception, a crash. */
  lemma {:induction false} LossesHaveCauses(c: Config, events: seq<Event>)
    requires Legal(c, events)
    ensures Caused(c, events, After(c, events))
    ensures forall m | m in After(c, events).lost.rejected :: WasRefused(After(c, events), m)
    ensures After(c, events).lost.evicted != {} ==> exists i: nat :: OverflowedAt(c, events, i)
    decreases |events|
  {
    hide Caused, Overflows, Next, Enabled;
    forall m | m in After(c, events).lost.rejected ensures WasRefused(After(c, events), m) {
      RejectedWereRefused(c, events, m);
    }
    if After(c, events).lost.evicted != {} {
      EvictedByOverflow(c, events);
    }
    if events == [] {
      NothingCaused(c);
    } else {
      var init, e := events[..|events| - 1], events[|events| - 1];
      LossesHaveCauses(c, init);
      CauseIsKnown(c, init, After(c, init), e);
      assert events == init + [e];
    }
  }

  lemma NothingCaused(c: Config)
    ensures Caused(c, [], START)
  {
  }

  /** No trouble but the network's and the server's. */
  ghost predicate Healthy(c: Config, events: seq<Event>) {
    && c.spoolConfigured
    && forall e | e in events :: !RefusesWrite(e) && !e.Damage? && !e.Cancel? && !e.Fault? && !e.Crash?
  }

  /** With a working spool and no cancellation or crash, data is lost in two ways only: the server
      rejects it for good, or the spool outgrows its cap. */
  lemma HealthyRunsLoseInTwoWays(c: Config, events: seq<Event>)
    requires Legal(c, events) && Healthy(c, events)
    ensures AllLost(After(c, events).lost) == After(c, events).lost.rejected + After(c, events).lost.evicted
  {
    LossesHaveCauses(c, events);
  }

  // ---- complete delivery -----------------------------------------------------------------

  /** A table that holds a set of measurements has as many rows as there are measurements. */
  lemma {:induction false} OneRowEach(rows: seq<Row>, stored: set<Measurement>)
    requires UniqueKeys(RowKeyOf, rows) && WellIdentified(stored)
    requires forall r: Row :: r in rows <==> exists m :: m in stored && r == RowOf(m)
    ensures |rows| == |stored|
  {
    if rows == [] {
      assert forall m | m in stored :: RowOf(m) in rows;
    } else {
      var init, last := rows[..|rows| - 1], rows[|rows| - 1];
      assert rows == init + [last];
      assert last in rows;
      var m :| m in stored && last == RowOf(m);
      forall r: Row
        ensures r in init <==> exists n :: n in stored - {m} && r == RowOf(n)
      {
        if r in init {
          var i :| 0 <= i < |init| && init[i] == r;
          assert RowKeyOf(rows[i]) != RowKeyOf(last);
          assert r in rows;
          var n :| n in stored && r == RowOf(n);
          assert n != m;
        }
        if n :| n in stored - {m} && r == RowOf(n) {
          assert KeyOf(n) != KeyOf(m);
          assert r in rows && r != last;
        }
      }
      OneRowEach(init, stored - {m});
    }
  }

  /** Nothing is on its way. */
  ghost predicate Idle(s: State) {
    s.buffer == [] && s.tasks == map[] && s.spool.files == []
  }

  /** When a run comes to rest with no loss recorded, everything that was submitted is in the
      table, one row each, and nothing else is. */
  lemma RestMeansDelivered(c: Config, events: seq<Event>)
    requires Legal(c, events) && Idle(After(c, events)) && AllLost(After(c, events).lost) == {}
    ensures var s := After(c, events);
            && |s.tables.rows| == |s.submitted|
            && forall r: Row :: r in s.tables.rows <==> exists m :: m in s.submitted && r == RowOf(m)
  {
    hide After, Legal, Tracked, AllLost;
    RunsKeepInvariant(c, events);
    var s := After(c, events);
    assert s.stored == s.submitted;
    OneRowEach(s.tables.rows, s.stored);
  }

  /** A flush cancelled with its batch in hand leaves nothing behind, not even a request. */
  lemma CancellationLoses(c: Config, m: Measurement)
    requires HopsDistinct(m)
    ensures var events := [Submit([m]), BeginFlush(0, false), Cancel(0)];
            && Legal(c, events)
            && var s := After(c, events);
               && Idle(s) && s.posts == map[] && s.stored == {}
               && m in s.submitted && RowOf(m) !in s.tables.rows && m in s.lost.cancelled
  {
    var submit, flush, cancel := Submit([m]), BeginFlush(0, false), Cancel(0);
    var e1, e2, e3 := [submit], [submit, flush], [submit, flush, cancel];
    assert e1[..0] == [] && e2[..1] == e1 && e3[..2] == e2;
    assert Legal(c, []) && After(c, []) == START;
    assert Legal(c, e1);
    assert Legal(c, e2);
    assert Legal(c, e3);
  }
}
