/** What can still be delivered.

  From every reachable state some calm continuation (the server answers, the disk writes, nobody
  submits, cancels or crashes) brings the agent to rest with everything stored that any continuation
  could store. So a measurement is lost for good exactly when it is in none of the places named here.
 */
module DeliveryRecovery {
  import opened Delivery
  import opened DeliveryInvariant
  import opened DeliveryRuns
  import opened Ingest
  import opened Measurements
  import opened SpoolQueue
  import opened Storage
  import opened Wrappers

  // ---- where a measurement can still come from ------------------------------------------------------

  ghost function Readable(q: Queue): set<Measurement> {
    set f, m | f in q && f.readable && m in f.batch :: m
  }

  predicate IsOpen(post: Post) {
    post.open
  }

  /** What is in requests that may yet come to the endpoint, answered by a proxy or not, their senders
      alive or not. */
  ghost function Open(s: State): set<Measurement> {
    set p, m | p in s.posts && IsOpen(s.posts[p]) && m in s.posts[p].batch :: m
  }

  /** The flush can post its batch again, or hand it to the spool. */
  predicate CanRetry(c: Config, t: Task) {
    t.Sending? || (t.Awaiting? && (t.attempt < Attempts(c) || c.spoolConfigured))
  }

  ghost function Retriable(c: Config, tasks: map<nat, Task>): set<Measurement> {
    set t, m | t in tasks && CanRetry(c, tasks[t]) && m in tasks[t].batch :: m
  }

  ghost function Recoverable(c: Config, s: State): set<Measurement> {
    s.stored + Contents(s.buffer) + Readable(s.spool.files) + Open(s) + Retriable(c, s.tasks)
  }

  // ---- nothing else comes back -------------------------------------------------------------------------

  predicate Resubmits(e: Event, m: Measurement) {
    e.Submit? && m in e.items
  }

  lemma {:induction false} PeekingKeepsReadable(q: Queue)
    ensures Readable(Peeked(q)) == Readable(q)
  {
    PeekFindsTheOldest(q);
    assert Skipped(q) + Peeked(q) == q;
    forall m | m in Readable(q) ensures m in Readable(Peeked(q)) {
      var f :| f in q && f.readable && m in f.batch;
      assert f.batch != [];
      assert Deliverable(f);
      assert f in Peeked(q);
    }
  }

  lemma AppendingIsReadable(q: Queue, batch: seq<Measurement>, clock: nat, disk: Disk, maxBytes: int, m: Measurement)
    requires m !in Readable(q) && m !in batch
    ensures m !in Readable(Perform(Directory(q, clock), Append(batch, disk.writes, disk.size), maxBytes).files)
  {
    hide Evicted, WithinLimit;
    var file := SpoolFile(clock + 1, batch, true, disk.size);
    AllOrEvicted(q + [file], maxBytes);
    var after := Appended(q, file, maxBytes);
    forall f | f in after && f.readable ensures m !in f.batch {
      assert f in q + [file];
      assert f in q || f == file;
    }
  }

  lemma DamagingIsReadable(q: Queue, at: nat, m: Measurement)
    requires m !in Readable(q) && at < |q|
    ensures m !in Readable(q[at := q[at].(readable := false)])
  {
    var r := q[at := q[at].(readable := false)];
    forall f | f in r && f.readable ensures m !in f.batch {
      assert f in q;
    }
  }

  lemma SpoolingBringsNothing(c: Config, s: State, batch: seq<Measurement>, disk: Disk, m: Measurement)
    requires m !in Recoverable(c, s) && (c.spoolConfigured ==> m !in batch)
    ensures m !in Recoverable(c, Spooled(c, s, batch, disk))
  {
    hide Perform, Batches, Evicted;
    if c.spoolConfigured {
      AppendingIsReadable(s.spool.files, batch, s.spool.clock, disk, c.maxBytes, m);
    }
  }

  lemma OneTaskLess(c: Config, s: State, t: nat, m: Measurement)
    requires m !in Recoverable(c, s)
    ensures m !in Recoverable(c, Without(s, t))
  {
  }

  lemma OneTaskChanges(c: Config, s: State, t: nat, task: Task, m: Measurement)
    requires m !in Recoverable(c, s) && (CanRetry(c, task) ==> m !in task.batch)
    ensures m !in Recoverable(c, s.(tasks := s.tasks[t := task]))
  {
  }

  lemma RefusalBringsNothing(c: Config, s: State, t: nat, disk: Disk, m: Measurement)
    requires t in s.tasks && (IsLive(s.tasks[t]) || HasPost(s, t)) && m !in Recoverable(c, s)
    ensures m !in Recoverable(c, Refused(c, s, t, disk))
  {
    hide Recoverable, Spooled;
    var task := s.tasks[t];
    NotRetriable(c, s, t, m);
    OneTaskLess(c, s, t, m);
    if !task.AwaitingReplay? {
      if task.attempt < Attempts(c) {
        OneTaskChanges(c, s, t, Sending(task.batch, task.attempt + 1, task.force), m);
      } else {
        SpoolingBringsNothing(c, Without(s, t), task.batch, disk, m);
      }
    }
  }

  lemma NotRetriable(c: Config, s: State, t: nat, m: Measurement)
    requires t in s.tasks && m !in Recoverable(c, s)
    ensures CanRetry(c, s.tasks[t]) ==> m !in s.tasks[t].batch
    ensures m !in s.buffer && m !in s.stored
  {
  }

  lemma SettlingBringsNothing(c: Config, s: State, t: nat, m: Measurement)
    requires t in s.tasks && HasPost(s, t) && m !in Recoverable(c, s)
    ensures m !in Recoverable(c, Accepted(s, t)) && m !in Recoverable(c, Rejected(s, t))
  {
    hide Removed, Contents;
    if s.tasks[t].AwaitingReplay? {
      RemovedContents(s.spool.files, s.tasks[t].name);
      assert forall f | f in Removed(s.spool.files, s.tasks[t].name) :: f in s.spool.files;
    }
  }

  lemma LookingBringsNothing(c: Config, s: State, t: nat, p: nat, m: Measurement)
    requires t in s.tasks && s.tasks[t].Replaying? && p !in s.posts && m !in Recoverable(c, s)
    ensures m !in Recoverable(c, Looked(s, t, p))
  {
    hide Peeked, Quarantined, Batches;
    PeekingKeepsReadable(s.spool.files);
    PeekFindsTheOldest(s.spool.files);
    var q := Peeked(s.spool.files);
    assert q != [] ==> q[0] in q;
  }

  lemma ServingBringsNothing(c: Config, s: State, p: nat, req: Request, connected: bool, verdict: Verdict, code: int,
                             m: Measurement)
    requires p in s.posts && IsOpen(s.posts[p]) && m !in Recoverable(c, s)
    ensures m !in Recoverable(c, Served(c, s, p, req, connected, verdict))
    ensures forall passes :: m !in Recoverable(c, s.(posts := s.posts[p := s.posts[p].(answer := Some(code),
                                                                                     open := passes)]))
  {
    hide TablesAfter, StatusOf, ReachesStorage;
    assert m !in s.posts[p].batch;
  }

  /** What cannot be recovered before an event cannot be after it, unless it is submitted again. */
  lemma EventBringsNothing(c: Config, s: State, e: Event, m: Measurement)
    requires Enabled(c, s, e) && m !in Recoverable(c, s) && !Resubmits(e, m)
    ensures m !in Recoverable(c, Next(c, s, e))
  {
    hide Refused, Accepted, Rejected, Served, Looked, Spooled, Recoverable, WellIdentified, Perform, InFlight;
    match e
    case Submit(items) => HandsOver(c, s, e, m);
    case BeginFlush(t, force) => HandsOver(c, s, e, m);
    case BeginReplay(t, maxFiles) => OneTaskChanges(c, s, t, Replaying(maxFiles), m);
    case Send(t, p) => HandsOver(c, s, e, m);
    case SendWithoutClient(t, disk) => RefusalBringsNothing(c, s, t, disk, m);
    case Serve(p, req, connected, verdict) => ServingBringsNothing(c, s, p, req, connected, verdict, 0, m);
    case Intercept(p, code, passes) => ServingBringsNothing(c, s, p, GoodRequest([]), true, Commits, code, m);
    case Answered(t, disk) =>
      RefusalBringsNothing(c, s, t, disk, m);
      SettlingBringsNothing(c, s, t, m);
    case Unanswered(t, disk) => RefusalBringsNothing(c, s, t, disk, m);
    case Look(t, p) => LookingBringsNothing(c, s, t, p, m);
    case Cancel(t) => Forgets(c, s, e, m);
    case Fault(t) => Forgets(c, s, e, m);
    case SpoolBuffer(disk) =>
      NotBuffered(c, s, m);
      SpoolingBringsNothing(c, s, s.buffer, disk, m);
      EmptiedBuffer(c, Spooled(c, s, s.buffer, disk), m);
    case Damage(at) => Forgets(c, s, e, m);
    case Crash => Forgets(c, s, e, m);
  }

  lemma NotBuffered(c: Config, s: State, m: Measurement)
    requires m !in Recoverable(c, s)
    ensures m !in s.buffer
  {
  }

  lemma EmptiedBuffer(c: Config, s: State, m: Measurement)
    requires m !in Recoverable(c, s)
    ensures m !in Recoverable(c, s.(buffer := []))
  {
  }

  /** Events that move a batch from one place to another. */
  lemma HandsOver(c: Config, s: State, e: Event, m: Measurement)
    requires Enabled(c, s, e) && m !in Recoverable(c, s) && !Resubmits(e, m)
    requires e.Submit? || e.BeginFlush? || e.Send?
    ensures m !in Recoverable(c, Next(c, s, e))
  {
    hide WellIdentified;
  }

  /** Events that only take something away. */
  lemma Forgets(c: Config, s: State, e: Event, m: Measurement)
    requires Enabled(c, s, e) && m !in Recoverable(c, s)
    requires e.Cancel? || e.Fault? || e.Crash? || e.Damage?
    ensures m !in Recoverable(c, Next(c, s, e))
  {
    hide InFlight;
    if e.Damage? && e.at < |s.spool.files| {
      DamagingIsReadable(s.spool.files, e.at, m);
    }
  }

  lemma {:induction false} RunsBringNothing(c: Config, s: State, events: seq<Event>, e: State, m: Measurement)
    requires Reaches(c, s, events, e) && m !in Recoverable(c, s) && forall x | x in events :: !Resubmits(x, m)
    ensures m !in Recoverable(c, e)
    decreases |events|
  {
    hide Enabled, Next, Recoverable;
    if events != [] {
      assert events[0] in events;
      EventBringsNothing(c, s, events[0], m);
      RunsBringNothing(c, Next(c, s, events[0]), events[1..], e, m);
    }
  }
}
