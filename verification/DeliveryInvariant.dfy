/** What every event of the delivery protocol keeps. */
module DeliveryInvariant {
  import opened Delivery
  import opened Ingest
  import opened Measurements
  import opened Outcomes
  import opened SpoolQueue
  import opened Storage
  import opened Wrappers

  // ---- the spool -----------------------------------------------------------------

  /** Every file of `d'` is a file of `d`, perhaps gone bad, or was written since. */
  ghost predicate Continues(d: Directory, d': Directory) {
    && d.clock <= d'.clock
    && (forall f | f in d'.files ::
          f.name > d.clock || exists g :: g in d.files && g.name == f.name && g.batch == f.batch)
  }

  lemma PerformContinues(d: Directory, op: Op, maxBytes: int)
    requires WellFormed(d)
    ensures Continues(d, Perform(d, op, maxBytes))
  {
    match op
    case Append(batch, writes, size) =>
      var file := SpoolFile(d.clock + 1, batch, true, size);
      assert d.files + [file] == Evicted(d.files + [file], maxBytes) + Appended(d.files, file, maxBytes);
      assert forall f | f in Appended(d.files, file, maxBytes) :: f in d.files + [file];
    case Peek => assert d.files == Skipped(d.files) + Peeked(d.files);
    case Remove(name) => RemovedContents(d.files, name);
    case Damage(at) =>
  }

  lemma BatchesSplit(a: Queue, b: Queue)
    ensures Batches(a + b) == Batches(a) + Batches(b)
  {
    forall m
      ensures m in Batches(a + b) <==> m in Batches(a) || m in Batches(b)
    {
      if m in Batches(a) {
        var f :| f in a && m in f.batch;
        assert f in a + b;
      }
      if m in Batches(b) {
        var f :| f in b && m in f.batch;
        assert f in a + b;
      }
    }
  }

  lemma {:induction false} PeekKeepsBatches(q: Queue)
    ensures Batches(q) == Batches(Peeked(q)) + Batches(Quarantined(q))
  {
    if q == [] || Deliverable(q[0]) {
      assert Batches(Quarantined(q)) == {};
    } else {
      PeekKeepsBatches(q[1..]);
      assert q == [q[0]] + q[1..];
      BatchesSplit([q[0]], q[1..]);
      BatchesSplit(if q[0].readable then [] else [q[0]], Quarantined(q[1..]));
      assert q[0].readable ==> Batches([q[0]]) == {};
      assert Batches([]) == {};
    }
  }

  lemma DamageKeepsBatches(q: Queue, at: nat)
    requires at < |q|
    ensures Batches(q[at := q[at].(readable := false)]) == Batches(q)
  {
    var p := q[at := q[at].(readable := false)];
    forall f | f in q
      ensures exists g :: g in p && g.batch == f.batch
    {
      var i :| 0 <= i < |q| && q[i] == f;
      assert p[i] in p;
    }
    forall f | f in p
      ensures exists g :: g in q && g.batch == f.batch
    {
      var i :| 0 <= i < |p| && p[i] == f;
      assert q[i] in q;
    }
  }

  /** What an operation brings into the spool, and what it takes out of it. */
  ghost function Arriving(op: Op): set<Measurement> {
    if op.Append? then Contents(op.batch) else {}
  }

  ghost function Leaving(d: Directory, op: Op, maxBytes: int): set<Measurement> {
    match op
    case Append(batch, writes, size) =>
      if batch == [] then {}
      else if !writes then Contents(batch)
      else Batches(Evicted(d.files + [SpoolFile(d.clock + 1, batch, true, size)], maxBytes))
    case Peek => Batches(Quarantined(d.files))
    case Remove(name) => set f, m | f in d.files && f.name == name && m in f.batch :: m
    case Damage(at) => {}
  }

  /** Nothing appears in the spool that did not arrive, nothing disappears that did not leave. */
  lemma OpBalances(d: Directory, op: Op, maxBytes: int)
    ensures var after := Batches(Perform(d, op, maxBytes).files);
            after <= Batches(d.files) + Arriving(op) <= after + Leaving(d, op, maxBytes)
  {
    match op
    case Append(batch, writes, size) =>
      if batch != [] && writes {
        AppendBalances(d.files, SpoolFile(d.clock + 1, batch, true, size), maxBytes);
      }
    case Peek => PeekKeepsBatches(d.files);
    case Remove(name) => RemoveBalances(d.files, name);
    case Damage(at) =>
      if at < |d.files| {
        DamageKeepsBatches(d.files, at);
      }
  }

  lemma AppendBalances(q: Queue, file: SpoolFile, maxBytes: int)
    ensures Batches(Appended(q, file, maxBytes)) + Batches(Evicted(q + [file], maxBytes))
            == Batches(q) + Contents(file.batch)
  {
    hide Evicted, WithinLimit;
    var all := q + [file];
    AllOrEvicted(all, maxBytes);
    BatchesSplit(Evicted(all, maxBytes), WithinLimit(all, maxBytes));
    BatchesSplit(q, [file]);
    assert file in [file];
    assert Batches([file]) == Contents(file.batch);
  }

  lemma AllOrEvicted(q: Queue, maxBytes: int)
    ensures Evicted(q, maxBytes) + WithinLimit(q, maxBytes) == q
  {
  }

  lemma RemoveBalances(q: Queue, name: nat)
    ensures var gone := set f, m | f in q && f.name == name && m in f.batch :: m;
            Batches(Removed(q, name)) <= Batches(q) <= Batches(Removed(q, name)) + gone
  {
    hide Removed;
    RemovedContents(q, name);
    forall m | m in Batches(q)
      ensures m in Batches(Removed(q, name)) || exists f :: f in q && f.name == name && m in f.batch
    {
      var f :| f in q && m in f.batch;
      assert f.name != name ==> f in Removed(q, name);
    }
  }

  // ---- the invariant --------------------------------------------------------------

  /** Every replay holds the batch of the file it names, and no file is older than that one: it
      still is the head of the queue, if it is there at all. */
  ghost predicate TaskTracked(c: Config, s: State, t: Task) {
    match t
    case Sending(batch, attempt, force) => batch != [] && 1 <= attempt <= Attempts(c)
    case Awaiting(batch, attempt, force, p) =>
      batch != [] && 1 <= attempt <= Attempts(c) && p in s.posts && s.posts[p].batch == batch
    case Replaying(left) => true
    case AwaitingReplay(left, name, batch, p) =>
      && left > 0 && p in s.posts && s.posts[p].batch == batch && name <= s.spool.clock
      && (forall f | f in s.spool.files :: name <= f.name && (f.name == name ==> f.batch == batch))
  }

  ghost predicate Tracked(c: Config, s: State) {
    && WellFormed(s.spool)
    && Bounded(s.spool.files, c.maxBytes)
    && (!c.spoolConfigured ==> s.spool.files == [])
    && (forall t | t in s.tasks :: TaskTracked(c, s, s.tasks[t]))
  }

  function Carried(t: Task): set<Measurement> {
    if t.Replaying? then {} else Contents(t.batch)
  }

  /** Nothing travels that was not submitted. */
  ghost predicate Contained(s: State) {
    && WellIdentified(s.submitted)
    && Contents(s.buffer) <= s.submitted
    && (forall t | t in s.tasks :: Carried(s.tasks[t]) <= s.submitted)
    && (forall p | p in s.posts :: Contents(s.posts[p].batch) <= s.submitted)
    && Batches(s.spool.files) <= s.submitted
    && s.acked <= s.stored <= s.submitted
  }

  /** The tables hold exactly what was stored, an answer of success is true, and a request the endpoint
      will not see any more was answered. */
  ghost predicate Truthful(s: State) {
    && Holds(s.tables, s.stored)
    && (forall p | p in s.posts :: SuccessIsTrue(s.posts[p], s.stored))
  }

  ghost predicate SuccessIsTrue(p: Post, stored: set<Measurement>) {
    && (p.answer.Some? && IsSuccess(p.answer.value) ==> Contents(p.batch) <= stored)
    && (p.answer.Some? || p.open)
  }

  ghost function AllLost(l: Losses): set<Measurement> {
    l.rejected + l.unspooled + l.unwritten + l.evicted + l.quarantined + l.cancelled + l.faulted + l.crashed
  }

  /** No measurement is lost without a name for it. */
  ghost predicate Accounted(s: State) {
    s.submitted <= Contents(s.buffer) + InFlight(s) + Batches(s.spool.files) + s.stored + AllLost(s.lost)
  }

  ghost predicate Inv(c: Config, s: State) {
    Tracked(c, s) && Contained(s) && Truthful(s) && Accounted(s)
  }

  // ---- tracking -----------------------------------------------------------------

  lemma TracksOn(c: Config, s: State, s': State, t: Task)
    requires TaskTracked(c, s, t) && Continues(s.spool, s'.spool)
    requires forall p | p in s.posts :: p in s'.posts && s'.posts[p].batch == s.posts[p].batch
    ensures TaskTracked(c, s', t)
  {
  }

  /** What an event does to the spool directory. */
  function OpOf(c: Config, s: State, e: Event): Option<Op>
    requires Enabled(c, s, e)
  {
    match e
    case Answered(t, disk) =>
      if OutcomeOf(Status(s.posts[s.tasks[t].post].answer.value)) == Retry then RefusalOp(c, s, t, disk)
      else if s.tasks[t].AwaitingReplay? then Some(Remove(s.tasks[t].name)) else None
    case Unanswered(t, disk) => RefusalOp(c, s, t, disk)
    case SendWithoutClient(t, disk) => RefusalOp(c, s, t, disk)
    case SpoolBuffer(disk) => Some(Append(s.buffer, disk.writes, disk.size))
    case Look(t, p) => if s.tasks[t].left == 0 then None else Some(Peek)
    case Damage(at) => Some(SpoolQueue.Damage(at))
    case _ => None
  }

  function RefusalOp(c: Config, s: State, t: nat, disk: Disk): Option<Op>
    requires t in s.tasks && (IsLive(s.tasks[t]) || HasPost(s, t))
  {
    var task := s.tasks[t];
    if task.AwaitingReplay? || task.attempt < Attempts(c) || !c.spoolConfigured then None
    else Some(Append(task.batch, disk.writes, disk.size))
  }

  ghost predicate ActsOn(c: Config, d: Directory, op: Option<Op>, d': Directory) {
    match op
    case None => d' == d
    case Some(op) => d' == Perform(d, op, c.maxBytes) && (op.Append? ==> c.spoolConfigured)
  }

  lemma SpoolingActs(c: Config, s: State, batch: seq<Measurement>, disk: Disk)
    ensures ActsOn(c, s.spool, if c.spoolConfigured then Some(Append(batch, disk.writes, disk.size)) else None,
                   Spooled(c, s, batch, disk).spool)
  {
  }

  lemma RefusalActs(c: Config, s: State, t: nat, disk: Disk)
    requires t in s.tasks && (IsLive(s.tasks[t]) || HasPost(s, t))
    ensures ActsOn(c, s.spool, RefusalOp(c, s, t, disk), Refused(c, s, t, disk).spool)
  {
    hide Perform, Spooled;
    if !s.tasks[t].AwaitingReplay? {
      SpoolingActs(c, Without(s, t), s.tasks[t].batch, disk);
    }
  }

  lemma EventActs(c: Config, s: State, e: Event)
    requires Enabled(c, s, e)
    ensures ActsOn(c, s.spool, OpOf(c, s, e), Next(c, s, e).spool)
  {
    hide Refused, RefusalOp, Spooled, Served, Peeked, Removed, Appended, Batches, OutcomeOf, Quarantined, IsSuccess;
    match e
    case Answered(t, disk) => RefusalActs(c, s, t, disk);
    case Unanswered(t, disk) => RefusalActs(c, s, t, disk);
    case SendWithoutClient(t, disk) => RefusalActs(c, s, t, disk);
    case SpoolBuffer(disk) => SpoolingActs(c, s, s.buffer, disk);
    case Serve(p, req, connected, verdict) => ServingSparesTheSpool(c, s, p, req, connected, verdict);
    case _ =>
  }

  lemma ServingSparesTheSpool(c: Config, s: State, p: nat, req: Request, connected: bool, verdict: Verdict)
    requires p in s.posts
    ensures Served(c, s, p, req, connected, verdict).spool == s.spool
  {
  }

  lemma StepContinues(c: Config, s: State, e: Event)
    requires Tracked(c, s) && Enabled(c, s, e)
    ensures var s' := Next(c, s, e);
            && Continues(s.spool, s'.spool)
            && WellFormed(s'.spool) && Bounded(s'.spool.files, c.maxBytes)
            && (!c.spoolConfigured ==> s'.spool.files == [])
  {
    hide Perform, OpOf, Next, TaskTracked;
    EventActs(c, s, e);
    var op := OpOf(c, s, e);
    if op.Some? {
      DirectoryStep(c, s.spool, op.value);
    }
  }

  lemma DirectoryStep(c: Config, d: Directory, op: Op)
    requires WellFormed(d) && Bounded(d.files, c.maxBytes)
    ensures var d' := Perform(d, op, c.maxBytes);
            WellFormed(d') && Bounded(d'.files, c.maxBytes) && Continues(d, d')
    ensures d.files == [] && !op.Append? ==> Perform(d, op, c.maxBytes).files == []
  {
    StepKeepsForm(d, op, c.maxBytes);
    PerformContinues(d, op, c.maxBytes);
  }

  lemma PostsStay(c: Config, s: State, e: Event)
    requires Enabled(c, s, e)
    ensures forall p | p in s.posts ::
              p in Next(c, s, e).posts && Next(c, s, e).posts[p].batch == s.posts[p].batch
  {
    hide Perform, TablesAfter, StatusOf, ReachesStorage;
  }

  lemma KeepsTracked(c: Config, s: State, e: Event)
    requires Tracked(c, s) && Enabled(c, s, e)
    ensures Tracked(c, Next(c, s, e))
  {
    hide Perform, TablesAfter, StatusOf, ReachesStorage, TaskTracked, Continues;
    StepContinues(c, s, e);
    PostsStay(c, s, e);
    var s' := Next(c, s, e);
    forall t | t in s'.tasks
      ensures TaskTracked(c, s', s'.tasks[t])
    {
      if t in s.tasks && s'.tasks[t] == s.tasks[t] {
        TracksOn(c, s, s', s.tasks[t]);
      } else {
        NewTaskIsTracked(c, s, e, t);
      }
    }
  }

  /** The tasks an event starts or moves on. */
  lemma NewTaskIsTracked(c: Config, s: State, e: Event, t: nat)
    requires Tracked(c, s) && Enabled(c, s, e)
    requires var s' := Next(c, s, e); t in s'.tasks && !(t in s.tasks && s'.tasks[t] == s.tasks[t])
    ensures TaskTracked(c, Next(c, s, e), Next(c, s, e).tasks[t])
  {
    hide Refused, Looked, Spooled, Served, Removed, OutcomeOf, IsSuccess, Perform, Bounded, InOrder;
    match e
    case Look(t0, p) => LookedTaskIsTracked(c, s, t0, p);
    case Answered(t0, disk) => RefusedTaskIsTracked(c, s, t0, disk);
    case Unanswered(t0, disk) => RefusedTaskIsTracked(c, s, t0, disk);
    case SendWithoutClient(t0, disk) => RefusedTaskIsTracked(c, s, t0, disk);
    case SpoolBuffer(disk) => SpoolingSparesTasks(c, s, s.buffer, disk);
    case Serve(p, req, connected, verdict) => ServingSparesTasks(c, s, p, req, connected, verdict);
    case _ =>
  }

  lemma SpoolingSparesTasks(c: Config, s: State, batch: seq<Measurement>, disk: Disk)
    ensures Spooled(c, s, batch, disk).tasks == s.tasks
  {
  }

  lemma ServingSparesTasks(c: Config, s: State, p: nat, req: Request, connected: bool, verdict: Verdict)
    requires p in s.posts
    ensures Served(c, s, p, req, connected, verdict).tasks == s.tasks
  {
  }

  lemma RefusedTaskIsTracked(c: Config, s: State, t: nat, disk: Disk)
    requires Tracked(c, s) && t in s.tasks && (IsLive(s.tasks[t]) || HasPost(s, t))
    ensures var s' := Refused(c, s, t, disk);
            forall u | u in s'.tasks && !(u in s.tasks && s'.tasks[u] == s.tasks[u]) :: TaskTracked(c, s', s'.tasks[u])
  {
    hide Spooled, Bounded, InOrder;
    SpoolingSparesTasks(c, Without(s, t), if s.tasks[t].AwaitingReplay? then [] else s.tasks[t].batch, disk);
  }

  lemma LookedTaskIsTracked(c: Config, s: State, t: nat, p: nat)
    requires Tracked(c, s) && t in s.tasks && s.tasks[t].Replaying? && p !in s.posts
    ensures var s' := Looked(s, t, p);
            forall u | u in s'.tasks && !(u in s.tasks && s'.tasks[u] == s.tasks[u]) :: TaskTracked(c, s', s'.tasks[u])
  {
    hide Peeked, Skipped, Quarantined, Batches;
    SuffixInOrder(Skipped(s.spool.files), Peeked(s.spool.files));
  }

  // ---- containment ---------------------------------------------------------------

  lemma SuccessfulPostIsStored(c: Config, s: State, t: nat)
    requires Tracked(c, s) && Truthful(s) && t in s.tasks && HasPost(s, t)
    requires s.posts[s.tasks[t].post].answer.Some? && IsSuccess(s.posts[s.tasks[t].post].answer.value)
    ensures Contents(s.tasks[t].batch) <= s.stored
  {
    assert TaskTracked(c, s, s.tasks[t]);
    assert SuccessIsTrue(s.posts[s.tasks[t].post], s.stored);
  }

  lemma ArrivalsAreContained(c: Config, s: State, e: Event)
    requires Contained(s) && Enabled(c, s, e) && OpOf(c, s, e).Some?
    ensures Arriving(OpOf(c, s, e).value) <= s.submitted
  {
    hide OutcomeOf, Batches;
    match e
    case Answered(t, disk) => assert Carried(s.tasks[t]) <= s.submitted;
    case Unanswered(t, disk) => assert Carried(s.tasks[t]) <= s.submitted;
    case SendWithoutClient(t, disk) => assert Carried(s.tasks[t]) <= s.submitted;
    case _ =>
  }

  lemma FilesStayContained(c: Config, s: State, e: Event)
    requires Contained(s) && Enabled(c, s, e)
    ensures Batches(Next(c, s, e).spool.files) <= s.submitted
  {
    hide Next, Perform, Batches, OpOf, Arriving, Leaving;
    EventActs(c, s, e);
    if OpOf(c, s, e).Some? {
      ArrivalsAreContained(c, s, e);
      OpBalances(s.spool, OpOf(c, s, e).value, c.maxBytes);
    }
  }

  /** The history an event adds to. */
  lemma HistoryStaysContained(c: Config, s: State, e: Event)
    requires Tracked(c, s) && Contained(s) && Truthful(s) && Enabled(c, s, e)
    ensures var s' := Next(c, s, e);
            && s.submitted <= s'.submitted && WellIdentified(s'.submitted)
            && Contents(s'.buffer) <= s'.submitted
            && s'.acked <= s'.stored <= s'.submitted
  {
    hide Spooled, Looked, Perform, TablesAfter, StatusOf, ReachesStorage, Tracked, Truthful, IsSuccess, Batches;
    if e.Answered? {
      if IsSuccess(s.posts[s.tasks[e.task].post].answer.value) {
        SuccessfulPostIsStored(c, s, e.task);
      }
      AcceptanceIsSuccess(s.posts[s.tasks[e.task].post].answer.value);
      RefusalSparesHistory(c, s, e.task, e.disk);
    } else if e.Unanswered? || e.SendWithoutClient? {
      RefusalSparesHistory(c, s, e.task, e.disk);
    } else if e.SpoolBuffer? {
      SpoolingSparesHistory(c, s, s.buffer, e.disk);
    } else if e.Look? {
      LookingSparesHistory(s, e.task, e.post);
    }
  }

  lemma AcceptanceIsSuccess(code: int)
    ensures OutcomeOf(Status(code)) == Shipped <==> IsSuccess(code)
  {
  }

  ghost predicate SameHistory(s: State, s': State) {
    && s'.submitted == s.submitted && s'.stored == s.stored && s'.acked == s.acked && s'.tables == s.tables
    && s'.buffer == s.buffer
  }

  lemma SpoolingSparesHistory(c: Config, s: State, batch: seq<Measurement>, disk: Disk)
    ensures SameHistory(s, Spooled(c, s, batch, disk)) && Spooled(c, s, batch, disk).posts == s.posts
  {
  }

  lemma RefusalSparesHistory(c: Config, s: State, t: nat, disk: Disk)
    requires t in s.tasks && (IsLive(s.tasks[t]) || HasPost(s, t))
    ensures SameHistory(s, Refused(c, s, t, disk)) && Refused(c, s, t, disk).posts == s.posts
  {
    hide Spooled;
    if !s.tasks[t].AwaitingReplay? {
      SpoolingSparesHistory(c, Without(s, t), s.tasks[t].batch, disk);
    }
  }

  lemma LookingSparesHistory(s: State, t: nat, p: nat)
    requires t in s.tasks && s.tasks[t].Replaying?
    ensures SameHistory(s, Looked(s, t, p))
  {
  }

  lemma TravellersStayContained(c: Config, s: State, e: Event)
    requires Contained(s) && Enabled(c, s, e)
    ensures var s' := Next(c, s, e);
            && (forall t | t in s'.tasks :: Carried(s'.tasks[t]) <= s.submitted)
            && (forall p | p in s'.posts :: Contents(s'.posts[p].batch) <= s.submitted)
  {
    hide Spooled, Looked, Refused, Removed, TablesAfter, StatusOf, ReachesStorage, IsSuccess, Batches, OutcomeOf,
      WellIdentified, Perform;
    match e
    case Look(t, p) => LookTravels(s, t, p);
    case Answered(t, disk) => RefusalTravels(c, s, t, disk);
    case Unanswered(t, disk) => RefusalTravels(c, s, t, disk);
    case SendWithoutClient(t, disk) => RefusalTravels(c, s, t, disk);
    case SpoolBuffer(disk) =>
      SpoolingSparesTasks(c, s, s.buffer, disk);
      SpoolingSparesHistory(c, s, s.buffer, disk);
    case Send(t, p) => assert Carried(s.tasks[t]) <= s.submitted;
    case _ =>
  }

  lemma RefusalTravels(c: Config, s: State, t: nat, disk: Disk)
    requires Contained(s) && t in s.tasks && (IsLive(s.tasks[t]) || HasPost(s, t))
    ensures var s' := Refused(c, s, t, disk);
            && s'.posts == s.posts
            && forall u | u in s'.tasks :: Carried(s'.tasks[u]) <= s.submitted
  {
    hide Spooled, Batches, WellIdentified;
    RefusalSparesHistory(c, s, t, disk);
    assert Carried(s.tasks[t]) <= s.submitted;
    SpoolingSparesTasks(c, Without(s, t), if s.tasks[t].AwaitingReplay? then [] else s.tasks[t].batch, disk);
  }

  lemma LookTravels(s: State, t: nat, p: nat)
    requires Contained(s) && t in s.tasks && s.tasks[t].Replaying? && p !in s.posts
    ensures var s' := Looked(s, t, p);
            && (forall u | u in s'.tasks :: Carried(s'.tasks[u]) <= s.submitted)
            && (forall r | r in s'.posts :: Contents(s'.posts[r].batch) <= s.submitted)
  {
    hide Peeked, Quarantined, WellIdentified;
    assert s.spool.files == Skipped(s.spool.files) + Peeked(s.spool.files);
    forall m | Peeked(s.spool.files) != [] && m in Peeked(s.spool.files)[0].batch
      ensures m in s.submitted
    {
      assert Peeked(s.spool.files)[0] in s.spool.files;
      assert m in Batches(s.spool.files);
    }
  }

  lemma KeepsContained(c: Config, s: State, e: Event)
    requires Tracked(c, s) && Contained(s) && Truthful(s) && Enabled(c, s, e)
    ensures Contained(Next(c, s, e))
  {
    hide Next, Batches, Tracked, Truthful, Carried, WellIdentified;
    FilesStayContained(c, s, e);
    HistoryStaysContained(c, s, e);
    TravellersStayContained(c, s, e);
  }

  // ---- truth -----------------------------------------------------------------------

  /** An answer of success from the ingest endpoint is never a lie, and the tables hold what was
      written, once, whatever was written before. */
  lemma ServingIsTruthful(c: Config, s: State, p: nat, req: Request, connected: bool, verdict: Verdict)
    requires Contained(s) && Truthful(s) && Enabled(c, s, Serve(p, req, connected, verdict))
    ensures Truthful(Served(c, s, p, req, connected, verdict))
  {
    hide Written, Batches, Carried, Holds;
    var s', batch := Served(c, s, p, req, connected, verdict), s.posts[p].batch;
    var code := StatusOf(req, c.maxBody, connected, verdict);
    if s'.stored != s.stored || s'.tables != s.tables {
      WellIdentifiedSubset(s.stored + Contents(batch), s.submitted);
      WriteStores(s.tables, s.stored, batch);
    }
    AnswerMeansStored(req, c.maxBody, connected, verdict);
    forall r | r in s'.posts
      ensures SuccessIsTrue(s'.posts[r], s'.stored)
    {
      if r != p {
        assert SuccessIsTrue(s.posts[r], s.stored);
      }
    }
  }

  lemma WellIdentifiedSubset(a: set<Measurement>, b: set<Measurement>)
    requires a <= b && WellIdentified(b)
    ensures WellIdentified(a)
  {
  }

  lemma AnswerMeansStored(req: Request, maxBody: nat, connected: bool, verdict: Verdict)
    ensures IsSuccess(StatusOf(req, maxBody, connected, verdict)) ==>
              && req.payload.Decoded?
              && (req.payload.batch.measurements == []
                  || (ReachesStorage(req, maxBody) && connected && verdict != RollsBack))
  {
  }

  lemma KeepsTruthful(c: Config, s: State, e: Event)
    requires Contained(s) && Truthful(s) && Enabled(c, s, e)
    ensures Truthful(Next(c, s, e))
  {
    hide Spooled, Looked, Refused, Removed, Served, Batches, OutcomeOf, WellIdentified, Perform, Holds;
    match e
    case Serve(p, req, connected, verdict) => ServingIsTruthful(c, s, p, req, connected, verdict);
    case Answered(t, disk) => RefusalSparesHistory(c, s, t, disk);
    case Unanswered(t, disk) => RefusalSparesHistory(c, s, t, disk);
    case SendWithoutClient(t, disk) => RefusalSparesHistory(c, s, t, disk);
    case SpoolBuffer(disk) => SpoolingSparesHistory(c, s, s.buffer, disk);
    case Look(t, p) => LookingIsTruthful(s, t, p);
    case Intercept(p, code, passes) =>
      forall r | r in s.posts
        ensures SuccessIsTrue(Next(c, s, e).posts[r], s.stored)
      {
        assert SuccessIsTrue(s.posts[r], s.stored);
      }
    case _ =>
  }

  lemma LookingIsTruthful(s: State, t: nat, p: nat)
    requires Truthful(s) && t in s.tasks && s.tasks[t].Replaying? && p !in s.posts
    ensures Truthful(Looked(s, t, p))
  {
    hide Peeked, Quarantined, Batches, Holds, SuccessIsTrue;
    PendingIsTrue(s.stored);
  }

  lemma PendingIsTrue(stored: set<Measurement>)
    ensures forall batch :: SuccessIsTrue(Post(batch, None, true), stored)
  {
  }

  // ---- accounting ------------------------------------------------------------------

  /** A loss once recorded stays recorded, and what is stored stays stored. */
  lemma HistoryGrows(c: Config, s: State, e: Event)
    requires Enabled(c, s, e)
    ensures AllLost(s.lost) <= AllLost(Next(c, s, e).lost) && s.stored <= Next(c, s, e).stored
  {
    hide Refused, Removed, Peeked, Batches, OutcomeOf, WellIdentified, Perform, Quarantined, IsSuccess;
    match e
    case Answered(t, disk) => RefusalGrows(c, s, t, disk);
    case Unanswered(t, disk) => RefusalGrows(c, s, t, disk);
    case SendWithoutClient(t, disk) => RefusalGrows(c, s, t, disk);
    case _ =>
  }

  lemma RefusalGrows(c: Config, s: State, t: nat, disk: Disk)
    requires t in s.tasks && (IsLive(s.tasks[t]) || HasPost(s, t))
    ensures AllLost(s.lost) <= AllLost(Refused(c, s, t, disk).lost) && s.stored == Refused(c, s, t, disk).stored
  {
    hide Perform, Batches;
  }

  /** What leaves the spool was delivered, or the loss is recorded. */
  lemma DeparturesAreNamed(c: Config, s: State, e: Event)
    requires Tracked(c, s) && Truthful(s) && Enabled(c, s, e) && OpOf(c, s, e).Some?
    ensures Leaving(s.spool, OpOf(c, s, e).value, c.maxBytes) <= AllLost(Next(c, s, e).lost) + Next(c, s, e).stored
  {
    hide Refused, Spooled, Looked, Removed, Peeked, Batches, WellIdentified, Perform, Quarantined, Bounded, Holds;
    match e
    case Answered(t, disk) =>
      if OutcomeOf(Status(s.posts[s.tasks[t].post].answer.value)) == Retry {
        RefusalIsNamed(c, s, t, disk);
      } else {
        SettledFileIsNamed(c, s, t, disk);
      }
    case Unanswered(t, disk) => RefusalIsNamed(c, s, t, disk);
    case SendWithoutClient(t, disk) => RefusalIsNamed(c, s, t, disk);
    case SpoolBuffer(disk) => SpoolingIsNamed(c, s, s.buffer, disk);
    case Look(t, p) => LookIsNamed(s, t, p);
    case _ =>
  }

  lemma SpoolingIsNamed(c: Config, s: State, batch: seq<Measurement>, disk: Disk)
    requires c.spoolConfigured
    ensures Leaving(s.spool, Append(batch, disk.writes, disk.size), c.maxBytes)
            <= AllLost(Spooled(c, s, batch, disk).lost)
  {
    hide Batches, Perform;
  }

  lemma RefusalIsNamed(c: Config, s: State, t: nat, disk: Disk)
    requires t in s.tasks && (IsLive(s.tasks[t]) || HasPost(s, t)) && RefusalOp(c, s, t, disk).Some?
    ensures Leaving(s.spool, RefusalOp(c, s, t, disk).value, c.maxBytes) <= AllLost(Refused(c, s, t, disk).lost)
  {
    hide Spooled, Leaving, AllLost, Batches;
    SpoolingIsNamed(c, Without(s, t), s.tasks[t].batch, disk);
  }

  lemma SettledFileIsNamed(c: Config, s: State, t: nat, disk: Disk)
    requires Tracked(c, s) && Truthful(s) && Enabled(c, s, Answered(t, disk)) && s.tasks[t].AwaitingReplay?
    requires OutcomeOf(Status(s.posts[s.tasks[t].post].answer.value)) != Retry
    ensures var s' := Next(c, s, Answered(t, disk));
            Leaving(s.spool, Remove(s.tasks[t].name), c.maxBytes) <= AllLost(s'.lost) + s'.stored
  {
    hide Removed, Refused, IsSuccess, Bounded, Holds;
    assert TaskTracked(c, s, s.tasks[t]);
    var code := s.posts[s.tasks[t].post].answer.value;
    AcceptanceIsSuccess(code);
    if IsSuccess(code) {
      SuccessfulPostIsStored(c, s, t);
    }
    assert Leaving(s.spool, Remove(s.tasks[t].name), c.maxBytes) <= Contents(s.tasks[t].batch);
  }

  lemma LookIsNamed(s: State, t: nat, p: nat)
    requires t in s.tasks && s.tasks[t].Replaying? && s.tasks[t].left != 0
    ensures Batches(Quarantined(s.spool.files)) <= AllLost(Looked(s, t, p).lost)
  {
    hide Quarantined, Peeked, Batches;
  }

  /** Changing one task moves no batch but the one it holds. */
  lemma OneTaskMoves(s: State, s': State, t: nat)
    requires forall u | u in s.tasks && u != t :: u in s'.tasks && s'.tasks[u] == s.tasks[u]
    ensures InFlight(s)
            <= InFlight(s') + (if t in s.tasks && IsLive(s.tasks[t]) then Contents(s.tasks[t].batch) else {})
    ensures t in s'.tasks && IsLive(s'.tasks[t]) ==> Contents(s'.tasks[t].batch) <= InFlight(s')
  {
  }

  /** A batch in the agent's memory is there still, went to the spool, was delivered, or its loss
      is recorded. */
  ghost predicate MemoryKept(c: Config, s: State, s': State, arrived: set<Measurement>) {
    Contents(s.buffer) + InFlight(s) + (s'.submitted - s.submitted)
    <= Contents(s'.buffer) + InFlight(s') + arrived + s'.stored + AllLost(s'.lost)
  }

  ghost function Arrived(op: Option<Op>): set<Measurement> {
    if op.Some? then Arriving(op.value) else {}
  }

  lemma MemoryIsKept(c: Config, s: State, e: Event)
    requires Tracked(c, s) && Truthful(s) && Enabled(c, s, e)
    ensures MemoryKept(c, s, Next(c, s, e), Arrived(OpOf(c, s, e)))
  {
    hide Refused, Spooled, Looked, Served, Removed, RefusalOp, InFlight, WellIdentified, Perform, Tracked, Truthful,
         AllLost,
      Accepted, Rejected, IsSuccess, POISON_STATUSES;
    match e
    case Submit(items) => OneTaskMoves(s, Next(c, s, e), 0);
    case BeginFlush(t, force) => OneTaskMoves(s, Next(c, s, e), t);
    case BeginReplay(t, maxFiles) => OneTaskMoves(s, Next(c, s, e), t);
    case Send(t, p) => OneTaskMoves(s, Next(c, s, e), t);
    case SendWithoutClient(t, disk) => RefusalKeepsMemory(c, s, t, disk);
    case Serve(p, req, connected, verdict) => ServingKeepsMemory(c, s, p, req, connected, verdict);
    case Intercept(p, code, passes) => OneTaskMoves(s, Next(c, s, e), 0);
    case Answered(t, disk) =>
      RefusalKeepsMemory(c, s, t, disk);
      AnswerKeepsMemory(c, s, t);
    case Unanswered(t, disk) => RefusalKeepsMemory(c, s, t, disk);
    case Look(t, p) => LookKeepsMemory(s, t, p);
    case Cancel(t) => CancelKeepsMemory(s, t);
    case Fault(t) => CancelKeepsMemory(s, t);
    case SpoolBuffer(disk) =>
      SpoolingSparesTasks(c, s, s.buffer, disk);
      SpoolingSparesHistory(c, s, s.buffer, disk);
      OneTaskMoves(s, Next(c, s, e), 0);
    case Damage(at) => OneTaskMoves(s, Next(c, s, e), 0);
    case Crash => CrashKeepsMemory(c, s);
  }

  lemma CrashKeepsMemory(c: Config, s: State)
    ensures MemoryKept(c, s, Next(c, s, Crash), {})
  {
    hide InFlight;
  }

  lemma CancelKeepsMemory(s: State, t: nat)
    requires t in s.tasks
    ensures forall c :: MemoryKept(c, s, Cancelled(s, t), {}) && MemoryKept(c, s, Faulted(s, t), {})
  {
    hide InFlight;
    OneTaskMoves(s, Cancelled(s, t), t);
    OneTaskMoves(s, Faulted(s, t), t);
  }

  lemma ServingKeepsMemory(c: Config, s: State, p: nat, req: Request, connected: bool, verdict: Verdict)
    requires p in s.posts
    ensures MemoryKept(c, s, Served(c, s, p, req, connected, verdict), {})
  {
    hide InFlight, TablesAfter, StatusOf;
    OneTaskMoves(s, Served(c, s, p, req, connected, verdict), 0);
  }

  lemma LookKeepsMemory(s: State, t: nat, p: nat)
    requires t in s.tasks && s.tasks[t].Replaying?
    ensures forall c, arrived :: MemoryKept(c, s, Looked(s, t, p), arrived)
  {
    hide InFlight, Peeked, Quarantined, Batches, AllLost;
    OneTaskMoves(s, Looked(s, t, p), t);
  }

  lemma RefusalKeepsMemory(c: Config, s: State, t: nat, disk: Disk)
    requires t in s.tasks && (IsLive(s.tasks[t]) || HasPost(s, t))
    ensures MemoryKept(c, s, Refused(c, s, t, disk), Arrived(RefusalOp(c, s, t, disk)))
  {
    hide InFlight, Perform, Batches;
    OneTaskMoves(s, Refused(c, s, t, disk), t);
  }

  lemma AnswerKeepsMemory(c: Config, s: State, t: nat)
    requires Tracked(c, s) && Truthful(s) && t in s.tasks && HasPost(s, t) && s.posts[s.tasks[t].post].answer.Some?
    ensures OutcomeOf(Status(s.posts[s.tasks[t].post].answer.value)) == Shipped ==>
              forall arrived :: MemoryKept(c, s, Accepted(s, t), arrived)
    ensures forall arrived :: MemoryKept(c, s, Rejected(s, t), arrived)
  {
    hide InFlight, Removed, Tracked, Truthful, IsSuccess;
    OneTaskMoves(s, Accepted(s, t), t);
    OneTaskMoves(s, Rejected(s, t), t);
    AcceptanceIsSuccess(s.posts[s.tasks[t].post].answer.value);
    if IsSuccess(s.posts[s.tasks[t].post].answer.value) {
      SuccessfulPostIsStored(c, s, t);
    }
  }

  lemma KeepsAccounted(c: Config, s: State, e: Event)
    requires Inv(c, s) && Enabled(c, s, e)
    ensures Accounted(Next(c, s, e))
  {
    hide Next, OpOf, Perform, Arriving, Leaving, InFlight, Batches, AllLost, Tracked, Contained, Truthful;
    HistoryGrows(c, s, e);
    MemoryIsKept(c, s, e);
    EventActs(c, s, e);
    var s' := Next(c, s, e);
    if OpOf(c, s, e).Some? {
      OpBalances(s.spool, OpOf(c, s, e).value, c.maxBytes);
      DeparturesAreNamed(c, s, e);
      assert Batches(s.spool.files) + Arrived(OpOf(c, s, e)) <= Batches(s'.spool.files) + AllLost(s'.lost) + s'.stored;
    } else {
      assert Batches(s.spool.files) + Arrived(OpOf(c, s, e)) <= Batches(s'.spool.files);
    }
    forall m | m in s'.submitted
      ensures m in Contents(s'.buffer) + InFlight(s') + Batches(s'.spool.files) + s'.stored + AllLost(s'.lost)
    {
      var arrived := Arrived(OpOf(c, s, e));
      if m in Contents(s.buffer) + InFlight(s) + (s'.submitted - s.submitted) {
        assert m in Contents(s'.buffer) + InFlight(s') + arrived + s'.stored + AllLost(s'.lost);
      } else {
        assert m in s.submitted;
        assert m in Batches(s.spool.files) + s.stored + AllLost(s.lost);
      }
      assert m in Batches(s.spool.files) || m in arrived ==> m in Batches(s.spool.files) + arrived;
    }
  }

  // ---- whole runs --------------------------------------------------------------------

  lemma StartIsInvariant(c: Config)
    ensures Inv(c, START)
  {
    assert Contents([]) == {};
  }

  lemma StepKeepsInvariant(c: Config, s: State, e: Event)
    requires Inv(c, s) && Enabled(c, s, e)
    ensures Inv(c, Next(c, s, e))
  {
    hide Next, Tracked, Contained, Truthful, Accounted;
    KeepsTracked(c, s, e);
    KeepsContained(c, s, e);
    KeepsTruthful(c, s, e);
    KeepsAccounted(c, s, e);
  }

  lemma {:induction false} RunsKeepInvariant(c: Config, events: seq<Event>)
    requires Legal(c, events)
    ensures Inv(c, After(c, events))
    decreases |events|
  {
    hide Next, Enabled, Inv;
    if events == [] {
      StartIsInvariant(c);
    } else {
      var init := events[..|events| - 1];
      RunsKeepInvariant(c, init);
      StepKeepsInvariant(c, After(c, init), events[|events| - 1]);
    }
  }
}
