/** How the protocol moves towards rest: with a server that accepts, whatever the order of events.

  Module DeliveryRestoration finds one way to rest from every state. Here every way leads there. A
  number measures the work that is left, each event that goes forward makes it smaller, and where none
  can, there is nothing left to deliver.
 */
module DeliveryProgress {
  import opened Delivery
  import opened DeliveryInvariant
  import opened DeliveryRecovery
  import opened DeliveryRestoration
  import opened DeliveryRuns
  import opened Ingest
  import opened Measurements
  import opened Outcomes
  import opened SpoolQueue
  import opened Storage
  import opened Wrappers

  /** The longest replay the agent begins. */
  const LONGEST := 100

  // ---- events that go forward -------------------------------------------------------------------------

  predicate WillRetry(post: Post) {
    post.answer.Some? && OutcomeOf(Status(post.answer.value)) == Retry
  }

  /** The replay will take the oldest file: it has yet to look, or has posted it and heard nothing bad. */
  predicate Claims(s: State, t: Task) {
    match t
    case Replaying(left) => left > 0
    case AwaitingReplay(left, name, batch, p) =>
      s.spool.files != [] && s.spool.files[0].name == name && p in s.posts && !WillRetry(s.posts[p])
    case _ => false
  }

  ghost predicate Claimed(s: State) {
    exists t :: t in s.tasks && Claims(s, s.tasks[t])
  }

  /** The agent goes on, the server accepts what comes to it, and the disk writes. Answers given before,
      by proxies or by the server, are still heard as they are. */
  predicate IsForward(c: Config, e: Event) {
    match e
    case BeginFlush(t, force) => true
    case BeginReplay(t, maxFiles) => maxFiles <= LONGEST
    case Send(t, p) => true
    case Serve(p, req, connected, verdict) => IsSuccess(StatusOf(req, c.maxBody, connected, verdict))
    case Answered(t, disk) => disk.writes
    case Look(t, p) => true
    case _ => false
  }

  ghost predicate Forward(c: Config, s: State, e: Event) {
    Enabled(c, s, e) && IsForward(c, e)
  }

  /** A replay that is begun over an empty spool, or where another will take the oldest file, or for no
      file at all. The flush loop begins such replays for ever. */
  ghost predicate IsSpare(s: State, e: Event) {
    e.BeginReplay? && (s.spool.files == [] || Claimed(s) || e.maxFiles == 0)
  }

  // ---- the work that is left ----------------------------------------------------------------------------

  /** More than the work of one replay. */
  const ROUND := 402

  /** What is left of a replay of some files, and of a flush, which may end in a replay and leave a file
      behind. */
  function TaskWork(c: Config, t: Task): nat {
    match t
    case Sending(batch, attempt, force) => 2 * ROUND + 4 * AttemptsLeft(c, attempt) + 3
    case Awaiting(batch, attempt, force, p) => 2 * ROUND + 4 * AttemptsLeft(c, attempt) + 1
    case Replaying(left) => 4 * left + 1
    case AwaitingReplay(left, name, batch, p) => if left == 0 then 0 else 4 * left - 1
  }

  function AttemptsLeft(c: Config, attempt: nat): nat {
    if attempt <= Attempts(c) then Attempts(c) - attempt else 0
  }

  ghost function TasksWork(c: Config, tasks: map<nat, Task>): nat
    decreases tasks.Keys
  {
    if tasks == map[] then 0
    else
      var t :| t in tasks;
      TaskWork(c, tasks[t]) + TasksWork(c, tasks - {t})
  }

  ghost function OpenPosts(posts: map<nat, Post>): set<nat> {
    set p | p in posts && IsOpen(posts[p])
  }

  /** The files that no replay under way will take. */
  ghost function FilesLeft(s: State): nat {
    if s.spool.files == [] then 0 else |s.spool.files| - if Claimed(s) then 1 else 0
  }

  function BufferWork(c: Config, buffer: seq<Measurement>): nat {
    if buffer == [] then 0 else 2 * ROUND + 4 * Attempts(c) + 1
  }

  ghost function Work(c: Config, s: State): nat {
    ROUND * FilesLeft(s) + TasksWork(c, s.tasks) + |OpenPosts(s.posts)| + BufferWork(c, s.buffer)
  }

  /** Any task can be taken out of the sum first. */
  lemma {:induction false} WorkWithout(c: Config, tasks: map<nat, Task>, t: nat)
    requires t in tasks
    ensures TasksWork(c, tasks) == TaskWork(c, tasks[t]) + TasksWork(c, tasks - {t})
    decreases tasks.Keys
  {
    hide TaskWork;
    var u :| u in tasks && TasksWork(c, tasks) == TaskWork(c, tasks[u]) + TasksWork(c, tasks - {u});
    if u != t {
      WorkWithout(c, tasks - {u}, t);
      assert tasks - {u} - {t} == tasks - {t} - {u};
      WorkWithout(c, tasks - {t}, u);
    }
  }

  lemma WorkWith(c: Config, tasks: map<nat, Task>, t: nat, task: Task)
    ensures TasksWork(c, tasks[t := task]) == TaskWork(c, task) + TasksWork(c, tasks - {t})
  {
    hide TaskWork;
    WorkWithout(c, tasks[t := task], t);
    assert tasks[t := task] - {t} == tasks - {t};
  }

  lemma TaskGone(tasks: map<nat, Task>, t: nat)
    ensures t !in tasks ==> tasks - {t} == tasks
  {
  }

  /** A post that is new, or that has come to the endpoint. */
  lemma PostsOpen(posts: map<nat, Post>, p: nat, post: Post)
    ensures p !in posts && post.open ==> |OpenPosts(posts[p := post])| == |OpenPosts(posts)| + 1
    ensures p in posts && posts[p].open && !post.open ==> |OpenPosts(posts[p := post])| == |OpenPosts(posts)| - 1
  {
    var after := OpenPosts(posts[p := post]);
    if p !in posts && post.open {
      assert after == OpenPosts(posts) + {p};
    }
    if p in posts && posts[p].open && !post.open {
      assert after == OpenPosts(posts) - {p};
    }
  }

  // ---- claims ----------------------------------------------------------------------------------------------

  /** Claims that stay: no file taken, no answer of the waiting replays changed for the worse, no claiming
      task gone. */
  lemma ClaimsStay(s: State, s': State)
    requires s.spool.files != [] && s'.spool.files != [] && |s'.spool.files| <= |s.spool.files|
    requires Claimed(s) ==> Claimed(s')
    ensures FilesLeft(s') <= FilesLeft(s)
  {
  }

  /** Where tasks other than t and their posts are as they were and the oldest file is the same, so are
      their claims. */
  lemma OtherClaims(s: State, s': State, t: nat)
    requires forall u | u in s.tasks && u != t :: u in s'.tasks && s'.tasks[u] == s.tasks[u]
    requires forall p | p in s.posts :: p in s'.posts && (WillRetry(s'.posts[p]) ==> WillRetry(s.posts[p]))
    requires s.spool.files != [] && s'.spool.files != [] && s.spool.files[0].name == s'.spool.files[0].name
    requires t in s.tasks && Claims(s, s.tasks[t]) ==> Claimed(s')
    ensures Claimed(s) ==> Claimed(s')
  {
    hide WillRetry;
    if Claimed(s) {
      var u :| u in s.tasks && Claims(s, s.tasks[u]);
      if u != t {
        assert u in s'.tasks && Claims(s', s'.tasks[u]);
      }
    }
  }

  // ---- every event that goes forward leaves less to do ---------------------------------------------------

  lemma SuccessIsNoRetry(c: Config, post: Post, code: int, open: bool)
    requires IsSuccess(code)
    ensures WillRetry(post.(answer := if post.answer.Some? then post.answer else Some(code), open := open))
            ==> WillRetry(post)
  {
  }

  lemma ServingProgresses(c: Config, s: State, e: Event)
    requires Forward(c, s, e) && e.Serve?
    ensures Work(c, Next(c, s, e)) < Work(c, s)
  {
    hide TablesAfter, StatusOf, ReachesStorage, WillRetry, IsSuccess;
    var s' := Next(c, s, e);
    var code := StatusOf(e.req, c.maxBody, e.connected, e.verdict);
    SuccessIsNoRetry(c, s.posts[e.post], code, false);
    PostsOpen(s.posts, e.post, s'.posts[e.post]);
    if s.spool.files != [] {
      FreshTask(s);
      var t :| t !in s.tasks;
      OtherClaims(s, s', t);
      ClaimsStay(s, s');
    }
  }

  lemma FreshTask(s: State)
    ensures exists t: nat :: t !in s.tasks
  {
    var t := FreshName(s.tasks);
  }

  lemma BeginningProgresses(c: Config, s: State, e: Event)
    requires Forward(c, s, e) && (e.BeginFlush? || (e.BeginReplay? && !IsSpare(s, e)))
    ensures Work(c, Next(c, s, e)) < Work(c, s)
  {
    var s' := Next(c, s, e);
    WorkWith(c, s.tasks, e.task, s'.tasks[e.task]);
    TaskGone(s.tasks, e.task);
    if s.spool.files != [] {
      OtherClaims(s, s', e.task);
      ClaimsStay(s, s');
    }
    if e.BeginReplay? {
      assert Claims(s', s'.tasks[e.task]);
    }
  }

  lemma SpareReplayAdds(c: Config, s: State, e: Event)
    requires Forward(c, s, e) && e.BeginReplay?
    ensures Work(c, Next(c, s, e)) < Work(c, s) + ROUND
  {
    var s' := Next(c, s, e);
    WorkWith(c, s.tasks, e.task, s'.tasks[e.task]);
    TaskGone(s.tasks, e.task);
    if s.spool.files != [] {
      OtherClaims(s, s', e.task);
      ClaimsStay(s, s');
    }
  }

  lemma SendingProgresses(c: Config, s: State, e: Event)
    requires Forward(c, s, e) && e.Send?
    ensures Work(c, Next(c, s, e)) < Work(c, s)
  {
    hide WillRetry;
    var s' := Next(c, s, e);
    WorkWithout(c, s.tasks, e.task);
    WorkWith(c, s.tasks, e.task, s'.tasks[e.task]);
    PostsOpen(s.posts, e.post, s'.posts[e.post]);
    if s.spool.files != [] {
      OtherClaims(s, s', e.task);
      ClaimsStay(s, s');
    }
  }

  lemma LookingProgresses(c: Config, s: State, e: Event)
    requires Forward(c, s, e) && e.Look?
    ensures Work(c, Next(c, s, e)) < Work(c, s)
  {
    hide WillRetry, Peeked, Quarantined, Batches;
    var s', left := Next(c, s, e), s.tasks[e.task].left;
    WorkWithout(c, s.tasks, e.task);
    if left == 0 {
      assert s'.tasks == s.tasks - {e.task};
      if s.spool.files != [] {
        OtherClaims(s, s', e.task);
        ClaimsStay(s, s');
      }
    } else {
      assert Claims(s, s.tasks[e.task]);
      PeekedIsShorter(s.spool.files);
      if s'.spool.files != [] {
        WorkWith(c, s.tasks, e.task, s'.tasks[e.task]);
        PostsOpen(s.posts, e.post, s'.posts[e.post]);
        assert Claims(s', s'.tasks[e.task]) by {
          PendingWillNotRetry();
        }
      } else {
        assert s'.tasks == s.tasks - {e.task};
      }
    }
  }

  lemma PendingWillNotRetry()
    ensures forall batch, open :: !WillRetry(Post(batch, None, open))
  {
  }

  /** The answer to a flush. */
  lemma FlushAnswerProgresses(c: Config, s: State, e: Event)
    requires Tracked(c, s) && Forward(c, s, e) && e.Answered? && s.tasks[e.task].Awaiting?
    ensures Work(c, Next(c, s, e)) < Work(c, s)
  {
    hide WillRetry, OutcomeOf, Spooled, Bounded, WellFormed;
    var s', task := Next(c, s, e), s.tasks[e.task];
    assert TaskTracked(c, s, task);
    WorkWithout(c, s.tasks, e.task);
    if OutcomeOf(Status(s.posts[task.post].answer.value)) == Retry && task.attempt == Attempts(c) {
      SpoolingAddsAFile(c, Without(s, e.task), task.batch, e.disk);
      ClaimsHeld(s, e.task);
    } else {
      if e.task in s'.tasks {
        WorkWith(c, s.tasks, e.task, s'.tasks[e.task]);
      } else {
        assert s'.tasks == s.tasks - {e.task};
      }
      if s.spool.files != [] {
        OtherClaims(s, s', e.task);
        ClaimsStay(s, s');
      }
    }
  }

  /** A task without a claim leaves the claims as they are. */
  lemma ClaimsHeld(s: State, t: nat)
    requires t in s.tasks && IsLive(s.tasks[t])
    ensures FilesLeft(Without(s, t)) == FilesLeft(s)
  {
    if Claimed(s) {
      var u :| u in s.tasks && Claims(s, s.tasks[u]);
      assert u in Without(s, t).tasks && Claims(Without(s, t), Without(s, t).tasks[u]);
    }
    if Claimed(Without(s, t)) {
      var u :| u in Without(s, t).tasks && Claims(Without(s, t), Without(s, t).tasks[u]);
      assert u in s.tasks && Claims(s, s.tasks[u]);
    }
  }

  lemma SpoolingAddsAFile(c: Config, s: State, batch: seq<Measurement>, disk: Disk)
    ensures var s' := Spooled(c, s, batch, disk);
            && s'.tasks == s.tasks && s'.posts == s.posts && s'.buffer == s.buffer
            && FilesLeft(s') <= FilesLeft(s) + 1
  {
    hide WillRetry, Batches, Perform, Evicted, WithinLimit;
    var s' := Spooled(c, s, batch, disk);
    if c.spoolConfigured && batch != [] && disk.writes {
      var file := SpoolFile(s.spool.clock + 1, batch, true, disk.size);
      assert s'.spool.files == WithinLimit(s.spool.files + [file], c.maxBytes) by {
        WritingIs(c, s, batch, disk);
      }
      AllOrEvicted(s.spool.files + [file], c.maxBytes);
      if s.spool.files != [] && |s'.spool.files| == |s.spool.files| + 1 {
        assert Evicted(s.spool.files + [file], c.maxBytes) == [];
        assert s'.spool.files == [] + s'.spool.files == s.spool.files + [file];
        assert s'.spool.files[0] == s.spool.files[0];
        FreshTask(s);
        var t :| t !in s.tasks;
        OtherClaims(s, s', t);
      }
    } else {
      assert s'.spool.files == s.spool.files by {
        NotWriting(c, s, batch, disk);
      }
      if s.spool.files != [] {
        FreshTask(s);
        var t :| t !in s.tasks;
        OtherClaims(s, s', t);
      }
    }
  }

  lemma WritingIs(c: Config, s: State, batch: seq<Measurement>, disk: Disk)
    requires c.spoolConfigured && batch != [] && disk.writes
    ensures Spooled(c, s, batch, disk).spool.files
            == WithinLimit(s.spool.files + [SpoolFile(s.spool.clock + 1, batch, true, disk.size)], c.maxBytes)
  {
  }

  lemma NotWriting(c: Config, s: State, batch: seq<Measurement>, disk: Disk)
    requires !(c.spoolConfigured && batch != [] && disk.writes)
    ensures Spooled(c, s, batch, disk).spool.files == s.spool.files
  {
  }

  /** The answer to a replay. */
  lemma ReplayAnswerProgresses(c: Config, s: State, e: Event)
    requires Tracked(c, s) && Forward(c, s, e) && e.Answered? && s.tasks[e.task].AwaitingReplay?
    ensures Work(c, Next(c, s, e)) < Work(c, s)
  {
    hide OutcomeOf, Bounded, Removed;
    var s', task := Next(c, s, e), s.tasks[e.task];
    assert TaskTracked(c, s, task);
    WorkWithout(c, s.tasks, e.task);
    var q := s.spool.files;
    if OutcomeOf(Status(s.posts[task.post].answer.value)) == Retry {
      assert s'.tasks == s.tasks - {e.task};
      if q != [] {
        OtherClaims(s, s', e.task);
        ClaimsStay(s, s');
      }
    } else {
      WorkWith(c, s.tasks, e.task, s'.tasks[e.task]);
      SettledFiles(q, task.name);
      if q != [] && q[0].name != task.name {
        OtherClaims(s, s', e.task);
        ClaimsStay(s, s');
      }
    }
  }

  /** A replay that holds no file of the spool removes none, and otherwise the oldest. */
  lemma SettledFiles(q: Queue, name: nat)
    requires InOrder(q) && forall f | f in q :: name <= f.name
    ensures if q != [] && q[0].name == name then |Removed(q, name)| == |q| - 1 else Removed(q, name) == q
  {
    if q != [] && q[0].name == name {
      RemoveTakesOne(q, 0);
    } else {
      forall f | f in q ensures f.name != name {
        var i :| 0 <= i < |q| && q[i] == f;
        assert q[0] in q;
      }
      NothingToRemove(q, name);
    }
  }

  lemma {:induction false} NothingToRemove(q: Queue, name: nat)
    requires forall f | f in q :: f.name != name
    ensures Removed(q, name) == q
  {
    if q != [] {
      NothingToRemove(q[1..], name);
    }
  }

  /** Every event that goes forward, but for a spare replay, leaves less to do. */
  lemma EventsProgress(c: Config, s: State, e: Event)
    requires Inv(c, s) && Forward(c, s, e)
    ensures if IsSpare(s, e) then Work(c, Next(c, s, e)) < Work(c, s) + ROUND else Work(c, Next(c, s, e)) < Work(c, s)
  {
    hide Next, Work, TaskTracked, Contained, Truthful, Accounted, IsSpare;
    match e
    case BeginFlush(t, force) =>
      NoFlushIsSpare(s, e);
      BeginningProgresses(c, s, e);
    case BeginReplay(t, maxFiles) =>
      SpareReplayAdds(c, s, e);
      if !IsSpare(s, e) {
        BeginningProgresses(c, s, e);
      }
    case Send(t, p) =>
      NoFlushIsSpare(s, e);
      SendingProgresses(c, s, e);
    case Serve(p, req, connected, verdict) =>
      NoFlushIsSpare(s, e);
      ServingProgresses(c, s, e);
    case Answered(t, disk) =>
      NoFlushIsSpare(s, e);
      if s.tasks[t].Awaiting? {
        FlushAnswerProgresses(c, s, e);
      } else {
        ReplayAnswerProgresses(c, s, e);
      }
    case Look(t, p) =>
      NoFlushIsSpare(s, e);
      LookingProgresses(c, s, e);
  }

  lemma NoFlushIsSpare(s: State, e: Event)
    requires !e.BeginReplay?
    ensures !IsSpare(s, e)
  {
  }

  // ---- nothing is given up without a name -------------------------------------------------------------------

  /** What can be recovered, was rejected for good, or went with an evicted file. */
  ghost function Kept(c: Config, s: State): set<Measurement> {
    Recoverable(c, s) + s.lost.rejected + s.lost.evicted
  }

  /** An event that changes no more than one task, its batch and the spool. */
  lemma OthersAreKept(c: Config, s: State, s': State, t: nat)
    requires s.stored <= s'.stored && s.lost.rejected <= s'.lost.rejected && s.lost.evicted <= s'.lost.evicted
    requires forall p | p in s.posts ::
               p in s'.posts && s'.posts[p].batch == s.posts[p].batch && (s.posts[p].open ==> s'.posts[p].open)
    requires forall u | u in s.tasks && u != t :: u in s'.tasks && s'.tasks[u] == s.tasks[u]
    requires Contents(s.buffer) <= Kept(c, s') && Readable(s.spool.files) <= Kept(c, s')
    requires t in s.tasks && CanRetry(c, s.tasks[t]) ==> Contents(s.tasks[t].batch) <= Kept(c, s')
    ensures Kept(c, s) <= Kept(c, s')
  {
    hide Readable;
    forall m | m in Open(s) ensures m in Kept(c, s') {
      var p :| p in s.posts && IsOpen(s.posts[p]) && m in s.posts[p].batch;
      assert p in s'.posts && IsOpen(s'.posts[p]);
    }
    forall m | m in Retriable(c, s.tasks) ensures m in Kept(c, s') {
      var u :| u in s.tasks && CanRetry(c, s.tasks[u]) && m in s.tasks[u].batch;
      if u != t {
        assert u in s'.tasks && CanRetry(c, s'.tasks[u]);
      }
    }
  }

  lemma ServingKeeps(c: Config, s: State, e: Event)
    requires Forward(c, s, e) && e.Serve?
    ensures Kept(c, s) <= Kept(c, Next(c, s, e))
  {
    hide TablesAfter;
    var s' := Next(c, s, e);
    forall m | m in Open(s) ensures m in Kept(c, s') {
      var p :| p in s.posts && IsOpen(s.posts[p]) && m in s.posts[p].batch;
      if p == e.post {
        assert m in s'.stored;
      } else {
        assert p in s'.posts && IsOpen(s'.posts[p]);
      }
    }
  }

  lemma BeginningKeeps(c: Config, s: State, e: Event)
    requires Forward(c, s, e) && (e.BeginFlush? || e.BeginReplay? || e.Send?)
    ensures Kept(c, s) <= Kept(c, Next(c, s, e))
  {
    var s' := Next(c, s, e);
    if e.BeginFlush? {
      assert CanRetry(c, s'.tasks[e.task]) && forall m | m in s.buffer :: m in Retriable(c, s'.tasks);
    }
    if e.Send? {
      assert e.post in s'.posts && IsOpen(s'.posts[e.post]);
      assert forall m | m in s.tasks[e.task].batch :: m in Open(s');
    }
    OthersAreKept(c, s, s', e.task);
  }

  lemma LookingKeeps(c: Config, s: State, e: Event)
    requires Forward(c, s, e) && e.Look?
    ensures Kept(c, s) <= Kept(c, Next(c, s, e))
  {
    hide Peeked, Quarantined, Batches;
    var s' := Next(c, s, e);
    PeekingKeepsReadable(s.spool.files);
    OthersAreKept(c, s, s', e.task);
  }

  /** A refused batch is with its flush still, in the spool, or was beyond help. */
  lemma RefusalKeeps(c: Config, s: State, t: nat, disk: Disk)
    requires Tracked(c, s) && t in s.tasks && HasPost(s, t) && disk.writes
    ensures Kept(c, s) <= Kept(c, Refused(c, s, t, disk))
  {
    hide Batches, Bounded, WellFormed, InOrder, Perform, Evicted, Readable;
    var s', task := Refused(c, s, t, disk), s.tasks[t];
    assert TaskTracked(c, s, task);
    if task.Awaiting? {
      if task.attempt < Attempts(c) {
        assert CanRetry(c, s'.tasks[t]) && forall m | m in task.batch :: m in Retriable(c, s'.tasks);
      } else if c.spoolConfigured {
        SpoolingKeeps(c, Without(s, t), task.batch, disk);
      }
    }
    OthersAreKept(c, s, s', t);
  }

  lemma SpoolingKeeps(c: Config, s: State, batch: seq<Measurement>, disk: Disk)
    requires c.spoolConfigured && disk.writes && batch != []
    ensures var s' := Spooled(c, s, batch, disk);
            Readable(s.spool.files) + Contents(batch) <= Readable(s'.spool.files) + s'.lost.evicted
  {
    hide Evicted, WithinLimit;
    var s' := Spooled(c, s, batch, disk);
    var file := SpoolFile(s.spool.clock + 1, batch, true, disk.size);
    var all := s.spool.files + [file];
    AllOrEvicted(all, c.maxBytes);
    WritingIs(c, s, batch, disk);
    assert Evicted(all, c.maxBytes) + s'.spool.files == all;
    forall m | m in Readable(s.spool.files) + Contents(batch) ensures m in Readable(s'.spool.files) + s'.lost.evicted {
      var f := file;
      if m in Readable(s.spool.files) {
        f :| f in s.spool.files && f.readable && m in f.batch;
      }
      assert f in all && f.readable && m in f.batch;
      assert f in Evicted(all, c.maxBytes) || f in s'.spool.files;
      assert f in Evicted(all, c.maxBytes) ==> m in Batches(Evicted(all, c.maxBytes));
    }
  }

  /** A batch that is settled is stored or rejected; so is that of the file removed with it. */
  lemma SettlingKeeps(c: Config, s: State, e: Event)
    requires Inv(c, s) && Forward(c, s, e) && e.Answered?
    requires OutcomeOf(Status(s.posts[s.tasks[e.task].post].answer.value)) != Retry
    ensures Kept(c, s) <= Kept(c, Next(c, s, e))
  {
    hide Removed, Batches, Bounded, Holds, Perform, Accounted, Contained, IsSuccess;
    var s', task := Next(c, s, e), s.tasks[e.task];
    var code := s.posts[task.post].answer.value;
    assert TaskTracked(c, s, task);
    AcceptanceIsSuccess(code);
    if IsSuccess(code) {
      SuccessfulPostIsStored(c, s, e.task);
    }
    assert Contents(task.batch) <= Kept(c, s');
    if task.AwaitingReplay? {
      RemovedContents(s.spool.files, task.name);
    }
    forall m | m in Readable(s.spool.files) ensures m in Kept(c, s') {
      var f :| f in s.spool.files && f.readable && m in f.batch;
      if f !in s'.spool.files {
        assert f.batch == task.batch;
      }
    }
    OthersAreKept(c, s, s', e.task);
  }

  /** No event that goes forward gives up a measurement, unless it records it as rejected or evicted. */
  lemma EventsKeep(c: Config, s: State, e: Event)
    requires Inv(c, s) && Forward(c, s, e)
    ensures Kept(c, s) <= Kept(c, Next(c, s, e))
  {
    hide Kept, Refused, Accepted, Rejected, Looked, Served, OutcomeOf, WellIdentified, Contained, Truthful, Accounted;
    match e
    case BeginFlush(t, force) => BeginningKeeps(c, s, e);
    case BeginReplay(t, maxFiles) => BeginningKeeps(c, s, e);
    case Send(t, p) => BeginningKeeps(c, s, e);
    case Serve(p, req, connected, verdict) => ServingKeeps(c, s, e);
    case Answered(t, disk) =>
      if OutcomeOf(Status(s.posts[s.tasks[t].post].answer.value)) == Retry {
        RefusalKeeps(c, s, t, disk);
      } else {
        SettlingKeeps(c, s, e);
      }
    case Look(t, p) => LookingKeeps(c, s, e);
  }

  // ---- rest ---------------------------------------------------------------------------------------------------

  /** Nothing can go forward if and only if the protocol is at rest. Spare replays are always possible. */
  lemma RestExactlyIf(c: Config, s: State)
    requires Inv(c, s)
    ensures AtRest(s) <==> forall e | Forward(c, s, e) :: IsSpare(s, e)
  {
    if !AtRest(s) {
      var e := WayForward(c, s);
    }
  }

  lemma WayForward(c: Config, s: State) returns (e: Event)
    requires Inv(c, s) && !AtRest(s)
    ensures Forward(c, s, e) && !IsSpare(s, e)
  {
    hide Contained, Accounted, Holds, Bounded, WellFormed, Claims;
    if !Quiet(s) {
      var p :| p in s.posts && IsOpen(s.posts[p]);
      e := Serve(p, GoodRequest(s.posts[p].batch), true, Commits);
    } else if s.tasks != map[] {
      var t :| t in s.tasks;
      var task := s.tasks[t];
      assert TaskTracked(c, s, task);
      if task.Sending? {
        var p := FreshName(s.posts);
        e := Send(t, p);
      } else if task.Replaying? {
        var p := FreshName(s.posts);
        e := Look(t, p);
      } else {
        assert SuccessIsTrue(s.posts[task.post], s.stored) && !IsOpen(s.posts[task.post]);
        e := Answered(t, Disk(true, 0));
      }
    } else if s.buffer != [] {
      e := BeginFlush(0, false);
    } else {
      e := BeginReplay(0, 1);
    }
  }

  // ---- whole runs -----------------------------------------------------------------------------------------------

  /** A run of events that go forward. */
  ghost predicate GoesForward(c: Config, s: State, events: seq<Event>, e: State)
    decreases |events|
  {
    if events == [] then s == e
    else Forward(c, s, events[0]) && GoesForward(c, Next(c, s, events[0]), events[1..], e)
  }

  /** How many of them begin a spare replay. */
  ghost function SpareReplays(c: Config, s: State, events: seq<Event>, e: State): nat
    requires GoesForward(c, s, events, e)
    decreases |events|
  {
    if events == [] then 0
    else SpareReplays(c, Next(c, s, events[0]), events[1..], e) + if IsSpare(s, events[0]) then 1 else 0
  }

  lemma {:induction false} ForwardRunsProgress(c: Config, s: State, events: seq<Event>, e: State)
    requires Inv(c, s) && GoesForward(c, s, events, e)
    ensures Inv(c, e) && Reaches(c, s, events, e) && Kept(c, s) <= Kept(c, e)
    ensures |events| + Work(c, e) <= Work(c, s) + ROUND * SpareReplays(c, s, events, e)
    decreases |events|
  {
    hide Inv, Kept, Work, Next, IsSpare, Enabled, IsForward;
    if events != [] {
      StepKeepsInvariant(c, s, events[0]);
      EventsKeep(c, s, events[0]);
      EventsProgress(c, s, events[0]);
      ForwardRunsProgress(c, Next(c, s, events[0]), events[1..], e);
    }
  }

  /** Delivery cannot be avoided. After any run, let the server accept and the agent go on, in any order.
      The number of events is bounded, spare replays apart. Where no other event can happen any more the
      agent is at rest, and everything that could be recovered is stored, or was rejected for good, or
      went with an evicted file. */
  lemma DeliveryIsInevitable(c: Config, events: seq<Event>, more: seq<Event>, e: State)
    requires Legal(c, events) && GoesForward(c, After(c, events), more, e)
    ensures var s := After(c, events);
            && Legal(c, events + more) && After(c, events + more) == e
            && |more| <= Work(c, s) + ROUND * SpareReplays(c, s, more, e)
            && (AtRest(e) <==> forall x | Forward(c, e, x) :: IsSpare(e, x))
            && (AtRest(e) ==> Recoverable(c, s) <= e.stored + e.lost.rejected + e.lost.evicted)
  {
    hide Inv, Work, AtRest, Recoverable, GoesForward, SpareReplays, Forward, IsSpare;
    var s := After(c, events);
    RunsKeepInvariant(c, events);
    ForwardRunsProgress(c, s, more, e);
    ReachesLegally(c, events, more, e);
    RestExactlyIf(c, e);
    if AtRest(e) {
      RestIsStored(c, e);
    }
  }
}
