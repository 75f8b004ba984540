/** The delivery protocol: any number of flushes and replays in flight at once, an unreliable
    network, a server that may or may not have written, a disk that may refuse or rot, and an
    agent that may be cancelled, fail or die. An event is what happens between two awaits. */
module Delivery {
  import opened Ingest
  import opened Measurements
  import opened Outcomes
  import opened SpoolQueue
  import opened Storage
  import opened Wrappers

  datatype Config = Config(maxRetries: int, spoolConfigured: bool, maxBytes: int, maxBody: nat)

  function Attempts(c: Config): nat {
    if c.maxRetries < 1 then 1 else c.maxRetries
  }

  /** A running flush or replay. `Sending` is about to make the given attempt, `Awaiting` waits for
      the answer to a post; a flush that was accepted goes on as a replay. */
  datatype Task =
    | Sending(batch: seq<Measurement>, attempt: nat, force: bool)
    | Awaiting(batch: seq<Measurement>, attempt: nat, force: bool, post: nat)
    | Replaying(left: nat)
    | AwaitingReplay(left: nat, name: nat, batch: seq<Measurement>, post: nat)

  /** A task that holds a batch taken from the buffer. A replay holds a copy of a file. */
  predicate IsLive(t: Task) {
    t.Sending? || t.Awaiting?
  }

  /** A request on the network. Posts outlive the task that made them. `open` says that it may yet come
      to the endpoint; a proxy can have answered it before that. */
  datatype Post = Post(batch: seq<Measurement>, answer: Option<int>, open: bool)

  /** The measurements that were given up, by the way in which they were. */
  datatype Losses = Losses(rejected: set<Measurement>, unspooled: set<Measurement>, unwritten: set<Measurement>,
                           evicted: set<Measurement>, quarantined: set<Measurement>,
                           cancelled: set<Measurement>, faulted: set<Measurement>, crashed: set<Measurement>)

  /** `submitted`, `stored`, `acked` and `lost` are the history the properties speak about. */
  datatype State = State(buffer: seq<Measurement>, spool: Directory, tasks: map<nat, Task>, posts: map<nat, Post>,
                         tables: Tables, submitted: set<Measurement>, stored: set<Measurement>,
                         acked: set<Measurement>, lost: Losses)

  const NO_LOSSES := Losses({}, {}, {}, {}, {}, {}, {}, {})

  const START := State([], EMPTY_DIRECTORY, map[], map[], EMPTY_TABLES, {}, {}, {}, NO_LOSSES)

  /** Whether the disk takes a spool file, and how many bytes it takes. */
  datatype Disk = Disk(writes: bool, size: nat)

  datatype Event =
    | Submit(items: seq<Measurement>)
    | BeginFlush(task: nat, force: bool)
    | BeginReplay(task: nat, maxFiles: nat)
    | Send(task: nat, post: nat)
    | SendWithoutClient(task: nat, disk: Disk)
    | Serve(post: nat, req: Request, connected: bool, verdict: Verdict)
    | Intercept(post: nat, code: int, passes: bool)  // a proxy answers, the request passing on or not
    | Answered(task: nat, disk: Disk)
    | Unanswered(task: nat, disk: Disk)    // timeout, reset, or the answer is lost
    | Look(task: nat, post: nat)
    | Cancel(task: nat)
    | Fault(task: nat)                     // an exception that is no HTTP error
    | SpoolBuffer(disk: Disk)              // stop(drain=False)
    | Damage(at: nat)
    | Crash

  predicate Enabled(c: Config, s: State, e: Event) {
    match e
    case Submit(items) => WellIdentified(s.submitted + Contents(items))
    case BeginFlush(t, force) => t !in s.tasks && s.buffer != []
    case BeginReplay(t, maxFiles) => t !in s.tasks && c.spoolConfigured
    case Send(t, p) => t in s.tasks && s.tasks[t].Sending? && p !in s.posts
    case SendWithoutClient(t, disk) => t in s.tasks && s.tasks[t].Sending?
    case Serve(p, req, connected, verdict) =>
      && p in s.posts && s.posts[p].open
      && (req.payload.Decoded? ==> req.payload.batch.measurements == s.posts[p].batch)
    case Intercept(p, code, passes) =>
      p in s.posts && s.posts[p].open && s.posts[p].answer.None? && !(200 <= code <= 299)
    case Answered(t, disk) => t in s.tasks && HasPost(s, t) && s.posts[s.tasks[t].post].answer.Some?
    case Unanswered(t, disk) => t in s.tasks && HasPost(s, t)
    case Look(t, p) => t in s.tasks && s.tasks[t].Replaying? && p !in s.posts
    case Cancel(t) => t in s.tasks
    case Fault(t) => t in s.tasks
    case SpoolBuffer(disk) => c.spoolConfigured
    case Damage(at) => true
    case Crash => true
  }

  predicate HasPost(s: State, t: nat)
    requires t in s.tasks
  {
    (s.tasks[t].Awaiting? || s.tasks[t].AwaitingReplay?) && s.tasks[t].post in s.posts
  }

  function Next(c: Config, s: State, e: Event): State
    requires Enabled(c, s, e)
  {
    match e
    case Submit(items) => s.(buffer := s.buffer + items, submitted := s.submitted + Contents(items))
    case BeginFlush(t, force) => s.(buffer := [], tasks := s.tasks[t := Sending(s.buffer, 1, force)])
    case BeginReplay(t, maxFiles) => s.(tasks := s.tasks[t := Replaying(maxFiles)])
    case Send(t, p) =>
      var task := s.tasks[t];
      s.(tasks := s.tasks[t := Awaiting(task.batch, task.attempt, task.force, p)],
         posts := s.posts[p := Post(task.batch, None, true)])
    case SendWithoutClient(t, disk) => Refused(c, s, t, disk)
    case Serve(p, req, connected, verdict) => Served(c, s, p, req, connected, verdict)
    case Intercept(p, code, passes) => s.(posts := s.posts[p := s.posts[p].(answer := Some(code), open := passes)])
    case Answered(t, disk) =>
      (match OutcomeOf(Status(s.posts[s.tasks[t].post].answer.value))
       case Shipped => Accepted(s, t)
       case Poison => Rejected(s, t)
       case Retry => Refused(c, s, t, disk))
    case Unanswered(t, disk) => Refused(c, s, t, disk)
    case Look(t, p) => Looked(s, t, p)
    case Cancel(t) => Cancelled(s, t)
    case Fault(t) => Faulted(s, t)
    case SpoolBuffer(disk) => Spooled(c, s, s.buffer, disk).(buffer := [])
    case Damage(at) => s.(spool := Perform(s.spool, SpoolQueue.Damage(at), c.maxBytes))
    case Crash =>
      s.(buffer := [], tasks := map[],
         lost := s.lost.(crashed := s.lost.crashed + Contents(s.buffer) + InFlight(s)))
  }

  function InFlight(s: State): set<Measurement> {
    set t, m | t in s.tasks && IsLive(s.tasks[t]) && m in s.tasks[t].batch :: m
  }

  function Without(s: State, t: nat): State {
    s.(tasks := s.tasks - {t})
  }

  /** The request comes to the ingest endpoint, which may write, and whose answer counts unless there is
      one already. */
  function Served(c: Config, s: State, p: nat, req: Request, connected: bool, verdict: Verdict): State
    requires p in s.posts
  {
    var after := TablesAfter(s.tables, req, c.maxBody, connected, verdict);
    var post, code := s.posts[p], StatusOf(req, c.maxBody, connected, verdict);
    s.(posts := s.posts[p := Post(post.batch, if post.answer.Some? then post.answer else Some(code), false)],
       tables := after,
       stored := if ReachesStorage(req, c.maxBody) && connected && verdict != RollsBack
                 then s.stored + Contents(s.posts[p].batch) else s.stored)
  }

  function Accepted(s: State, t: nat): State
    requires t in s.tasks && HasPost(s, t)
  {
    var s1 := s.(acked := s.acked + Contents(s.tasks[t].batch));
    match s.tasks[t]
    case Awaiting(batch, attempt, force, p) =>
      s1.(tasks := s.tasks[t := Replaying(if force then 100 else 3)])
    case AwaitingReplay(left, name, batch, p) =>
      s1.(tasks := s.tasks[t := Replaying(if left == 0 then 0 else left - 1)],
          spool := s.spool.(files := Removed(s.spool.files, name)))
  }

  function Rejected(s: State, t: nat): State
    requires t in s.tasks && HasPost(s, t)
  {
    var s1 := s.(lost := s.lost.(rejected := s.lost.rejected + Contents(s.tasks[t].batch)));
    match s.tasks[t]
    case Awaiting(batch, attempt, force, p) => Without(s1, t)
    case AwaitingReplay(left, name, batch, p) =>
      s1.(tasks := s.tasks[t := Replaying(if left == 0 then 0 else left - 1)],
          spool := s.spool.(files := Removed(s.spool.files, name)))
  }

  /** An attempt that is to be retried: a flush makes the next attempt or gives its batch to the
      spool; a replay stops and leaves the file. */
  function Refused(c: Config, s: State, t: nat, disk: Disk): State
    requires t in s.tasks && (IsLive(s.tasks[t]) || HasPost(s, t))
  {
    var task := s.tasks[t];
    if task.AwaitingReplay? then Without(s, t)
    else if task.attempt < Attempts(c) then s.(tasks := s.tasks[t := Sending(task.batch, task.attempt + 1, task.force)])
    else Spooled(c, Without(s, t), task.batch, disk)
  }

  function Spooled(c: Config, s: State, batch: seq<Measurement>, disk: Disk): State {
    if !c.spoolConfigured then s.(lost := s.lost.(unspooled := s.lost.unspooled + Contents(batch)))
    else
      var dir := Perform(s.spool, Append(batch, disk.writes, disk.size), c.maxBytes);
      if batch == [] then s
      else if !disk.writes then s.(spool := dir, lost := s.lost.(unwritten := s.lost.unwritten + Contents(batch)))
      else
        var file := SpoolFile(s.spool.clock + 1, batch, true, disk.size);
        s.(spool := dir,
           lost := s.lost.(evicted := s.lost.evicted + Batches(Evicted(s.spool.files + [file], c.maxBytes))))
  }

  /** A replay peeks at the oldest file and, with no await in between, posts it. */
  function Looked(s: State, t: nat, p: nat): State
    requires t in s.tasks && s.tasks[t].Replaying?
  {
    var left := s.tasks[t].left;
    if left == 0 then Without(s, t)
    else
      var q := Peeked(s.spool.files);
      var s1 := s.(spool := s.spool.(files := q),
                   lost := s.lost.(quarantined := s.lost.quarantined + Batches(Quarantined(s.spool.files))));
      if q == [] then Without(s1, t)
      else
        s1.(tasks := s.tasks[t := AwaitingReplay(left, q[0].name, q[0].batch, p)],
            posts := s.posts[p := Post(q[0].batch, None, true)])
  }

  /** The batch of a cancelled flush is gone, unless the flush had got to its replay. */
  function Cancelled(s: State, t: nat): State
    requires t in s.tasks
  {
    if IsLive(s.tasks[t])
    then Without(s, t).(lost := s.lost.(cancelled := s.lost.cancelled + Contents(s.tasks[t].batch)))
    else Without(s, t)
  }

  /** So is that of a flush that ends in an exception: a batch that cannot be encoded, a client that was
      closed. */
  function Faulted(s: State, t: nat): State
    requires t in s.tasks
  {
    if IsLive(s.tasks[t])
    then Without(s, t).(lost := s.lost.(faulted := s.lost.faulted + Contents(s.tasks[t].batch)))
    else Without(s, t)
  }

  // ---- runs --------------------------------------------------------------------

  /** Each event can happen where it does. */
  ghost predicate Legal(c: Config, events: seq<Event>)
    decreases |events|, 0
  {
    events == []
    || (Legal(c, events[..|events| - 1]) && Enabled(c, After(c, events[..|events| - 1]), events[|events| - 1]))
  }

  ghost function After(c: Config, events: seq<Event>): State
    requires Legal(c, events)
    decreases |events|, 1
  {
    if events == [] then START
    else Next(c, After(c, events[..|events| - 1]), events[|events| - 1])
  }
}
