/** How the protocol comes to rest: from any reachable state, calmly, and without losing anything that
    could still be delivered. */
module DeliveryRestoration {
  import opened Delivery
  import opened DeliveryInvariant
  import opened DeliveryRecovery
  import opened DeliveryRuns
  import opened DeliveryTheorems
  import opened Ingest
  import opened Measurements
  import opened SpoolQueue
  import opened Storage
  import opened Wrappers

  /** Nothing is submitted and nothing breaks: the agent and the server only go on. */
  predicate IsCalm(e: Event) {
    !e.Submit? && !e.Cancel? && !e.Fault? && !e.Crash? && !e.Damage? && !RefusesWrite(e)
  }

  /** A calm run that keeps the invariant and everything that can be recovered. */
  ghost predicate Keeps(c: Config, d: State, e: State) {
    && (exists events :: Reaches(c, d, events, e) && forall x | x in events :: IsCalm(x))
    && Inv(c, e)
    && Recoverable(c, d) <= Recoverable(c, e)
  }

  lemma KeepsStill(c: Config, d: State)
    requires Inv(c, d)
    ensures Keeps(c, d, d)
  {
    hide Inv, Recoverable;
    var none: seq<Event> := [];
    assert Reaches(c, d, none, d) && forall x | x in none :: IsCalm(x);
  }

  lemma KeepsOn(c: Config, d: State, e: State, f: State)
    requires Keeps(c, d, e) && Keeps(c, e, f)
    ensures Keeps(c, d, f)
  {
    hide Inv, Recoverable, Reaches, IsCalm;
    var first :| Reaches(c, d, first, e) && forall x | x in first :: IsCalm(x);
    var second :| Reaches(c, e, second, f) && forall x | x in second :: IsCalm(x);
    ReachesOn(c, d, first, e, second, f);
    assert forall x | x in first + second :: IsCalm(x);
  }

  lemma OneStep(c: Config, d: State, event: Event)
    requires Inv(c, d) && Enabled(c, d, event) && IsCalm(event)
    requires Recoverable(c, d) <= Recoverable(c, Next(c, d, event))
    ensures Keeps(c, d, Next(c, d, event))
  {
    hide Inv, Recoverable, Enabled, Next, IsCalm;
    StepKeepsInvariant(c, d, event);
    var none: seq<Event> := [];
    assert [event][1..] == none;
    assert Reaches(c, d, [event], Next(c, d, event));
    assert forall x | x in [event] :: x == event;
  }

  /** No request is on its way. */
  ghost predicate Quiet(s: State) {
    forall p | p in s.posts :: !IsOpen(s.posts[p])
  }

  // ---- the server catches up ------------------------------------------------------------------------

  lemma ServeOne(c: Config, d: State, p: nat) returns (e: State)
    requires Inv(c, d) && p in d.posts && IsOpen(d.posts[p])
    ensures Keeps(c, d, e)
    ensures e.tasks == d.tasks && e.buffer == d.buffer && e.spool == d.spool
    ensures var answer := d.posts[p].answer;
            e.posts == d.posts[p := Post(d.posts[p].batch, if answer.Some? then answer else Some(201), false)]
    ensures Contents(d.posts[p].batch) <= e.stored && d.stored <= e.stored
  {
    hide Inv, TablesAfter;
    var event := Serve(p, GoodRequest(d.posts[p].batch), true, Commits);
    e := Next(c, d, event);
    assert Recoverable(c, d) <= Recoverable(c, e) by {
      assert Contents(d.posts[p].batch) <= e.stored && d.stored <= e.stored;
      forall m | m in Open(d) ensures m in Open(e) || m in e.stored {
        var q :| q in d.posts && IsOpen(d.posts[q]) && m in d.posts[q].batch;
        assert q != p ==> q in e.posts && IsOpen(e.posts[q]);
      }
    }
    OneStep(c, d, event);
  }

  lemma {:induction false} ServeAll(c: Config, d: State, open: set<nat>) returns (e: State)
    requires Inv(c, d) && forall p | p in d.posts && IsOpen(d.posts[p]) :: p in open
    ensures Keeps(c, d, e) && Quiet(e)
    ensures e.tasks == d.tasks && e.buffer == d.buffer && e.spool == d.spool
    decreases |open|
  {
    hide Inv, Keeps;
    if open == {} {
      KeepsStill(c, d);
      e := d;
    } else {
      var p :| p in open;
      var d1 := d;
      if p in d.posts && IsOpen(d.posts[p]) {
        d1 := ServeOne(c, d, p);
      } else {
        KeepsStill(c, d);
      }
      KeepsInv(c, d, d1);
      e := ServeAll(c, d1, open - {p});
      KeepsOn(c, d, d1, e);
    }
  }

  lemma KeepsInv(c: Config, d: State, e: State)
    requires Keeps(c, d, e)
    ensures Inv(c, e)
  {
  }

  // ---- tasks end ----------------------------------------------------------------------------------------

  /** A step that changes no more than the agent's tasks and spool, the batch of the task apart. */
  lemma TaskStep(c: Config, d: State, event: Event, t: nat)
    requires Inv(c, d) && Enabled(c, d, event) && IsCalm(event) && t in d.tasks
    requires var e := Next(c, d, event);
             && e.stored == d.stored && e.buffer == d.buffer
             && (forall p | p in d.posts :: p in e.posts && e.posts[p] == d.posts[p])
             && (forall u | u in d.tasks && u != t :: u in e.tasks && e.tasks[u] == d.tasks[u])
             && (CanRetry(c, d.tasks[t]) ==> Contents(d.tasks[t].batch) <= Recoverable(c, e))
             && Readable(d.spool.files) <= Recoverable(c, e)
    ensures Keeps(c, d, Next(c, d, event))
  {
    hide Inv, Enabled, Next, IsCalm;
    var e := Next(c, d, event);
    assert Open(d) <= Open(e);
    forall m | m in Retriable(c, d.tasks) ensures m in Recoverable(c, e) {
      var u :| u in d.tasks && CanRetry(c, d.tasks[u]) && m in d.tasks[u].batch;
      if u != t {
        assert u in e.tasks && e.tasks[u] == d.tasks[u];
        assert m in Retriable(c, e.tasks);
      }
    }
    OneStep(c, d, event);
  }

  /** A replay that waits gives up: its file stays where it is. */
  lemma AbandonWaiting(c: Config, d: State, t: nat) returns (e: State)
    requires Inv(c, d) && t in d.tasks && d.tasks[t].AwaitingReplay?
    ensures Keeps(c, d, e) && e.tasks == d.tasks - {t} && e.buffer == d.buffer && e.spool == d.spool
    ensures e.posts == d.posts
  {
    hide Perform, Batches, Evicted, Bounded, Holds, WellFormed;
    var event := Unanswered(t, Disk(true, 0));
    assert TaskTracked(c, d, d.tasks[t]);
    e := Next(c, d, event);
    assert Readable(d.spool.files) <= Recoverable(c, e);
    TaskStep(c, d, event, t);
  }

  /** A replay takes one look and, if it posts a file, lets it be stored and gives up. */
  lemma AbandonReplay(c: Config, d: State, t: nat) returns (e: State)
    requires Inv(c, d) && t in d.tasks && d.tasks[t].Replaying? && Quiet(d)
    ensures Keeps(c, d, e) && e.tasks == d.tasks - {t} && e.buffer == d.buffer && Quiet(e)
  {
    hide Inv, Keeps, Peeked, Quarantined, Batches;
    var p := FreshName(d.posts);
    LookKeeps(c, d, t, p);
    var d1 := Next(c, d, Look(t, p));
    KeepsInv(c, d, d1);
    if t !in d1.tasks {
      e := d1;
    } else {
      var d2 := ServeOne(c, d1, p);
      KeepsOn(c, d, d1, d2);
      KeepsInv(c, d1, d2);
      e := AbandonWaiting(c, d2, t);
      KeepsOn(c, d, d2, e);
    }
  }

  lemma LookKeeps(c: Config, d: State, t: nat, p: nat)
    requires Inv(c, d) && t in d.tasks && d.tasks[t].Replaying? && p !in d.posts
    ensures Keeps(c, d, Next(c, d, Look(t, p)))
  {
    hide Inv, Peeked, Quarantined, Batches;
    PeekingKeepsReadable(d.spool.files);
    var e := Next(c, d, Look(t, p));
    assert Readable(d.spool.files) == Readable(e.spool.files) by {
      if d.tasks[t].left != 0 {
        assert e.spool.files == Peeked(d.spool.files);
      }
    }
    TaskStep(c, d, Look(t, p), t);
  }

  ghost predicate OnlyLive(tasks: map<nat, Task>) {
    forall t | t in tasks :: IsLive(tasks[t])
  }

  lemma {:induction false} AbandonAll(c: Config, d: State, names: set<nat>) returns (e: State)
    requires Inv(c, d) && Quiet(d) && forall t | t in d.tasks && !IsLive(d.tasks[t]) :: t in names
    ensures Keeps(c, d, e) && Quiet(e) && OnlyLive(e.tasks) && e.buffer == d.buffer
    decreases |names|
  {
    hide Inv, Keeps;
    if names == {} {
      KeepsStill(c, d);
      e := d;
    } else {
      var t :| t in names;
      var d1 := d;
      if t in d.tasks && d.tasks[t].AwaitingReplay? {
        d1 := AbandonWaiting(c, d, t);
      } else if t in d.tasks && d.tasks[t].Replaying? {
        d1 := AbandonReplay(c, d, t);
      } else {
        KeepsStill(c, d);
      }
      KeepsInv(c, d, d1);
      e := AbandonAll(c, d1, names - {t});
      KeepsOn(c, d, d1, e);
    }
  }

  // ---- the spool drains ---------------------------------------------------------------------------------

  lemma {:induction false} DrainLoop(c: Config, d: State, t: nat, left: nat) returns (e: State)
    requires Inv(c, d) && Quiet(d) && t in d.tasks && d.tasks[t] == Replaying(left) && left >= |d.spool.files|
    ensures Keeps(c, d, e) && Quiet(e)
    ensures e.tasks == d.tasks - {t} && e.buffer == d.buffer && e.spool.files == []
    decreases left
  {
    hide Inv, Keeps, Peeked, Quarantined, Batches, Removed;
    var p := FreshName(d.posts);
    LookKeeps(c, d, t, p);
    var d1 := Next(c, d, Look(t, p));
    KeepsInv(c, d, d1);
    if t !in d1.tasks {
      e := d1;
    } else {
      var d2 := ServeOne(c, d1, p);
      KeepsInv(c, d1, d2);
      KeepsOn(c, d, d1, d2);
      PeekedIsShorter(d.spool.files);
      var d3 := SettleFile(c, d2, t);
      KeepsInv(c, d2, d3);
      KeepsOn(c, d, d2, d3);
      e := DrainLoop(c, d3, t, left - 1);
      assert d3.tasks - {t} == d.tasks - {t};
      KeepsOn(c, d, d3, e);
    }
  }

  lemma PeekedIsShorter(q: Queue)
    ensures |Peeked(q)| <= |q|
  {
    assert Skipped(q) + Peeked(q) == q;
  }

  /** A file whose post was answered by a success is removed. */
  lemma SettleFile(c: Config, d: State, t: nat) returns (e: State)
    requires Inv(c, d) && Quiet(d) && t in d.tasks && d.tasks[t].AwaitingReplay?
    requires HasPost(d, t) && d.posts[d.tasks[t].post].answer == Some(201)
    requires d.spool.files != [] && d.tasks[t].name == d.spool.files[0].name
    ensures Keeps(c, d, e) && Quiet(e) && e.buffer == d.buffer
    ensures d.tasks[t].left > 0 && e.tasks == d.tasks[t := Replaying(d.tasks[t].left - 1)]
    ensures |e.spool.files| < |d.spool.files|
  {
    hide Removed, Batches, Bounded, Holds, Perform;
    var event := Answered(t, Disk(true, 0));
    var task := d.tasks[t];
    assert TaskTracked(c, d, task);
    e := Next(c, d, event);
    RemovedContents(d.spool.files, task.name);
    RemoveTakesOne(d.spool.files, 0);
    SuccessfulPostIsStored(c, d, t);
    forall m | m in Readable(d.spool.files) ensures m in Recoverable(c, e) {
      var f :| f in d.spool.files && f.readable && m in f.batch;
      if f.name == task.name {
        assert f.batch == task.batch;
        assert m in d.stored;
      } else {
        assert f in e.spool.files;
        assert m in Readable(e.spool.files);
      }
    }
    TaskStep(c, d, event, t);
  }

  /** With a spool configured, a replay of all files empties it; without one it is empty. */
  lemma Drain(c: Config, d: State) returns (e: State)
    requires Inv(c, d) && Quiet(d)
    ensures Keeps(c, d, e) && Quiet(e)
    ensures e.tasks == d.tasks && e.buffer == d.buffer && e.spool.files == []
  {
    hide Keeps, Recoverable, Contained, Truthful, Accounted;
    if !c.spoolConfigured {
      KeepsStill(c, d);
      e := d;
    } else {
      var t := FreshName(d.tasks);
      var n := |d.spool.files|;
      BeginKeeps(c, d, BeginReplay(t, n), t);
      var d1 := Next(c, d, BeginReplay(t, n));
      KeepsInv(c, d, d1);
      e := DrainLoop(c, d1, t, n);
      assert d1.tasks - {t} == d.tasks;
      KeepsOn(c, d, d1, e);
    }
  }

  lemma BeginKeeps(c: Config, d: State, event: Event, t: nat)
    requires Inv(c, d) && Enabled(c, d, event) && t !in d.tasks
    requires event == BeginReplay(t, |d.spool.files|) || event == BeginFlush(t, false)
    ensures Keeps(c, d, Next(c, d, event))
  {
    hide Inv, Batches;
    var e := Next(c, d, event);
    forall m | m in Retriable(c, d.tasks) ensures m in Retriable(c, e.tasks) {
      var u :| u in d.tasks && CanRetry(c, d.tasks[u]) && m in d.tasks[u].batch;
      assert u in e.tasks && e.tasks[u] == d.tasks[u];
    }
    if event.BeginFlush? {
      assert CanRetry(c, e.tasks[t]) && forall m | m in d.buffer :: m in Retriable(c, e.tasks);
    }
    OneStep(c, d, event);
  }

  // ---- flushes end -----------------------------------------------------------------------------------------

  /** A flush about to send: the server takes the batch, and the replay after it finds nothing. */
  lemma SendToTheEnd(c: Config, d: State, t: nat) returns (e: State)
    requires Inv(c, d) && Quiet(d) && t in d.tasks && d.tasks[t].Sending? && d.spool.files == []
    ensures Keeps(c, d, e) && Quiet(e)
    ensures e.tasks == d.tasks - {t} && e.buffer == d.buffer && e.spool.files == []
  {
    hide Inv, Keeps, Recoverable, Quarantined, Batches;
    var p := FreshName(d.posts);
    SendKeeps(c, d, t, p);
    var d1 := Next(c, d, Send(t, p));
    KeepsInv(c, d, d1);
    var d2 := ServeOne(c, d1, p);
    KeepsInv(c, d1, d2);
    KeepsOn(c, d, d1, d2);
    AcceptKeeps(c, d2, t);
    var d3 := Next(c, d2, Answered(t, Disk(true, 0)));
    KeepsInv(c, d2, d3);
    KeepsOn(c, d, d2, d3);
    var p3 := FreshName(d3.posts);
    LookKeeps(c, d3, t, p3);
    e := Next(c, d3, Look(t, p3));
    NothingToPeek();
    KeepsOn(c, d, d3, e);
    assert e.tasks == d.tasks - {t};
  }

  lemma NothingToPeek()
    ensures Peeked([]) == []
  {
  }

  lemma SendKeeps(c: Config, d: State, t: nat, p: nat)
    requires Inv(c, d) && t in d.tasks && d.tasks[t].Sending? && p !in d.posts
    ensures Keeps(c, d, Next(c, d, Send(t, p)))
  {
    hide Inv, Batches;
    var e := Next(c, d, Send(t, p));
    assert p in e.posts && IsOpen(e.posts[p]) && forall m | m in d.tasks[t].batch :: m in Open(e);
    TaskStep(c, d, Send(t, p), t);
  }

  lemma AcceptKeeps(c: Config, d: State, t: nat)
    requires Inv(c, d) && t in d.tasks && d.tasks[t].Awaiting? && HasPost(d, t)
    requires d.posts[d.tasks[t].post].answer == Some(201)
    ensures Keeps(c, d, Next(c, d, Answered(t, Disk(true, 0))))
    ensures var e := Next(c, d, Answered(t, Disk(true, 0)));
            && e.tasks == d.tasks[t := Replaying(if d.tasks[t].force then 100 else 3)]
            && e.spool == d.spool && e.buffer == d.buffer && e.posts == d.posts
  {
    hide Batches, Bounded, Holds, Perform, WellFormed;
    assert TaskTracked(c, d, d.tasks[t]);
    SuccessfulPostIsStored(c, d, t);
    TaskStep(c, d, Answered(t, Disk(true, 0)), t);
  }

  /** A waiting flush whose answer is lost: it tries again, or spools its batch, or was beyond help. */
  lemma GiveUpWaiting(c: Config, d: State, t: nat) returns (e: State)
    requires Inv(c, d) && Quiet(d) && t in d.tasks && d.tasks[t].Awaiting? && d.spool.files == []
    ensures Keeps(c, d, e) && Quiet(e) && e.buffer == d.buffer
    ensures if d.tasks[t].attempt < Attempts(c)
            then e.spool == d.spool && t in e.tasks && e.tasks[t].Sending? && e.tasks - {t} == d.tasks - {t}
            else e.tasks == d.tasks - {t}
  {
    hide Batches, Holds, WellFormed;
    var event := Unanswered(t, Disk(true, 0));
    var task := d.tasks[t];
    assert TaskTracked(c, d, task);
    e := Next(c, d, event);
    assert forall m | m in Readable(d.spool.files) :: false;
    if task.attempt < Attempts(c) {
      assert t in e.tasks && CanRetry(c, e.tasks[t]) && forall m | m in task.batch :: m in Retriable(c, e.tasks);
    } else if c.spoolConfigured {
      var file := SpoolFile(d.spool.clock + 1, task.batch, true, 0);
      OneFileStays(file, c.maxBytes);
      assert e.spool.files == [file] && file in e.spool.files;
      assert forall m | m in task.batch :: m in Readable(e.spool.files);
    }
    TaskStep(c, d, event, t);
  }

  lemma OneFileStays(file: SpoolFile, maxBytes: int)
    ensures Appended([], file, maxBytes) == [file]
  {
    assert [] + [file] == [file];
    EvictionIsLeast([file], maxBytes);
    assert Evicted([file], maxBytes) == [];
  }

  lemma FinishFlush(c: Config, d: State, t: nat) returns (e: State)
    requires Inv(c, d) && Quiet(d) && t in d.tasks && IsLive(d.tasks[t]) && d.spool.files == []
    ensures Keeps(c, d, e) && Quiet(e)
    ensures e.tasks == d.tasks - {t} && e.buffer == d.buffer && e.spool.files == []
  {
    hide Inv, Keeps, Recoverable;
    if d.tasks[t].Sending? {
      e := SendToTheEnd(c, d, t);
    } else {
      var d1 := GiveUpWaiting(c, d, t);
      KeepsInv(c, d, d1);
      if t in d1.tasks {
        e := SendToTheEnd(c, d1, t);
      } else {
        e := Drain(c, d1);
      }
      KeepsOn(c, d, d1, e);
    }
  }

  lemma {:induction false} FinishAll(c: Config, d: State) returns (e: State)
    requires Inv(c, d) && Quiet(d) && OnlyLive(d.tasks) && d.spool.files == []
    ensures Keeps(c, d, e) && Quiet(e)
    ensures e.tasks == map[] && e.buffer == d.buffer && e.spool.files == []
    decreases |d.tasks|
  {
    hide Inv, Keeps;
    if d.tasks == map[] {
      KeepsStill(c, d);
      e := d;
    } else {
      var t :| t in d.tasks;
      var d1 := FinishFlush(c, d, t);
      KeepsInv(c, d, d1);
      assert d1.tasks.Keys == d.tasks.Keys - {t};
      e := FinishAll(c, d1);
      KeepsOn(c, d, d1, e);
    }
  }

  lemma FlushBuffer(c: Config, d: State) returns (e: State)
    requires Inv(c, d) && Quiet(d) && d.tasks == map[] && d.spool.files == []
    ensures Keeps(c, d, e) && Quiet(e) && e.tasks == map[] && e.buffer == [] && e.spool.files == []
  {
    hide Inv, Keeps, Recoverable;
    if d.buffer == [] {
      KeepsStill(c, d);
      e := d;
    } else {
      BeginKeeps(c, d, BeginFlush(0, false), 0);
      var d1 := Next(c, d, BeginFlush(0, false));
      KeepsInv(c, d, d1);
      e := FinishFlush(c, d1, 0);
      KeepsOn(c, d, d1, e);
    }
  }

  // ---- recovery ---------------------------------------------------------------------------------------------

  /** Nothing queued, spooled, under way or on the network. */
  ghost predicate AtRest(s: State) {
    s.buffer == [] && s.tasks == map[] && s.spool.files == [] && Quiet(s)
  }

  lemma RestIsStored(c: Config, s: State)
    requires AtRest(s)
    ensures Recoverable(c, s) == s.stored
  {
  }

  lemma Settle(c: Config, d: State) returns (e: State)
    requires Inv(c, d)
    ensures Keeps(c, d, e) && AtRest(e)
  {
    hide Inv, Keeps, Recoverable;
    var d1 := ServeAll(c, d, d.posts.Keys);
    KeepsInv(c, d, d1);
    var d2 := AbandonAll(c, d1, d1.tasks.Keys);
    KeepsInv(c, d1, d2);
    KeepsOn(c, d, d1, d2);
    var d3 := Drain(c, d2);
    KeepsInv(c, d2, d3);
    KeepsOn(c, d, d2, d3);
    var d4 := FinishAll(c, d3);
    KeepsInv(c, d3, d4);
    KeepsOn(c, d, d3, d4);
    e := FlushBuffer(c, d4);
    KeepsOn(c, d, d4, e);
  }

  ghost predicate AllCalm(events: seq<Event>) {
    forall e | e in events :: IsCalm(e)
  }

  /** Every legal run can be continued calmly to rest, with everything stored that could be recovered. */
  lemma EveryRunRecovers(c: Config, events: seq<Event>)
    requires Legal(c, events)
    ensures exists more ::
              && AllCalm(more) && Legal(c, events + more)
              && AtRest(After(c, events + more))
              && Recoverable(c, After(c, events)) <= After(c, events + more).stored
  {
    hide Inv, Recoverable, Reaches, Legal, After, AtRest, IsCalm;
    RunsKeepInvariant(c, events);
    var e := Settle(c, After(c, events));
    RestIsStored(c, e);
    var more :| Reaches(c, After(c, events), more, e) && forall x | x in more :: IsCalm(x);
    ReachesLegally(c, events, more, e);
    assert AllCalm(more);
  }

  /** With a spool and readable files, what has not been lost can be recovered: so after some calm
      continuation every submitted measurement that was not lost by then is stored. */
  lemma UnlostIsRecoverable(c: Config, events: seq<Event>, m: Measurement)
    requires Legal(c, events) && c.spoolConfigured
    requires var s := After(c, events);
             m in s.submitted && m !in AllLost(s.lost) && forall f | f in s.spool.files :: f.readable
    ensures m in Recoverable(c, After(c, events))
  {
    hide Legal, After, Tracked, Contained, Truthful, AllLost;
    RunsKeepInvariant(c, events);
    var s := After(c, events);
    if m in InFlight(s) {
      var t :| t in s.tasks && IsLive(s.tasks[t]) && m in s.tasks[t].batch;
      assert CanRetry(c, s.tasks[t]);
    }
    if m in Batches(s.spool.files) {
      var f :| f in s.spool.files && m in f.batch;
      assert m in Readable(s.spool.files);
    }
  }

  predicate Resubmitted(events: seq<Event>, m: Measurement) {
    exists e | e in events :: Resubmits(e, m)
  }

  /** The run can be continued, without submitting the measurement again, so that it is stored. */
  ghost predicate CanStillBeStored(c: Config, events: seq<Event>, m: Measurement)
    requires Legal(c, events)
  {
    exists more :: Legal(c, events + more) && !Resubmitted(more, m) && m in After(c, events + more).stored
  }

  /** After any run, a measurement can still come to be stored if and only if it is stored, queued, in a
      readable file, in an open request, or with a flush that can retry. */
  lemma StorableExactlyIf(c: Config, events: seq<Event>, m: Measurement)
    requires Legal(c, events)
    ensures CanStillBeStored(c, events, m) <==> m in Recoverable(c, After(c, events))
  {
    hide Recoverable, After, Legal, AtRest, IsCalm;
    if m in Recoverable(c, After(c, events)) {
      EveryRunRecovers(c, events);
      var more :| AllCalm(more) && Legal(c, events + more) && AtRest(After(c, events + more))
                  && Recoverable(c, After(c, events)) <= After(c, events + more).stored;
      CalmSubmitsNothing(more, m);
    } else if CanStillBeStored(c, events, m) {
      var more :| Legal(c, events + more) && !Resubmitted(more, m) && m in After(c, events + more).stored;
      LegalReaches(c, events, more);
      RunsBringNothing(c, After(c, events), more, After(c, events + more), m);
      StoredIsRecoverable(c, After(c, events + more));
    }
  }

  lemma CalmSubmitsNothing(events: seq<Event>, m: Measurement)
    requires AllCalm(events)
    ensures !Resubmitted(events, m)
  {
  }

  lemma StoredIsRecoverable(c: Config, s: State)
    ensures s.stored <= Recoverable(c, s)
  {
  }

  lemma {:induction false} LegalReaches(c: Config, events: seq<Event>, more: seq<Event>)
    requires Legal(c, events) && Legal(c, events + more)
    ensures Reaches(c, After(c, events), more, After(c, events + more))
    decreases |more|
  {
    hide Enabled, Next;
    if more == [] {
      assert events + more == events;
    } else {
      var longer := events + [more[0]];
      assert longer + more[1..] == events + more;
      LegalPrefix(c, events + more, |longer|);
      assert (events + more)[..|longer|] == longer && longer[..|longer| - 1] == events;
      LegalReaches(c, longer, more[1..]);
    }
  }

  lemma {:induction false} LegalPrefix(c: Config, events: seq<Event>, n: nat)
    requires Legal(c, events) && n <= |events|
    ensures Legal(c, events[..n])
    decreases |events|
  {
    hide Enabled, Next;
    if n == |events| {
      assert events[..n] == events;
    } else {
      var init := events[..|events| - 1];
      assert init[..n] == events[..n];
      LegalPrefix(c, init, n);
    }
  }

  // ---- cancellation ---------------------------------------------------------------------------------------

  /** What is left when a task has been cancelled. */
  ghost function LeftBehind(c: Config, s: State, t: nat): set<Measurement> {
    s.stored + Contents(s.buffer) + Readable(s.spool.files) + Open(s) + Retriable(c, s.tasks - {t})
  }

  /** A cancelled flush loses a measurement of its batch for good if and only if nothing else has it: it
      is not stored, queued, in a readable file, in an open request, nor with another flush that can
      retry. */
  lemma CancellationLosesExactlyIf(c: Config, events: seq<Event>, t: nat, m: Measurement)
    requires Legal(c, events) && t in After(c, events).tasks
    requires IsLive(After(c, events).tasks[t]) && m in After(c, events).tasks[t].batch
    ensures var cancelled := events + [Cancel(t)];
            && Legal(c, cancelled)
            && m in After(c, cancelled).lost.cancelled
            && (CanStillBeStored(c, cancelled, m) <==> m in LeftBehind(c, After(c, events), t))
  {
    var cancelled := events + [Cancel(t)];
    assert cancelled[..|cancelled| - 1] == events;
    StorableExactlyIf(c, cancelled, m);
  }

  /** What the agent's memory had no part in. */
  ghost function OutsideMemory(s: State): set<Measurement> {
    s.stored + Readable(s.spool.files) + Open(s)
  }

  /** A crash loses a measurement for good if and only if it is not stored, in a readable file, nor in a
      request that may yet come to the server. */
  lemma CrashLosesExactlyIf(c: Config, events: seq<Event>, m: Measurement)
    requires Legal(c, events)
    ensures var crashed := events + [Crash];
            && Legal(c, crashed)
            && (CanStillBeStored(c, crashed, m) <==> m in OutsideMemory(After(c, events)))
  {
    hide InFlight;
    var crashed := events + [Crash];
    assert crashed[..|crashed| - 1] == events;
    StorableExactlyIf(c, crashed, m);
  }

  /** A request that a proxy refuses without passing it on cannot store anything any more; one that is passed
      on can. */
  lemma ProxyStopsExactlyIf(c: Config, events: seq<Event>, p: nat, code: int, passes: bool, m: Measurement)
    requires Legal(c, events) && Enabled(c, After(c, events), Intercept(p, code, passes))
    ensures var s, refused := After(c, events), events + [Intercept(p, code, passes)];
            && Legal(c, refused)
            && (CanStillBeStored(c, refused, m)
                <==> if passes then m in Recoverable(c, s) else m in Recoverable(c, s.(posts := s.posts - {p})))
  {
    var s, refused := After(c, events), events + [Intercept(p, code, passes)];
    assert refused[..|refused| - 1] == events;
    StorableExactlyIf(c, refused, m);
    OnlyOpenPostsCount(c, s, p, code, passes);
  }

  lemma OnlyOpenPostsCount(c: Config, s: State, p: nat, code: int, passes: bool)
    requires Enabled(c, s, Intercept(p, code, passes))
    ensures Recoverable(c, Next(c, s, Intercept(p, code, passes)))
            == if passes then Recoverable(c, s) else Recoverable(c, s.(posts := s.posts - {p}))
  {
    var after := Next(c, s, Intercept(p, code, passes));
    var before := if passes then s else s.(posts := s.posts - {p});
    forall m ensures m in Open(after) <==> m in Open(before) {
      if m in Open(after) {
        var q :| q in after.posts && IsOpen(after.posts[q]) && m in after.posts[q].batch;
        assert q in before.posts && IsOpen(before.posts[q]) && m in before.posts[q].batch;
      }
      if m in Open(before) {
        var q :| q in before.posts && IsOpen(before.posts[q]) && m in before.posts[q].batch;
        assert q in after.posts && IsOpen(after.posts[q]) && m in after.posts[q].batch;
      }
    }
    assert Open(after) == Open(before);
  }

  /** For instance: submitted, taken by a flush, and gone with it, whatever happens afterwards. */
  lemma CancellationLosesForGood(c: Config, m: Measurement)
    requires HopsDistinct(m)
    ensures var events := [Submit([m]), BeginFlush(0, false), Cancel(0)];
            && Legal(c, events) && m in After(c, events).submitted
            && !CanStillBeStored(c, events, m)
  {
    hide After, Legal;
    var events := [Submit([m]), BeginFlush(0, false), Cancel(0)];
    CancellationLoses(c, m);
    assert Recoverable(c, After(c, events)) == {};
    StorableExactlyIf(c, events, m);
  }
}
