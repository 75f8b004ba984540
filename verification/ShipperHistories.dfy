/** Operations and whole histories of the sequential shipper as runs of the delivery protocol. */
module ShipperHistories {
  import opened DeliveryRuns
  import opened Measurements
  import opened Outcomes
  import opened ShipperRefinement
  import opened SpoolQueue
  import D = Delivery
  import I = DeliveryInvariant
  import L = ShippingLaws
  import S = Shipping
  import T = DeliveryTheorems

  // ---- operations --------------------------------------------------------------------------------------

  /** An operation that leaves the agent without tasks, like the shipper in its new state. */
  ghost predicate Mirrored(p: D.Config, d: D.State, items: set<Measurement>, before: S.State, after: S.State,
                           e: D.State)
  {
    && Leads(p, d, e) && Mirrors(e, after) && e.tasks == map[] && e.submitted == d.submitted + items
    && after.spool.Some? == before.spool.Some?
  }

  lemma FlushIsMirrored(c: S.Config, p: D.Config, d: D.State, s: S.State, force: bool) returns (e: D.State)
    requires Fits(c, s, p) && Mirrors(d, s) && d.tasks == map[]
    ensures Mirrored(p, d, {}, s, S.Flushed(c, s, force).0, e)
  {
    hide Leads, S.Sent, S.Accepted, S.Replayed;
    if s.buffer == [] {
      Stays(p, d);
      e := d;
    } else {
      Happens(p, d, D.BeginFlush(0, force));
      var d1 := D.Next(p, d, D.BeginFlush(0, force));
      var d2 := SendingIsMirrored(c, p, d1, 0, s.buffer, 1, force, S.Taken(s));
      GoesOn(p, d, d1, d2);
      if S.Accepted(c, S.Taken(s), s.buffer, 1) {
        var left := if force then S.DRAIN_REPLAYS else S.FLUSH_REPLAYS;
        e := ReplayIsMirrored(p, d2, 0, left, S.Sent(c, S.Taken(s), s.buffer, 1));
        GoesOn(p, d, d2, e);
      } else {
        e := d2;
      }
    }
  }

  lemma ReplaySpoolIsMirrored(c: S.Config, p: D.Config, d: D.State, s: S.State, maxFiles: nat) returns (e: D.State)
    requires Fits(c, s, p) && Mirrors(d, s) && d.tasks == map[]
    ensures Mirrored(p, d, {}, s, S.Replayed(s, maxFiles).0, e)
  {
    hide Leads;
    if s.spool.Some? && s.started {
      Happens(p, d, D.BeginReplay(0, maxFiles));
      var d1 := D.Next(p, d, D.BeginReplay(0, maxFiles));
      e := ReplayIsMirrored(p, d1, 0, maxFiles, s);
      GoesOn(p, d, d1, e);
    } else {
      Stays(p, d);
      e := d;
    }
  }

  lemma SubmitIsMirrored(c: S.Config, p: D.Config, d: D.State, s: S.State, items: seq<Measurement>, now: real)
    returns (e: D.State)
    requires Fits(c, s, p) && Mirrors(d, s) && d.tasks == map[]
    requires WellIdentified(d.submitted + Contents(items))
    ensures Mirrored(p, d, Contents(items), s, S.Submitted(c, s, items, now), e)
  {
    hide Leads, S.Flushed, WellIdentified;
    if items == [] {
      Stays(p, d);
      e := d;
    } else {
      Happens(p, d, D.Submit(items));
      var d1 := D.Next(p, d, D.Submit(items));
      var s1 := S.Queued(s, items, now);
      if |s1.buffer| >= c.batchMaxSize {
        e := FlushIsMirrored(c, p, d1, s1, false);
        GoesOn(p, d, d1, e);
      } else {
        e := d1;
      }
    }
  }

  lemma StopIsMirrored(c: S.Config, p: D.Config, d: D.State, s: S.State, drain: bool, writes: bool)
    returns (e: D.State)
    requires Fits(c, s, p) && Mirrors(d, s) && d.tasks == map[]
    ensures Mirrored(p, d, {}, s, S.Stopped(c, s, drain, writes), e)
  {
    hide Leads, S.Flushed, Perform, Evicted, Batches, Told, RejectionsAgree, Contents, Items;
    if drain {
      e := FlushIsMirrored(c, p, d, s, true);
    } else if s.buffer != [] && s.spool.Some? {
      var event := D.SpoolBuffer(D.Disk(writes, c.sizeOf(s.buffer)));
      Happens(p, d, event);
      e := D.Next(p, d, event);
      SpoolingIsTold(c, p, s, d, s.buffer, event.disk);
      StopIsTold(c, s, writes);
    } else {
      Stays(p, d);
      e := d;
    }
    OnlyLogAndLedger(s, s.(started := false));
    OnlyLogAndLedger(S.Flushed(c, s, true).0, S.Flushed(c, s, true).0.(started := false));
  }

  /** What stop spools uncounted is told like what a flush spools. */
  lemma StopIsTold(c: S.Config, s: S.State, writes: bool)
    requires s.buffer != [] && s.spool.Some?
    ensures var flushed, stopped := S.Spooled(c, s, s.buffer, writes), S.Stopped(c, s, false, writes);
            && Told(flushed) == Told(stopped) && (RejectionsAgree(flushed) <==> RejectionsAgree(stopped))
            && flushed.spool == stopped.spool
  {
    hide Perform, Evicted, Contents, Items;
  }

  function ItemsOf(call: L.Call): set<Measurement> {
    if call.Submit? then Contents(call.items) else {}
  }

  lemma CallIsMirrored(c: S.Config, p: D.Config, d: D.State, s: S.State, call: L.Call) returns (e: D.State)
    requires Fits(c, s, p) && Mirrors(d, s) && d.tasks == map[] && WellIdentified(d.submitted + ItemsOf(call))
    ensures Mirrored(p, d, ItemsOf(call), s, L.After(c, s, call), e)
  {
    hide Leads, S.Flushed, S.Replayed, S.Stopped, S.Submitted, S.Due, WellIdentified;
    match call
    case Submit(items, now) => e := SubmitIsMirrored(c, p, d, s, items, now);
    case Tick(now) =>
      if S.Due(c, s, now) {
        e := FlushIsMirrored(c, p, d, s, false);
      } else {
        e := ReplaySpoolIsMirrored(c, p, d, s, 1);
      }
    case Flush(force) => e := FlushIsMirrored(c, p, d, s, force);
    case Replay(maxFiles) => e := ReplaySpoolIsMirrored(c, p, d, s, maxFiles);
    case Stop(drain, writes) => e := StopIsMirrored(c, p, d, s, drain, writes);
    case Start =>
      Stays(p, d);
      e := d;
  }

  // ---- whole histories --------------------------------------------------------------------------------

  function AllItems(calls: seq<L.Call>): set<Measurement> {
    if calls == [] then {} else AllItems(calls[..|calls| - 1]) + ItemsOf(calls[|calls| - 1])
  }

  /** A shipper that has done nothing yet, without a spool or with an empty one. */
  ghost predicate Unused(s: S.State) {
    L.Initial(s) && (s.spool.Some? ==> s.spool.value == EMPTY_DIRECTORY)
  }

  function ProtocolConfig(c: S.Config, s: S.State, maxBody: nat): D.Config {
    D.Config(c.maxRetries, s.spool.Some?, c.maxBytes, maxBody)
  }

  lemma {:induction false} HistoryIsMirrored(c: S.Config, maxBody: nat, s: S.State, calls: seq<L.Call>)
    returns (e: D.State)
    requires Unused(s) && WellIdentified(AllItems(calls))
    ensures Mirrored(ProtocolConfig(c, s, maxBody), D.START, AllItems(calls), s, L.AfterAll(c, s, calls), e)
  {
    hide Leads, L.After, WellIdentified;
    var p := ProtocolConfig(c, s, maxBody);
    if calls == [] {
      Stays(p, D.START);
      e := D.START;
    } else {
      var init, last := calls[..|calls| - 1], calls[|calls| - 1];
      FewerAreIdentified(AllItems(init), AllItems(calls));
      var d := HistoryIsMirrored(c, maxBody, s, init);
      assert D.START.submitted + AllItems(init) == AllItems(init);
      e := CallIsMirrored(c, p, d, L.AfterAll(c, s, init), last);
      GoesOn(p, D.START, d, e);
    }
  }

  lemma FewerAreIdentified(few: set<Measurement>, many: set<Measurement>)
    requires few <= many && WellIdentified(many)
    ensures WellIdentified(few)
  {
  }

  /** The sequential run as a protocol run: it submits the same measurements, ends with the same buffer
      and spool and no task, acknowledges and stores what the log shows as accepted, and has lost what the
      log and the ledger say, in the way they say. */
  ghost predicate IsRunOf(c: S.Config, maxBody: nat, s: S.State, calls: seq<L.Call>, events: seq<D.Event>) {
    var p, after := ProtocolConfig(c, s, maxBody), L.AfterAll(c, s, calls);
    && D.Legal(p, events)
    && var e := D.After(p, events);
       && Mirrors(e, after) && e.tasks == map[] && e.submitted == AllItems(calls)
       && (forall r: Row :: r in e.tables.rows
             <==> exists m :: m in Answered(after.log, Shipped) && r == RowOf(m))
  }

  /** Every sequence of operations of the shipper, whatever the server and the disk do, is such a run. */
  lemma SequentialRunsAreProtocolRuns(c: S.Config, maxBody: nat, s: S.State, calls: seq<L.Call>)
    requires Unused(s) && WellIdentified(AllItems(calls))
    ensures exists events :: IsRunOf(c, maxBody, s, calls, events)
  {
    hide WellIdentified, L.AfterAll, Reaches, D.Next, D.Enabled, Answered, Contents, RejectionsAgree;
    var p := ProtocolConfig(c, s, maxBody);
    var e := HistoryIsMirrored(c, maxBody, s, calls);
    var events :| Reaches(p, D.START, events, e);
    ReachesLegally(p, [], events, e);
    assert [] + events == events;
    T.ExactlyOnce(p, events);
    assert IsRunOf(c, maxBody, s, calls, events);
  }

  function FilesOf(s: S.State): Queue {
    if s.spool.Some? then s.spool.value.files else []
  }

  /** So nothing the sequential shipper was given is lost without a trace: each measurement is queued, in
      a spool file, in a logged request that the server accepted, or in the ledger of its kind of loss. */
  lemma SequentialNoSilentLoss(c: S.Config, s: S.State, calls: seq<L.Call>, m: Measurement)
    requires Unused(s) && WellIdentified(AllItems(calls)) && m in AllItems(calls)
    ensures var after := L.AfterAll(c, s, calls);
            var l := after.ledger;
            || m in after.buffer
            || (exists f :: f in FilesOf(after) && m in f.batch)
            || (exists x :: x in after.log && x.answer.Status? && 200 <= x.answer.code <= 299 && m in x.batch)
            || ((m in l.rejected || m in l.replayDropped)
                && exists x ::
                     x in after.log && x.answer.Status? && x.answer.code in {400, 404, 413, 422} && m in x.batch)
            || m in l.unspooled || m in l.unwritten
            || m in l.evicted || m in l.quarantined
  {
    hide WellIdentified, L.AfterAll, D.Legal, D.After, AllItems, OutcomeOf, I.Tracked, I.Contained, I.Truthful;
    var p := ProtocolConfig(c, s, 0);
    SequentialRunsAreProtocolRuns(c, 0, s, calls);
    var events :| IsRunOf(c, 0, s, calls, events);
    I.RunsKeepInvariant(p, events);
    var e := D.After(p, events);
    assert D.InFlight(e) == {};
    assert e.spool.files == FilesOf(L.AfterAll(c, s, calls));
    assert m in Contents(e.buffer) + Batches(e.spool.files) + e.stored + I.AllLost(e.lost);
    forall x | x in L.AfterAll(c, s, calls).log {
      OutcomesByStatus(x.answer);
    }
  }
}
