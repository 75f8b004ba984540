/** The sequential shipper is one of the behaviours of the delivery protocol.

  Module Shipping says what each operation does when it runs alone, module Delivery what may happen
  when everything overlaps. Here the retry loop and the replay are shown to be runs of the protocol
  that end with the same buffer and the same spool. Module ShipperHistories goes on from there to
  whole histories, so that what holds of all runs of the protocol holds of them.
 */
module ShipperRefinement {
  import opened DeliveryRuns
  import opened Measurements
  import opened Outcomes
  import opened RealProducts
  import opened SpoolQueue
  import opened Storage
  import opened Wrappers
  import D = Delivery
  import S = Shipping

  // ---- what has become of the measurements --------------------------------------------------------

  /** What the protocol remembers: what was acknowledged, what is stored and what was lost, and how. */
  datatype History = History(acked: set<Measurement>, stored: set<Measurement>, lost: D.Losses)

  ghost function Remembered(d: D.State): History {
    History(d.acked, d.stored, d.lost)
  }

  /** The measurements in the logged requests with a given outcome. */
  ghost function Answered(log: seq<S.Exchange>, outcome: Outcome): set<Measurement> {
    set x, m | x in log && OutcomeOf(x.answer) == outcome && m in x.batch :: m
  }

  /** What the shipper's log and ledger tell. The server stores what it acknowledges. */
  ghost function Told(s: S.State): History {
    var accepted, l := Answered(s.log, Shipped), s.ledger;
    History(accepted, accepted,
            D.Losses(Answered(s.log, Poison), Contents(l.unspooled), Contents(l.unwritten), Contents(l.evicted),
                     Contents(l.quarantined), {}, {}, {}))
  }

  /** The ledger of rejections is that of the requests refused. */
  ghost predicate RejectionsAgree(s: S.State) {
    Answered(s.log, Poison) == Contents(s.ledger.rejected) + Contents(s.ledger.replayDropped)
  }

  ghost function AsAcked(h: History, batch: seq<Measurement>): History {
    h.(acked := h.acked + Contents(batch), stored := h.stored + Contents(batch))
  }

  ghost function AsRejected(h: History, batch: seq<Measurement>): History {
    h.(lost := h.lost.(rejected := h.lost.rejected + Contents(batch)))
  }

  ghost function AsQuarantined(h: History, q: Queue): History {
    h.(lost := h.lost.(quarantined := h.lost.quarantined + Batches(Quarantined(q))))
  }

  ghost function AsAnswered(h: History, batch: seq<Measurement>, outcome: Outcome): History {
    match outcome
    case Shipped => AsAcked(h, batch)
    case Poison => AsRejected(h, batch)
    case Retry => h
  }

  lemma ContentsAdd(a: seq<Measurement>, b: seq<Measurement>)
    ensures Contents(a + b) == Contents(a) + Contents(b)
  {
  }

  lemma AnsweredAdd(log: seq<S.Exchange>, x: S.Exchange, outcome: Outcome)
    ensures Answered(log + [x], outcome)
            == Answered(log, outcome) + if OutcomeOf(x.answer) == outcome then Contents(x.batch) else {}
  {
    hide OutcomeOf;
    forall m | m in Answered(log, outcome) ensures m in Answered(log + [x], outcome) {
      var y :| y in log && OutcomeOf(y.answer) == outcome && m in y.batch;
      assert y in log + [x];
    }
    assert x in log + [x];
  }

  /** A post is told by its answer, and by the ledger if the answer is a refusal. */
  lemma PostIsTold(s: S.State, batch: seq<Measurement>)
    ensures var after, outcome := S.Posted(s, batch), S.OutcomeNow(s);
            && Told(after) == AsAnswered(Told(s), batch, outcome)
            && Answered(after.log, Poison)
               == Answered(s.log, Poison) + if outcome == Poison then Contents(batch) else {}
  {
    hide OutcomeOf, Answered;
    var x := S.Exchange(batch, S.NextTurn(s.turns).answer);
    AnsweredAdd(s.log, x, Shipped);
    AnsweredAdd(s.log, x, Poison);
    SilenceIsRetry();
  }

  lemma SilenceIsRetry()
    ensures OutcomeOf(NoAnswer) == Retry
    ensures forall code :: IsSuccess(code) <==> OutcomeOf(Status(code)) == Shipped
  {
  }

  lemma AttemptIsTold(s: S.State, batch: seq<Measurement>)
    requires RejectionsAgree(s)
    ensures Told(S.Tried(s, batch)) == AsAnswered(Told(s), batch, S.OutcomeNow(s))
    ensures RejectionsAgree(S.Tried(s, batch))
  {
    hide Answered, Contents;
    PostIsTold(s, batch);
    ContentsAdd(s.ledger.rejected, batch);
  }

  lemma SpoolingIsTold(c: S.Config, p: D.Config, s: S.State, d: D.State, batch: seq<Measurement>, disk: D.Disk)
    requires batch != [] && Fits(c, s, p) && Resembles(d, s) && Remembered(d) == Told(s)
    requires disk.size == c.sizeOf(batch)
    ensures Remembered(D.Spooled(p, d, batch, disk)) == Told(S.Spooled(c, s, batch, disk.writes))
    ensures RejectionsAgree(s) ==> RejectionsAgree(S.Spooled(c, s, batch, disk.writes))
  {
    hide Answered, Contents, Batches, Perform, Evicted, Items;
    ContentsAdd(s.ledger.unspooled, batch);
    ContentsAdd(s.ledger.unwritten, batch);
    if s.spool.Some? {
      var q := s.spool.value.files;
      var file := SpoolFile(s.spool.value.clock + 1, batch, true, disk.size);
      var evicted := Evicted(q + [file], c.maxBytes);
      ContentsAdd(s.ledger.evicted, Items(evicted));
      ItemsOfBatches(evicted);
    }
  }

  lemma {:induction false} SkippedAreQuarantined(q: Queue)
    ensures Batches(Skipped(q)) == Batches(Quarantined(q))
  {
    if q != [] && !Deliverable(q[0]) {
      SkippedAreQuarantined(q[1..]);
      var rest, kept := Skipped(q[1..]), Quarantined(q[1..]);
      BatchesOfFirst(q[0], rest);
      BatchesOfFirst(q[0], kept);
      assert [] + kept == kept;
    }
  }

  lemma BatchesOfFirst(f: SpoolFile, rest: Queue)
    ensures Batches([f] + rest) == Contents(f.batch) + Batches(rest)
  {
    var q := [f] + rest;
    forall m | m in Batches(rest) ensures m in Batches(q) {
      var g :| g in rest && m in g.batch;
      assert g in q;
    }
    assert f in q;
  }

  lemma LookIsTold(s: S.State)
    requires s.spool.Some?
    ensures Told(S.Looked(s)) == AsQuarantined(Told(s), s.spool.value.files)
    ensures RejectionsAgree(s) ==> RejectionsAgree(S.Looked(s))
  {
    hide Answered, Contents, Batches, Items, Skipped, Quarantined;
    var q := s.spool.value.files;
    ContentsAdd(s.ledger.quarantined, Items(Skipped(q)));
    ItemsOfBatches(Skipped(q));
    SkippedAreQuarantined(q);
  }

  lemma SettlingIsTold(s: S.State)
    requires s.spool.Some? && s.spool.value.files != [] && RejectionsAgree(s) && S.OutcomeNow(s) != Retry
    ensures var batch, outcome := s.spool.value.files[0].batch, S.OutcomeNow(s);
            var after := S.Settled(S.Posted(s, batch), outcome);
            Told(after) == AsAnswered(Told(s), batch, outcome) && RejectionsAgree(after)
  {
    hide Answered, Contents, Removed, OutcomeOf;
    var batch := s.spool.value.files[0].batch;
    PostIsTold(s, batch);
    ContentsAdd(s.ledger.replayDropped, batch);
  }

  // ---- the correspondence ------------------------------------------------------------------------

  ghost predicate Fits(c: S.Config, s: S.State, p: D.Config) {
    p.maxRetries == c.maxRetries && p.maxBytes == c.maxBytes && p.spoolConfigured == s.spool.Some?
  }

  /** The protocol's agent looks like the shipper. */
  ghost predicate Resembles(d: D.State, s: S.State) {
    && d.buffer == s.buffer
    && (match s.spool case Some(dir) => d.spool == dir case None => d.spool.files == [])
  }

  /** And what has become of the measurements is what the shipper's log and ledger tell. */
  ghost predicate Mirrors(d: D.State, s: S.State) {
    Resembles(d, s) && Remembered(d) == Told(s) && RejectionsAgree(s)
  }

  /** What the agent does not notice: the server working. */
  ghost predicate SameAgent(d: D.State, e: D.State) {
    d.buffer == e.buffer && d.spool == e.spool && d.tasks == e.tasks && d.submitted == e.submitted
  }

  /** The network can answer an open post with any outcome, the server storing what it accepts. */
  lemma AnswerComes(c: D.Config, d: D.State, p: nat, code: int) returns (e: D.State)
    requires p in d.posts && d.posts[p].answer.None? && d.posts[p].open
    ensures Leads(c, d, e) && SameAgent(d, e) && e.acked == d.acked && e.lost == d.lost
    ensures e.stored == d.stored + if IsSuccess(code) then Contents(d.posts[p].batch) else {}
    ensures p in e.posts && e.posts[p].answer.Some?
    ensures OutcomeOf(Status(e.posts[p].answer.value)) == OutcomeOf(Status(code))
  {
    hide Leads;
    if IsSuccess(code) {
      var event := D.Serve(p, GoodRequest(d.posts[p].batch), true, Commits);
      Happens(c, d, event);
      e := D.Next(c, d, event);
    } else {
      Happens(c, d, D.Intercept(p, code, false));
      e := D.Next(c, d, D.Intercept(p, code, false));
    }
  }

  // ---- sending --------------------------------------------------------------------------------------

  /** What one attempt makes of the only task. */
  ghost predicate AttemptEnds(c: D.Config, d: D.State, t: nat, batch: seq<Measurement>, attempt: nat, force: bool,
                              disk: D.Disk, outcome: Outcome, e: D.State)
  {
    && e.buffer == d.buffer && e.submitted == d.submitted
    && match outcome
       case Shipped =>
         && e.tasks == map[t := D.Replaying(if force then 100 else 3)] && e.spool == d.spool
         && Remembered(e) == AsAcked(Remembered(d), batch)
       case Poison =>
         e.tasks == map[] && e.spool == d.spool && Remembered(e) == AsRejected(Remembered(d), batch)
       case Retry =>
         if attempt < D.Attempts(c) then
           && e.tasks == map[t := D.Sending(batch, attempt + 1, force)] && e.spool == d.spool
           && Remembered(e) == Remembered(d)
         else
           var spooled := D.Spooled(c, d, batch, disk);
           e.tasks == map[] && e.spool == spooled.spool && Remembered(e) == Remembered(spooled)
  }

  /** A failed attempt: there is no client, or no answer comes. */
  lemma AttemptFails(c: D.Config, d: D.State, t: nat, batch: seq<Measurement>, attempt: nat, force: bool, disk: D.Disk,
                     started: bool)
    returns (e: D.State)
    requires d.tasks == map[t := D.Sending(batch, attempt, force)]
    ensures Leads(c, d, e) && AttemptEnds(c, d, t, batch, attempt, force, disk, Retry, e)
  {
    hide Leads, AttemptEnds, D.Refused;
    if !started {
      Happens(c, d, D.SendWithoutClient(t, disk));
      e := D.Next(c, d, D.SendWithoutClient(t, disk));
      RefusalEnds(c, d, d, t, batch, attempt, force, disk);
    } else {
      var p := FreshName(d.posts);
      Happens(c, d, D.Send(t, p));
      var d1 := D.Next(c, d, D.Send(t, p));
      Happens(c, d1, D.Unanswered(t, disk));
      e := D.Next(c, d1, D.Unanswered(t, disk));
      GoesOn(c, d, d1, e);
      RefusalEnds(c, d, d1, t, batch, attempt, force, disk);
    }
  }

  /** The only task, refused before or after its post. */
  lemma RefusalEnds(c: D.Config, d: D.State, d1: D.State, t: nat, batch: seq<Measurement>, attempt: nat, force: bool,
                    disk: D.Disk)
    requires t in d1.tasks && D.IsLive(d1.tasks[t]) && d1.tasks == map[t := d1.tasks[t]]
    requires d1.tasks[t].batch == batch && d1.tasks[t].attempt == attempt && d1.tasks[t].force == force
    requires d1 == d.(tasks := d1.tasks, posts := d1.posts)
    ensures AttemptEnds(c, d, t, batch, attempt, force, disk, Retry, D.Refused(c, d1, t, disk))
  {
    hide Perform, Evicted, Batches, Contents;
    assert d1.tasks - {t} == map[];
  }

  /** An attempt that is answered. */
  lemma AttemptIsAnswered(c: D.Config, d: D.State, t: nat, batch: seq<Measurement>, attempt: nat, force: bool,
                          disk: D.Disk, code: int)
    returns (e: D.State)
    requires d.tasks == map[t := D.Sending(batch, attempt, force)]
    ensures Leads(c, d, e) && AttemptEnds(c, d, t, batch, attempt, force, disk, OutcomeOf(Status(code)), e)
  {
    hide Leads, Perform, Evicted, Batches, OutcomeOf, IsSuccess;
    SilenceIsRetry();
    var p := FreshName(d.posts);
    Happens(c, d, D.Send(t, p));
    var d1 := D.Next(c, d, D.Send(t, p));
    var d2 := AnswerComes(c, d1, p, code);
    Happens(c, d2, D.Answered(t, disk));
    e := D.Next(c, d2, D.Answered(t, disk));
    GoesOn(c, d, d1, d2);
    GoesOn(c, d, d2, e);
  }

  lemma AttemptIsMirrored(c: D.Config, d: D.State, t: nat, batch: seq<Measurement>, attempt: nat, force: bool,
                          disk: D.Disk, s: S.State)
    returns (e: D.State)
    requires d.tasks == map[t := D.Sending(batch, attempt, force)]
    ensures Leads(c, d, e) && AttemptEnds(c, d, t, batch, attempt, force, disk, S.OutcomeNow(s), e)
  {
    hide Leads, AttemptEnds;
    var answer := S.NextTurn(s.turns).answer;
    if s.started && answer.Status? {
      e := AttemptIsAnswered(c, d, t, batch, attempt, force, disk, answer.code);
    } else {
      e := AttemptFails(c, d, t, batch, attempt, force, disk, s.started);
    }
  }

  lemma OnlyLogAndLedger(s: S.State, t: S.State)
    requires s.log == t.log && s.ledger == t.ledger
    ensures Told(s) == Told(t) && (RejectionsAgree(s) <==> RejectionsAgree(t))
  {
  }

  /** The last attempt having failed, the batch is spooled in both. */
  lemma LastAttemptIsTold(c: S.Config, p: D.Config, s: S.State, d: D.State, batch: seq<Measurement>, disk: D.Disk)
    requires batch != [] && Fits(c, s, p) && Mirrors(d, s) && S.OutcomeNow(s) == Retry
    requires disk == D.Disk(S.NextTurn(s.turns).writes, c.sizeOf(batch))
    ensures var after, spooled := S.Spooled(c, S.Tried(s, batch), batch, disk.writes), D.Spooled(p, d, batch, disk);
            && Remembered(spooled) == Told(after) && RejectionsAgree(after)
            && after.buffer == s.buffer && after.started == s.started && after.spool.Some? == s.spool.Some?
            && (match after.spool case Some(dir) => spooled.spool == dir case None => spooled.spool.files == [])
  {
    hide Told, RejectionsAgree, Perform, Evicted, Batches, Items, Contents;
    AttemptIsTold(s, batch);
    SpoolingIsTold(c, p, S.Tried(s, batch), d, batch, disk);
  }

  /** What the flush has become when the retry loop is over. */
  ghost predicate SendingEnds(c: S.Config, d: D.State, t: nat, batch: seq<Measurement>, attempt: nat, force: bool,
                              s: S.State, e: D.State)
    requires 1 <= attempt <= S.Attempts(c)
  {
    var after := S.Sent(c, s, batch, attempt);
    && e.submitted == d.submitted && Mirrors(e, after)
    && after.started == s.started && after.spool.Some? == s.spool.Some?
    && (if S.Accepted(c, s, batch, attempt)
        then s.started && e.tasks == map[t := D.Replaying(if force then 100 else 3)]
        else e.tasks == map[])
  }

  lemma {:induction false} SendingIsMirrored(c: S.Config, p: D.Config, d: D.State, t: nat, batch: seq<Measurement>,
                                             attempt: nat, force: bool, s: S.State)
    returns (e: D.State)
    requires 1 <= attempt <= S.Attempts(c) && batch != []
    requires Fits(c, s, p) && Mirrors(d, s) && d.tasks == map[t := D.Sending(batch, attempt, force)]
    ensures Leads(p, d, e) && SendingEnds(c, d, t, batch, attempt, force, s, e)
    decreases S.Attempts(c) - attempt
  {
    hide Leads, Perform, Evicted, Batches, Told, RejectionsAgree, S.Stored, Contents;
    var disk := D.Disk(S.NextTurn(s.turns).writes, c.sizeOf(batch));
    var d1 := AttemptIsMirrored(p, d, t, batch, attempt, force, disk, s);
    AttemptIsTold(s, batch);
    if S.OutcomeNow(s) == Retry && attempt < S.Attempts(c) {
      var s1 := S.Paused(S.Tried(s, batch), Times(S.NextTurn(s.turns).jitter, S.Delay(c, attempt)));
      S.AcceptedNeedsTurnsOnly(c, S.Posted(s, batch), s1, batch, attempt + 1);
      assert Told(s1) == Told(S.Tried(s, batch)) && RejectionsAgree(s1) by {
        OnlyLogAndLedger(S.Tried(s, batch), s1);
      }
      e := SendingIsMirrored(c, p, d1, t, batch, attempt + 1, force, s1);
      GoesOn(p, d, d1, e);
    } else {
      e := d1;
      if S.OutcomeNow(s) == Retry {
        LastAttemptIsTold(c, p, s, d, batch, disk);
      }
    }
  }

  // ---- replaying ------------------------------------------------------------------------------------

  /** A look at the spool that finds nothing to post ends the replay. */
  lemma LookFindsNothing(c: D.Config, d: D.State, t: nat, left: nat) returns (e: D.State)
    requires d.tasks == map[t := D.Replaying(left)] && (left == 0 || Peeked(d.spool.files) == [])
    ensures Leads(c, d, e) && e.tasks == map[] && e.buffer == d.buffer && e.submitted == d.submitted
    ensures e.spool == if left == 0 then d.spool else d.spool.(files := [])
    ensures Remembered(e) == if left == 0 then Remembered(d) else AsQuarantined(Remembered(d), d.spool.files)
  {
    hide Leads, Peeked, Batches;
    var p := FreshName(d.posts);
    Happens(c, d, D.Look(t, p));
    e := D.Next(c, d, D.Look(t, p));
  }

  /** Otherwise the oldest file is posted, and settled as the answer says. */
  lemma LookPosts(c: D.Config, d: D.State, t: nat, left: nat, answer: Answer) returns (e: D.State)
    requires d.tasks == map[t := D.Replaying(left)] && left > 0 && Peeked(d.spool.files) != []
    ensures Leads(c, d, e) && e.buffer == d.buffer && e.submitted == d.submitted
    ensures var q := Peeked(d.spool.files);
            if OutcomeOf(answer) == Retry then e.tasks == map[] && e.spool == d.spool.(files := q)
            else e.tasks == map[t := D.Replaying(left - 1)] && e.spool == d.spool.(files := Removed(q, q[0].name))
    ensures Remembered(e)
            == AsAnswered(AsQuarantined(Remembered(d), d.spool.files), Peeked(d.spool.files)[0].batch,
                          OutcomeOf(answer))
  {
    hide Leads, Peeked, Batches, Removed, OutcomeOf, Quarantined, IsSuccess;
    var q := Peeked(d.spool.files);
    var disk := D.Disk(true, 0);
    var p := FreshName(d.posts);
    Happens(c, d, D.Look(t, p));
    var d1 := D.Next(c, d, D.Look(t, p));
    SilenceIsRetry();
    match answer
    case NoAnswer =>
      Happens(c, d1, D.Unanswered(t, disk));
      e := D.Next(c, d1, D.Unanswered(t, disk));
      GoesOn(c, d, d1, e);
    case Status(code) =>
      var d2 := AnswerComes(c, d1, p, code);
      Happens(c, d2, D.Answered(t, disk));
      e := D.Next(c, d2, D.Answered(t, disk));
      GoesOn(c, d, d1, d2);
      GoesOn(c, d, d2, e);
  }

  lemma {:induction false} ReplayIsMirrored(p: D.Config, d: D.State, t: nat, left: nat, s: S.State) returns (e: D.State)
    requires Mirrors(d, s) && s.started && d.tasks == map[t := D.Replaying(left)]
    ensures Leads(p, d, e) && Mirrors(e, S.Replayed(s, left).0) && e.tasks == map[] && e.submitted == d.submitted
    ensures S.Replayed(s, left).0.started && S.Replayed(s, left).0.spool.Some? == s.spool.Some?
    decreases left
  {
    hide Leads, Weight, Removed, OutcomeOf, Told, RejectionsAgree, Contents, Items, Quarantined;
    if left == 0 || Peeked(d.spool.files) == [] {
      e := LookFindsNothing(p, d, t, left);
      if s.spool.Some? {
        LookIsTold(s);
      } else {
        NothingQuarantined(Remembered(d));
      }
    } else {
      var s1 := S.Looked(s);
      LookIsTold(s);
      var s2 := S.Posted(s1, s1.spool.value.files[0].batch);
      var d1 := LookPosts(p, d, t, left, S.NextTurn(s.turns).answer);
      PostIsTold(s1, s1.spool.value.files[0].batch);
      if S.OutcomeNow(s1) == Retry {
        e := d1;
        RetryRejectsNothing(s1, s1.spool.value.files[0].batch);
      } else {
        SettlingIsTold(s1);
        e := ReplayIsMirrored(p, d1, t, left - 1, S.Settled(s2, S.OutcomeNow(s1)));
        GoesOn(p, d, d1, e);
      }
    }
  }

  lemma NothingQuarantined(h: History)
    ensures AsQuarantined(h, []) == h
  {
    assert Batches([]) == {};
  }

  lemma RetryRejectsNothing(s: S.State, batch: seq<Measurement>)
    requires RejectionsAgree(s) && S.OutcomeNow(s) == Retry
    ensures RejectionsAgree(S.Posted(s, batch))
  {
    PostIsTold(s, batch);
  }
}
