/** The ingest endpoint: the ladder of checks from a request to its status code, and its counters. */
module Ingest {
  import opened Measurements
  import opened Outcomes
  import opened Storage

  const PROTOCOL_VERSION := 1

  datatype Batch = Batch(agentId: string, protocolVersion: int, measurements: seq<Measurement>)

  /** What gunzipping makes of a compressed body: a broken file (a bad header or checksum, or an early
      end) is expected, a corrupt stream behind a good header is not. */
  datatype Stream = Intact | Broken | Corrupt

  datatype Encoding = Identity | Gzip(stream: Stream)

  datatype Payload = Malformed | Decoded(batch: Batch)

  /** The body arrives whole, or its sender disconnects while it is read. */
  datatype Body = Received(length: nat) | CutOff

  /** A request as the checks see it: whether the key is known, the raw body, whether it decompresses and
      decodes, and whether the key may write as the batch's agent. */
  datatype Request = Request(authenticated: bool, body: Body, encoding: Encoding,
                             payload: Payload, authorized: bool)

  datatype Metrics = Metrics(batchesReceived: nat, batchesRejected: nat, measurementsWritten: nat,
                             measurementsFailedProbe: nat, hopsWritten: nat, authFailures: nat,
                             storageErrors: nat, byAgent: map<string, nat>)

  const ZERO_METRICS := Metrics(0, 0, 0, 0, 0, 0, 0, map[])

  function HopCount(ms: seq<Measurement>): nat {
    if ms == [] then 0 else HopCount(ms[..|ms| - 1]) + |ms[|ms| - 1].hops|
  }

  function FailedCount(ms: seq<Measurement>): nat {
    if ms == [] then 0
    else FailedCount(ms[..|ms| - 1]) + (if ms[|ms| - 1].success then 0 else 1)
  }

  /** The request gets as far as the storage write. */
  predicate ReachesStorage(req: Request, maxBody: nat) {
    && req.authenticated
    && req.body.Received? && req.body.length <= maxBody
    && (req.encoding.Gzip? ==> req.encoding.stream.Intact?)
    && req.payload.Decoded?
    && req.authorized
    && req.payload.batch.protocolVersion <= PROTOCOL_VERSION
    && req.payload.batch.measurements != []
  }

  /** The request leaves the endpoint by an exception, and the middleware answers. */
  predicate Escapes(req: Request, maxBody: nat) {
    && req.authenticated
    && (req.body.CutOff? || (req.body.length <= maxBody && req.encoding == Gzip(Corrupt)))
  }

  function StatusOf(req: Request, maxBody: nat, connected: bool, verdict: Verdict): int {
    if !req.authenticated then 401
    else if req.body.CutOff? then 500
    else if req.body.length > maxBody then 413
    else if req.encoding == Gzip(Broken) then 400
    else if req.encoding == Gzip(Corrupt) then 500
    else if req.payload.Malformed? then 400
    else if !req.authorized then 403
    else if req.payload.batch.protocolVersion > PROTOCOL_VERSION then 400
    else if req.payload.batch.measurements == [] then 201
    else if connected && verdict == Commits then 201
    else 503
  }

  function TablesAfter(t: Tables, req: Request, maxBody: nat, connected: bool, verdict: Verdict): Tables {
    if ReachesStorage(req, maxBody) then AfterWrite(t, req.payload.batch.measurements, connected, verdict) else t
  }

  function MetricsAfter(m: Metrics, req: Request, maxBody: nat, connected: bool, verdict: Verdict): Metrics {
    if !req.authenticated then m.(authFailures := m.authFailures + 1)
    else if req.body.CutOff? then m
    else if req.body.length > maxBody then m.(batchesRejected := m.batchesRejected + 1)
    else if req.encoding == Gzip(Broken) then m.(batchesRejected := m.batchesRejected + 1)
    else if req.encoding == Gzip(Corrupt) then m
    else if req.payload.Malformed? then m.(batchesRejected := m.batchesRejected + 1)
    else if !req.authorized then m.(authFailures := m.authFailures + 1)
    else if req.payload.batch.protocolVersion > PROTOCOL_VERSION then m.(batchesRejected := m.batchesRejected + 1)
    else if req.payload.batch.measurements == [] then m
    else if !(connected && verdict == Commits) then m.(storageErrors := m.storageErrors + 1)
    else CountedWrite(m, req.payload.batch, |req.payload.batch.measurements|)
  }

  function CountedWrite(m: Metrics, batch: Batch, written: nat): Metrics {
    m.(batchesReceived := m.batchesReceived + 1,
       measurementsWritten := m.measurementsWritten + written,
       measurementsFailedProbe := m.measurementsFailedProbe + FailedCount(batch.measurements),
       hopsWritten := m.hopsWritten + HopCount(batch.measurements),
       byAgent := m.byAgent[batch.agentId := CountFor(m.byAgent, batch.agentId) + written])
  }

  function CountFor(byAgent: map<string, nat>, agent: string): nat {
    if agent in byAgent then byAgent[agent] else 0
  }

  /** The request has a known key that may write as the batch's agent, and a body within the limit that
      unpacks, decodes and is of a version the server knows. */
  predicate MayWrite(req: Request, maxBody: nat) {
    && req.authenticated && req.authorized
    && req.body.Received? && req.body.length <= maxBody
    && (req.encoding == Identity || req.encoding == Gzip(Intact))
    && req.payload.Decoded? && req.payload.batch.protocolVersion <= 1
  }

  /** Only such requests change the tables, and their answer is 201 or 503: a request that is refused, for
      whatever reason, or that escapes, leaves both tables as they were. */
  lemma OnlyGoodRequestsWrite(t: Tables, req: Request, maxBody: nat, connected: bool, verdict: Verdict)
    ensures var after := TablesAfter(t, req, maxBody, connected, verdict);
            var code := StatusOf(req, maxBody, connected, verdict);
            && (after != t ==> MayWrite(req, maxBody) && connected && verdict != RollsBack)
            && (after != t ==> code == 201 || code == 503)
            && (code in {400, 401, 403, 413, 500} ==> after == t)
            && (after == t || (req.payload.Decoded? && after == Written(t, req.payload.batch.measurements)))
  {
  }

  /** Which answer a request gets: the first check that it fails decides. */
  lemma StatusExactlyIf(req: Request, maxBody: nat, connected: bool, verdict: Verdict)
    ensures var code := StatusOf(req, maxBody, connected, verdict);
            var whole := req.authenticated && req.body.Received? && req.body.length <= maxBody;
            var unpacked := whole && (req.encoding == Identity || req.encoding == Gzip(Intact));
            var empty := req.payload.Decoded? && req.payload.batch.measurements == [];
            && (code == 401 <==> !req.authenticated)
            && (code == 413 <==> req.authenticated && req.body.Received? && req.body.length > maxBody)
            && (code == 500 <==> (req.authenticated && req.body.CutOff?) || (whole && req.encoding == Gzip(Corrupt)))
            && (code == 403 <==> unpacked && req.payload.Decoded? && !req.authorized)
            && (code == 400 <==> (whole && req.encoding == Gzip(Broken)) || (unpacked && req.payload.Malformed?)
                                 || (unpacked && req.authorized && req.payload.batch.protocolVersion > 1))
            && (code == 503 <==> MayWrite(req, maxBody) && !empty && !(connected && verdict == Commits))
            && (code == 201 <==> MayWrite(req, maxBody) && (empty || (connected && verdict == Commits)))
  {
    match req.encoding
    case Identity =>
    case Gzip(stream) => assert stream.Intact? || stream.Broken? || stream.Corrupt?;
  }

  class IngestServer {
    const maxBody: nat
    const store: PostgresStore
    var batchesReceived: nat
    var batchesRejected: nat
    var measurementsWritten: nat
    var measurementsFailedProbe: nat
    var hopsWritten: nat
    var authFailures: nat
    var storageErrors: nat
    var byAgent: map<string, nat>

    constructor (maxBody: nat, store: PostgresStore)
      ensures this.maxBody == maxBody && this.store == store && Counters() == ZERO_METRICS
      ensures batchesReceived == batchesRejected == measurementsWritten == measurementsFailedProbe == 0
      ensures hopsWritten == authFailures == storageErrors == 0 && byAgent == map[]
    {
      this.maxBody, this.store := maxBody, store;
      batchesReceived, batchesRejected, measurementsWritten, measurementsFailedProbe := 0, 0, 0, 0;
      hopsWritten, authFailures, storageErrors, byAgent := 0, 0, 0, map[];
    }

    function Counters(): Metrics
      reads this
    {
      Metrics(batchesReceived, batchesRejected, measurementsWritten, measurementsFailedProbe,
              hopsWritten, authFailures, storageErrors, byAgent)
    }

    /** One POST; `verdict` is what becomes of the transaction, should there be one. */
    method Ingest(req: Request, verdict: Verdict) returns (status: int)
      modifies this, store
      ensures status == StatusOf(req, maxBody, store.connected, verdict)
      ensures store.tables == TablesAfter(old(store.tables), req, maxBody, store.connected, verdict)
      ensures store.connected == old(store.connected)
      ensures Counters() == MetricsAfter(old(Counters()), req, maxBody, store.connected, verdict)
      ensures store.tables != old(store.tables) ==> MayWrite(req, maxBody) && (status == 201 || status == 503)
    {
      OnlyGoodRequestsWrite(store.tables, req, maxBody, store.connected, verdict);
      if !req.authenticated {
        authFailures := authFailures + 1;
        return 401;
      }
      if req.body.CutOff? {
        return 500;
      }
      if req.body.length > maxBody {
        batchesRejected := batchesRejected + 1;
        return 413;
      }
      if req.encoding == Gzip(Broken) {
        batchesRejected := batchesRejected + 1;
        return 400;
      }
      if req.encoding == Gzip(Corrupt) {
        return 500;
      }
      if req.payload.Malformed? {
        batchesRejected := batchesRejected + 1;
        return 400;
      }
      var batch := req.payload.batch;
      if !req.authorized {
        authFailures := authFailures + 1;
        return 403;
      }
      if batch.protocolVersion > PROTOCOL_VERSION {
        batchesRejected := batchesRejected + 1;
        return 400;
      }
      if batch.measurements == [] {
        return 201;
      }
      var written := store.WriteMeasurements(batch.measurements, verdict);
      if written.Err? {
        storageErrors := storageErrors + 1;
        return 503;
      }
      CountWrite(batch, written.value);
      return 201;
    }

    method CountWrite(batch: Batch, written: nat)
      modifies this
      ensures Counters() == CountedWrite(old(Counters()), batch, written)
    {
      var hopCount := HopCount(batch.measurements);
      var failed := FailedCount(batch.measurements);
      batchesReceived := batchesReceived + 1;
      measurementsWritten := measurementsWritten + written;
      measurementsFailedProbe := measurementsFailedProbe + failed;
      hopsWritten := hopsWritten + hopCount;
      byAgent := byAgent[batch.agentId := CountFor(byAgent, batch.agentId) + written];
    }
  }

  /** What each answer tells the agent about the tables. A success means that the whole batch is
      in; a permanent refusal means that nothing was written; any other answer leaves both
      possible, but never a part of a batch. */
  lemma AnswerSpeaksTrue(t: Tables, req: Request, maxBody: nat, connected: bool, verdict: Verdict)
    ensures var code := StatusOf(req, maxBody, connected, verdict);
            var after := TablesAfter(t, req, maxBody, connected, verdict);
            && (OutcomeOf(Status(code)) == Shipped ==>
                  req.payload.Decoded? && after == Written(t, req.payload.batch.measurements))
            && (OutcomeOf(Status(code)) == Poison ==> after == t)
            && (after == t || (req.payload.Decoded? && after == Written(t, req.payload.batch.measurements)))
  {
    if StatusOf(req, maxBody, connected, verdict) == 201 && req.payload.batch.measurements == [] {
      EmptyWrite(t);
    }
  }

  /** The refusals the agent must not retry are the ones that depend on the payload alone: they
      come back whatever the state of the database, and for every key that is let in. */
  lemma PoisonIsPermanent(req: Request, maxBody: nat, connected: bool, verdict: Verdict,
                          connected': bool, verdict': Verdict)
    requires OutcomeOf(Status(StatusOf(req, maxBody, connected, verdict))) == Poison
    ensures StatusOf(req, maxBody, connected', verdict') == StatusOf(req, maxBody, connected, verdict)
    ensures forall reauthorized: Request ::
              reauthorized == req.(authenticated := true, authorized := true) ==>
                OutcomeOf(Status(StatusOf(reauthorized, maxBody, connected', verdict'))) == Poison
  {
  }

  datatype Call = Call(req: Request, connected: bool, verdict: Verdict)

  function Serve(m: Metrics, calls: seq<Call>, maxBody: nat): Metrics {
    if calls == [] then m
    else
      var c := calls[|calls| - 1];
      MetricsAfter(Serve(m, calls[..|calls| - 1], maxBody), c.req, maxBody, c.connected, c.verdict)
  }

  ghost function SumOf(counts: map<string, nat>): nat
    decreases counts.Keys
  {
    if counts == map[] then 0
    else
      var k :| k in counts;
      counts[k] + SumOf(counts - {k})
  }

  /** Any key can be taken out of the sum first. */
  lemma {:induction false} SumWithout(counts: map<string, nat>, k: string)
    requires k in counts
    ensures SumOf(counts) == counts[k] + SumOf(counts - {k})
    decreases counts.Keys
  {
    var j :| j in counts && SumOf(counts) == counts[j] + SumOf(counts - {j});
    if j != k {
      SumWithout(counts - {j}, k);
      assert counts - {j} - {k} == counts - {k} - {j};
      SumWithout(counts - {k}, j);
    }
  }

  lemma SumAfterUpdate(counts: map<string, nat>, k: string, n: nat)
    ensures SumOf(counts[k := CountFor(counts, k) + n]) == SumOf(counts) + n
  {
    var updated := counts[k := CountFor(counts, k) + n];
    SumWithout(updated, k);
    assert updated - {k} == counts - {k};
    if k in counts {
      SumWithout(counts, k);
    } else {
      assert counts - {k} == counts;
    }
  }

  /** Over any sequence of requests the per-agent counters add up to the total. */
  lemma {:induction false} ByAgentAddsUp(calls: seq<Call>, maxBody: nat)
    ensures var m := Serve(ZERO_METRICS, calls, maxBody); SumOf(m.byAgent) == m.measurementsWritten
  {
    if calls != [] {
      ByAgentAddsUp(calls[..|calls| - 1], maxBody);
      var before, c := Serve(ZERO_METRICS, calls[..|calls| - 1], maxBody), calls[|calls| - 1];
      if StatusOf(c.req, maxBody, c.connected, c.verdict) == 201 && c.req.payload.batch.measurements != [] {
        SumAfterUpdate(before.byAgent, c.req.payload.batch.agentId, |c.req.payload.batch.measurements|);
      }
    }
  }

  /** The sum of the counters that count requests. */
  function Counted(m: Metrics): nat {
    m.batchesReceived + m.batchesRejected + m.authFailures + m.storageErrors
  }

  /** The request is an empty batch that is let in. */
  predicate IsEmptyBatch(req: Request, maxBody: nat, connected: bool, verdict: Verdict) {
    StatusOf(req, maxBody, connected, verdict) == 201 && req.payload.batch.measurements == []
  }

  /** The measurements of a batch whose probe failed. */
  ghost function Failed(ms: seq<Measurement>): set<int> {
    set i | 0 <= i < |ms| && !ms[i].success
  }

  lemma {:induction false} FailedAreCounted(ms: seq<Measurement>)
    ensures FailedCount(ms) == |Failed(ms)|
  {
    if ms == [] {
      assert Failed(ms) == {};
    } else {
      var n := |ms| - 1;
      FailedAreCounted(ms[..n]);
      assert Failed(ms) == Failed(ms[..n]) + if ms[n].success then {} else {n};
    }
  }

  /** As many hops as rows are made for them. */
  lemma {:induction false} HopsAreCounted(ms: seq<Measurement>)
    ensures HopCount(ms) == |AllHopRows(ms)|
  {
    if ms != [] {
      HopsAreCounted(ms[..|ms| - 1]);
    }
  }

  /** What each answer does to the counters: 401 and 403 are authorization failures, 400 and 413 rejected
      batches, 503 a storage error, a 500 leaves no trace, and a 201 counts a batch that is not empty with
      its measurements, its failed probes, its hops and its agent. */
  lemma CountersByStatus(m: Metrics, req: Request, maxBody: nat, connected: bool, verdict: Verdict)
    ensures var code, after := StatusOf(req, maxBody, connected, verdict),
                               MetricsAfter(m, req, maxBody, connected, verdict);
            && (code in {401, 403} ==> after == m.(authFailures := m.authFailures + 1))
            && (code in {400, 413} ==> after == m.(batchesRejected := m.batchesRejected + 1))
            && (code == 503 ==> after == m.(storageErrors := m.storageErrors + 1))
            && (code == 500 ==> after == m)
            && (code == 201 ==>
                  var batch := req.payload.batch;
                  var ms := batch.measurements;
                  if ms == [] then after == m
                  else
                    && after.batchesReceived == m.batchesReceived + 1
                    && after.measurementsWritten == m.measurementsWritten + |ms|
                    && after.measurementsFailedProbe == m.measurementsFailedProbe + |Failed(ms)|
                    && after.hopsWritten == m.hopsWritten + |AllHopRows(ms)|
                    && after.authFailures == m.authFailures && after.batchesRejected == m.batchesRejected
                    && after.storageErrors == m.storageErrors
                    && CountFor(after.byAgent, batch.agentId) == CountFor(m.byAgent, batch.agentId) + |ms|
                    && forall a | a != batch.agentId :: CountFor(after.byAgent, a) == CountFor(m.byAgent, a))
  {
    if req.payload.Decoded? {
      FailedAreCounted(req.payload.batch.measurements);
      HopsAreCounted(req.payload.batch.measurements);
    }
  }

  /** Exactly one of the counters goes up, and by one; the others stay. */
  ghost predicate CountsOnce(before: Metrics, after: Metrics) {
    Counted(after) == Counted(before) + 1
    && before.batchesReceived <= after.batchesReceived && before.batchesRejected <= after.batchesRejected
    && before.authFailures <= after.authFailures && before.storageErrors <= after.storageErrors
  }

  /** A request is in exactly one counter, unless it is an empty batch that was accepted, or one whose
      body was cut off or is a corrupt stream: those are in none. */
  lemma CountedExactlyIf(m: Metrics, req: Request, maxBody: nat, connected: bool, verdict: Verdict)
    ensures var after := MetricsAfter(m, req, maxBody, connected, verdict);
            var uncounted := IsEmptyBatch(req, maxBody, connected, verdict) || Escapes(req, maxBody);
            && (CountsOnce(m, after) <==> !uncounted)
            && (after == m <==> uncounted)
  {
  }

  /** With a key that is let in, the request is accepted in no state of the database. */
  ghost predicate Hopeless(req: Request, maxBody: nat) {
    && req.authenticated && req.authorized
    && forall connected, verdict :: !IsSuccess(StatusOf(req, maxBody, connected, verdict))
  }

  /** A hopeless request is refused for good, so that the agent drops it, if and only if it does not
      escape. One that does is tried again, and leaves the server as it was. */
  lemma HopelessIsRefusedExactlyIf(t: Tables, m: Metrics, req: Request, maxBody: nat, connected: bool,
                                   verdict: Verdict)
    requires Hopeless(req, maxBody)
    ensures var outcome := OutcomeOf(Status(StatusOf(req, maxBody, connected, verdict)));
            && (outcome == Poison <==> !Escapes(req, maxBody))
            && (outcome == Retry <==> Escapes(req, maxBody))
    ensures TablesAfter(t, req, maxBody, connected, verdict) == t
    ensures MetricsAfter(m, req, maxBody, connected, verdict) == m <==> Escapes(req, maxBody)
  {
    assert !IsSuccess(StatusOf(req, maxBody, true, Commits));
  }

  /** The number of requests in no counter. */
  function Uncounted(calls: seq<Call>, maxBody: nat): nat {
    if calls == [] then 0
    else
      var c := calls[|calls| - 1];
      Uncounted(calls[..|calls| - 1], maxBody)
      + if IsEmptyBatch(c.req, maxBody, c.connected, c.verdict) || Escapes(c.req, maxBody) then 1 else 0
  }

  /** Over any sequence the counters account for every request but those. */
  lemma {:induction false} EveryRequestIsCounted(calls: seq<Call>, maxBody: nat)
    ensures Counted(Serve(ZERO_METRICS, calls, maxBody)) + Uncounted(calls, maxBody) == |calls|
  {
    if calls != [] {
      EveryRequestIsCounted(calls[..|calls| - 1], maxBody);
      var c := calls[|calls| - 1];
      CountedExactlyIf(Serve(ZERO_METRICS, calls[..|calls| - 1], maxBody), c.req, maxBody, c.connected, c.verdict);
    }
  }
}
