/** The PostgreSQL driver: one transaction per batch, conflicting rows skipped. */
module Storage {
  import opened Wrappers
  import opened Measurements
  import opened KeyedTable

  /** The `measurements` and `mtr_hops` tables. */
  datatype Tables = Tables(rows: seq<Row>, hops: seq<HopRow>)

  const EMPTY_TABLES := Tables([], [])

  /** What becomes of a transaction. In the third case the commit went through but the driver
      saw an error, for instance because the connection died before the acknowledgement. */
  datatype Verdict = Commits | RollsBack | CommitsUnacknowledged

  /** The tables once a transaction that writes `ms` is in. */
  function Written(t: Tables, ms: seq<Measurement>): Tables {
    Tables(InsertAll(RowKeyOf, t.rows, RowsOf(ms)), InsertAll(HopKeyOf, t.hops, AllHopRows(ms)))
  }

  /** The tables after write_measurements has returned or raised. */
  function AfterWrite(t: Tables, ms: seq<Measurement>, connected: bool, verdict: Verdict): Tables {
    if connected && verdict != RollsBack then Written(t, ms) else t
  }

  /** What was stored stays where it is, and what is new records measurements and hops of the batch. */
  ghost predicate Extends(t: Tables, t': Tables, ms: seq<Measurement>) {
    RowsAreAdded(t.rows, t'.rows, ms) && HopsAreAdded(t.hops, t'.hops, ms)
  }

  ghost predicate RowsAreAdded(rows: seq<Row>, rows': seq<Row>, ms: seq<Measurement>) {
    rows <= rows' && forall i | |rows| <= i < |rows'| :: exists m :: m in ms && Records(rows'[i], m)
  }

  ghost predicate HopsAreAdded(hops: seq<HopRow>, hops': seq<HopRow>, ms: seq<Measurement>) {
    hops <= hops' && forall i | |hops| <= i < |hops'| :: IsHopOf(hops'[i], ms)
  }

  ghost predicate IsHopOf(h: HopRow, ms: seq<Measurement>) {
    exists m :: m in ms && RecordsAHop(h, m)
  }

  /** The measurement has a row by its time stamp and id, and each of its hops one by its number as well. */
  ghost predicate IsKnown(t: Tables, m: Measurement) {
    && (exists r :: r in t.rows && r.ts == m.ts && r.id == m.id)
    && (forall k | 0 <= k < |m.hops| :: HasHopNumbered(t.hops, m, m.hops[k].hopNo))
  }

  ghost predicate HasHopNumbered(hops: seq<HopRow>, m: Measurement, n: int) {
    exists h :: h in hops && h.ts == m.ts && h.measurementId == m.id && h.hopNo == n
  }

  lemma WritingExtends(t: Tables, ms: seq<Measurement>)
    ensures Extends(t, Written(t, ms), ms)
    ensures forall m | m in ms :: IsKnown(Written(t, ms), m)
  {
    hide InsertAll, RowsAreAdded, HopsAreAdded, HasKey, HasHopNumbered;
    RowsExtend(t, ms);
    HopsExtend(t, ms);
  }

  lemma NothingExtends(t: Tables, ms: seq<Measurement>)
    ensures Extends(t, t, ms)
  {
  }

  lemma RowsExtend(t: Tables, ms: seq<Measurement>)
    ensures var rows := Written(t, ms).rows;
            && RowsAreAdded(t.rows, rows, ms)
            && (forall m | m in ms :: exists r :: r in rows && r.ts == m.ts && r.id == m.id)
  {
    hide InsertAll;
    var added, rows := RowsOf(ms), Written(t, ms).rows;
    NewRowsComeFromTheBatch(RowKeyOf, t.rows, added);
    InsertAllKeys(RowKeyOf, t.rows, added);
    forall i | |t.rows| <= i < |rows| ensures exists m :: m in ms && Records(rows[i], m) {
      var k :| 0 <= k < |added| && added[k] == rows[i];
      RowsRecord(ms[k]);
      assert ms[k] in ms;
    }
    forall m | m in ms ensures exists r :: r in rows && r.ts == m.ts && r.id == m.id {
      var k :| 0 <= k < |ms| && ms[k] == m;
      RowsRecord(m);
      assert added[k] in added && HasKey(RowKeyOf, added, RowKeyOf(added[k]));
      assert HasKey(RowKeyOf, rows, RowKeyOf(added[k]));
    }
  }

  lemma HopsExtend(t: Tables, ms: seq<Measurement>)
    ensures var hops := Written(t, ms).hops;
            && HopsAreAdded(t.hops, hops, ms)
            && (forall m | m in ms :: forall k | 0 <= k < |m.hops| :: HasHopNumbered(hops, m, m.hops[k].hopNo))
  {
    hide InsertAll, AllHopRows, IsHopOf, HasHopNumbered;
    var added, hops := AllHopRows(ms), Written(t, ms).hops;
    NewRowsComeFromTheBatch(HopKeyOf, t.hops, added);
    InsertAllKeys(HopKeyOf, t.hops, added);
    forall h | h in added ensures IsHopOf(h, ms) {
      AllHopRowsHolds(ms, h);
      var m :| m in ms && h in HopRowsOf(m);
      HopRowIsOf(m, h, ms);
    }
    forall m | m in ms ensures forall k | 0 <= k < |m.hops| :: HasHopNumbered(hops, m, m.hops[k].hopNo) {
      forall k | 0 <= k < |m.hops| ensures HasHopNumbered(hops, m, m.hops[k].hopNo) {
        var h := HopRowsOf(m)[k];
        RowsRecord(m);
        AllHopRowsHolds(ms, h);
        assert HasKey(HopKeyOf, added, HopKeyOf(h));
        KeyIsNumber(hops, h, m, m.hops[k].hopNo);
      }
    }
  }

  lemma HopRowIsOf(m: Measurement, h: HopRow, ms: seq<Measurement>)
    requires m in ms && h in HopRowsOf(m)
    ensures IsHopOf(h, ms)
  {
    HopRowsRecord(m, h);
  }

  lemma KeyIsNumber(hops: seq<HopRow>, h: HopRow, m: Measurement, n: int)
    requires HasKey(HopKeyOf, hops, HopKeyOf(h)) && h.ts == m.ts && h.measurementId == m.id && h.hopNo == n
    ensures HasHopNumbered(hops, m, n)
  {
  }

  lemma HopRowsRecord(m: Measurement, h: HopRow)
    requires h in HopRowsOf(m)
    ensures RecordsAHop(h, m)
  {
    var k :| 0 <= k < |m.hops| && h == HopRowsOf(m)[k];
    RowsRecord(m);
    assert RecordsHop(h, m, k);
  }

  class PostgresStore {
    var tables: Tables
    var connected: bool

    constructor ()
      ensures tables == EMPTY_TABLES && !connected
    {
      tables, connected := EMPTY_TABLES, false;
    }

    /** What was stored stays. Whatever the verdict, the new rows record measurements of the batch, and
        unless it is rolled back every measurement of the batch has a row by its time stamp and id.
        `Ok` carries the number of rows submitted to the transaction, conflicting ones included;
        `Err` is the StorageError. */
    method WriteMeasurements(ms: seq<Measurement>, verdict: Verdict) returns (r: Result<nat, ()>)
      modifies `tables
      ensures r == if ms == [] then Ok(0)
                   else if connected && verdict == Commits then Ok(|ms|) else Err(())
      ensures tables == AfterWrite(old(tables), ms, connected, verdict)
      ensures Extends(old(tables), tables, ms)
      ensures if connected && verdict != RollsBack then forall m | m in ms :: IsKnown(tables, m)
              else tables == old(tables)
    {
      hide IsKnown, Extends;
      NothingExtends(tables, ms);
      WritingExtends(tables, ms);
      if ms == [] {
        EmptyWrite(tables);
        return Ok(0);
      }
      if !connected {
        return Err(());
      }
      var rows, hopRows := RowsOf(ms), [];
      for i := 0 to |ms|
        invariant hopRows == AllHopRows(ms[..i])
      {
        assert ms[..i + 1][..i] == ms[..i];
        hopRows := hopRows + HopRowsOf(ms[i]);
      }
      assert ms[..|ms|] == ms;
      // The transaction works on its own version of the tables.
      var working := ExecuteMany(RowKeyOf, tables.rows, rows);
      var workingHops := tables.hops;
      if hopRows != [] {
        workingHops := ExecuteMany(HopKeyOf, workingHops, hopRows);
      }
      match verdict
      case Commits =>
        tables := Tables(working, workingHops);
        return Ok(|rows|);
      case RollsBack =>
        return Err(());
      case CommitsUnacknowledged =>
        tables := Tables(working, workingHops);
        return Err(());
    }
  }

  /** executemany over an INSERT ... ON CONFLICT (key) DO NOTHING statement. */
  method ExecuteMany<R(==), K(==)>(key: R -> K, rows: seq<R>, added: seq<R>) returns (after: seq<R>)
    ensures after == InsertAll(key, rows, added)
  {
    after := rows;
    for i := 0 to |added|
      invariant after == InsertAll(key, rows, added[..i])
    {
      assert added[..i + 1][..i] == added[..i];
      after := Insert(key, after, added[i]);
    }
    assert added[..|added|] == added;
  }

  lemma EmptyWrite(t: Tables)
    ensures Written(t, []) == t
  {
  }

  /** The tables hold the measurements of `stored`, each row and each hop row once, and
      nothing else. */
  ghost predicate Holds(t: Tables, stored: set<Measurement>) {
    && UniqueKeys(RowKeyOf, t.rows)
    && UniqueKeys(HopKeyOf, t.hops)
    && (forall r: Row :: r in t.rows <==> exists m :: m in stored && r == RowOf(m))
    && (forall h: HopRow :: h in t.hops <==> exists m :: m in stored && h in HopRowsOf(m))
  }

  /** The tables tell of each measurement exactly once what it said, and of nothing else. */
  ghost predicate Tells(t: Tables, stored: set<Measurement>) {
    && (forall m | m in stored :: IsToldOnce(t.rows, m) && HopsAreToldOnce(t.hops, m))
    && (forall r | r in t.rows :: exists m :: m in stored && Records(r, m))
    && (forall h | h in t.hops :: exists m :: m in stored && RecordsAHop(h, m))
  }

  /** A row records the measurement, and no other has its time stamp and id. */
  ghost predicate IsToldOnce(rows: seq<Row>, m: Measurement) {
    exists i ::
      && 0 <= i < |rows| && Records(rows[i], m)
      && forall j | 0 <= j < |rows| :: rows[j].ts == m.ts && rows[j].id == m.id ==> j == i
  }

  /** For each hop a row records it, and no other of the measurement has its number. */
  ghost predicate HopsAreToldOnce(hops: seq<HopRow>, m: Measurement) {
    forall k | 0 <= k < |m.hops| :: IsHopToldOnce(hops, m, k)
  }

  ghost predicate IsHopToldOnce(hops: seq<HopRow>, m: Measurement, k: int)
    requires 0 <= k < |m.hops|
  {
    exists i ::
      && 0 <= i < |hops| && RecordsHop(hops[i], m, k)
      && forall j | 0 <= j < |hops| ::
           hops[j].ts == m.ts && hops[j].measurementId == m.id && hops[j].hopNo == m.hops[k].hopNo ==> j == i
  }

  lemma HoldingTells(t: Tables, stored: set<Measurement>)
    requires Holds(t, stored)
    ensures Tells(t, stored)
  {
    hide Records, RecordsAHop, IsToldOnce, HopsAreToldOnce;
    forall m | m in stored ensures IsToldOnce(t.rows, m) && HopsAreToldOnce(t.hops, m) {
      assert RowOf(m) in t.rows;
      OneRowTells(t.rows, m);
      OneRowTellsEachHop(t.hops, m);
    }
    forall r | r in t.rows ensures exists m :: m in stored && Records(r, m) {
      var m :| m in stored && r == RowOf(m);
      RowsRecord(m);
    }
    forall h | h in t.hops ensures exists m :: m in stored && RecordsAHop(h, m) {
      var m :| m in stored && h in HopRowsOf(m);
      HopRowsRecord(m, h);
    }
  }

  lemma OneRowTells(rows: seq<Row>, m: Measurement)
    requires UniqueKeys(RowKeyOf, rows) && RowOf(m) in rows
    ensures IsToldOnce(rows, m)
  {
    RowsRecord(m);
    var i :| 0 <= i < |rows| && rows[i] == RowOf(m);
    assert forall j | 0 <= j < |rows| && j != i :: RowKeyOf(rows[j]) != RowKeyOf(rows[i]);
  }

  lemma OneRowTellsEachHop(hops: seq<HopRow>, m: Measurement)
    requires UniqueKeys(HopKeyOf, hops) && forall h | h in HopRowsOf(m) :: h in hops
    ensures HopsAreToldOnce(hops, m)
  {
    RowsRecord(m);
    forall k | 0 <= k < |m.hops| ensures IsHopToldOnce(hops, m, k) {
      assert HopRowsOf(m)[k] in hops;
      var i :| 0 <= i < |hops| && hops[i] == HopRowsOf(m)[k];
      assert forall j | 0 <= j < |hops| && j != i :: HopKeyOf(hops[j]) != HopKeyOf(hops[i]);
    }
  }

  /** Writing a batch, seen before or not, in whole or in part, stores exactly its measurements. */
  lemma WriteStores(t: Tables, stored: set<Measurement>, ms: seq<Measurement>)
    requires Holds(t, stored) && WellIdentified(stored + Contents(ms))
    ensures Holds(Written(t, ms), stored + Contents(ms)) && Tells(Written(t, ms), stored + Contents(ms))
  {
    hide Tells;
    WriteStoresRows(t, stored, ms);
    WriteStoresHops(t, stored, ms);
    HoldingTells(Written(t, ms), stored + Contents(ms));
  }

  lemma WriteStoresRows(t: Tables, stored: set<Measurement>, ms: seq<Measurement>)
    requires Holds(t, stored) && WellIdentified(stored + Contents(ms))
    ensures UniqueKeys(RowKeyOf, Written(t, ms).rows)
    ensures forall r: Row :: r in Written(t, ms).rows <==> exists m :: m in stored + Contents(ms) && r == RowOf(m)
  {
    var all := stored + Contents(ms);
    forall r
      ensures r in t.rows + RowsOf(ms) <==> exists m :: m in all && r == RowOf(m)
    {
      if m :| m in ms && r == RowOf(m) {
        var i :| 0 <= i < |ms| && ms[i] == m;
        assert RowsOf(ms)[i] == r;
      }
      if r in RowsOf(ms) {
        var i :| 0 <= i < |ms| && RowsOf(ms)[i] == r;
        assert ms[i] in all;
      }
    }
    forall r, s | r in t.rows + RowsOf(ms) && s in t.rows + RowsOf(ms) && RowKeyOf(r) == RowKeyOf(s)
      ensures r == s
    {
      var m :| m in all && r == RowOf(m);
      var n :| n in all && s == RowOf(n);
      assert KeyOf(m) == KeyOf(n);
    }
    InsertAllIsUnion(RowKeyOf, t.rows, RowsOf(ms));
    InsertAllKeepsKeysUnique(RowKeyOf, t.rows, RowsOf(ms));
  }

  lemma WriteStoresHops(t: Tables, stored: set<Measurement>, ms: seq<Measurement>)
    requires Holds(t, stored) && WellIdentified(stored + Contents(ms))
    ensures UniqueKeys(HopKeyOf, Written(t, ms).hops)
    ensures forall h: HopRow ::
              h in Written(t, ms).hops <==> exists m :: m in stored + Contents(ms) && h in HopRowsOf(m)
  {
    var all, hops := stored + Contents(ms), AllHopRows(ms);
    forall h
      ensures h in t.hops + hops <==> exists m :: m in all && h in HopRowsOf(m)
    {
      AllHopRowsHolds(ms, h);
    }
    forall g, h | g in t.hops + hops && h in t.hops + hops && HopKeyOf(g) == HopKeyOf(h)
      ensures g == h
    {
      var m :| m in all && g in HopRowsOf(m);
      var n :| n in all && h in HopRowsOf(n);
      HopRowsAreKeyed(all, m, n, g, h);
    }
    InsertAllIsUnion(HopKeyOf, t.hops, hops);
    InsertAllKeepsKeysUnique(HopKeyOf, t.hops, hops);
    assert forall h :: h in Written(t, ms).hops <==> h in t.hops + hops;
  }

  /** Delivering a batch again, at any later time, leaves both tables as they are: no matter what
      the ids are and what else was written in between. */
  lemma RedeliveryIsNoOp(t: Tables, ms: seq<Measurement>, between: seq<Measurement>)
    ensures var later := Written(Written(t, ms), between);
            Written(later, ms) == later
  {
    var later := Written(Written(t, ms), between);
    KnownStaysKnown(RowKeyOf, t.rows, RowsOf(ms), RowsOf(between));
    KnownStaysKnown(HopKeyOf, t.hops, AllHopRows(ms), AllHopRows(between));
    InsertKnownIsNoOp(RowKeyOf, later.rows, RowsOf(ms));
    InsertKnownIsNoOp(HopKeyOf, later.hops, AllHopRows(ms));
  }

  lemma KnownStaysKnown<R, K>(key: R -> K, rows: seq<R>, added: seq<R>, between: seq<R>)
    ensures forall r | r in added :: HasKey(key, InsertAll(key, InsertAll(key, rows, added), between), key(r))
  {
    InsertAllKeys(key, rows, added);
    InsertAllKeys(key, InsertAll(key, rows, added), between);
    forall r | r in added
      ensures HasKey(key, InsertAll(key, InsertAll(key, rows, added), between), key(r))
    {
      assert HasKey(key, added, key(r));
    }
  }

  /** The hop table receives every hop of a measurement exactly when its hop numbers differ;
      with a repeated number only the first hop that bears it is stored. */
  lemma HopsStoredWhole(m: Measurement)
    ensures Written(EMPTY_TABLES, [m]).hops == HopRowsOf(m) <==> HopsDistinct(m)
  {
    hide UniqueKeys, InsertAll, HopsDistinct;
    OneMeasurementsHops(m);
    InsertIntoEmpty(HopKeyOf, HopRowsOf(m));
    HopKeysDiffer(m);
  }

  lemma OneMeasurementsHops(m: Measurement)
    ensures AllHopRows([m]) == HopRowsOf(m)
  {
    var none: seq<Measurement> := [];
    assert [m][..0] == none;
    assert AllHopRows([m]) == AllHopRows(none) + HopRowsOf(m);
  }

  lemma HopKeysDiffer(m: Measurement)
    ensures UniqueKeys(HopKeyOf, HopRowsOf(m)) <==> HopsDistinct(m)
  {
    var rows := HopRowsOf(m);
    assert forall i | 0 <= i < |rows| :: HopKeyOf(rows[i]) == (m.ts, m.id, m.hops[i].hopNo);
    if UniqueKeys(HopKeyOf, rows) {
      forall i, j | 0 <= i < j < |m.hops|
        ensures m.hops[i].hopNo != m.hops[j].hopNo
      {
        assert HopKeyOf(rows[i]) != HopKeyOf(rows[j]);
      }
    }
  }

  /** Without the conflict rule (the ClickHouse tables have no key) a redelivery duplicates. */
  lemma PlainInsertDuplicates(rows: seq<Row>, ms: seq<Measurement>)
    requires ms != []
    ensures !UniqueKeys(RowKeyOf, rows + RowsOf(ms) + RowsOf(ms))
  {
    var twice := rows + RowsOf(ms) + RowsOf(ms);
    assert twice[|rows|] == twice[|rows| + |ms|];
  }
}
