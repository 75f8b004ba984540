/** The wire entities that travel from an agent to the database.

  Columns that no property depends on are folded into one opaque string: `report` for the
  per-hop figures and `body` for everything else a measurement carries.
 */
module Measurements {

  datatype Hop = Hop(hopNo: int, report: string)

  datatype Measurement = Measurement(ts: int, id: string, success: bool, errorMessage: string,
                                     hops: seq<Hop>, body: string)

  /** A row of the `measurements` table. */
  datatype Row = Row(ts: int, id: string, success: bool, errorMessage: string, body: string)

  /** A row of the `mtr_hops` table. */
  datatype HopRow = HopRow(ts: int, measurementId: string, hopNo: int, report: string,
                           isDestination: bool)

  type RowKey = (int, string)
  type HopKey = (int, string, int)

  const ERROR_MESSAGE_LIMIT := 2000

  function KeyOf(m: Measurement): RowKey {
    (m.ts, m.id)
  }

  function RowKeyOf(r: Row): RowKey {
    (r.ts, r.id)
  }

  function HopKeyOf(h: HopRow): HopKey {
    (h.ts, h.measurementId, h.hopNo)
  }

  function Truncated(text: string): string {
    if |text| <= ERROR_MESSAGE_LIMIT then text else text[..ERROR_MESSAGE_LIMIT]
  }

  function RowOf(m: Measurement): Row {
    Row(m.ts, m.id, m.success, Truncated(m.errorMessage), m.body)
  }

  /** The row says of the measurement what it said itself, its error message up to 2000 characters. */
  ghost predicate Records(r: Row, m: Measurement) {
    && r.ts == m.ts && r.id == m.id && r.success == m.success && r.body == m.body
    && r.errorMessage <= m.errorMessage
    && |r.errorMessage| == if |m.errorMessage| <= 2000 then |m.errorMessage| else 2000
  }

  /** The row says of the i-th hop what it said itself, and whether it was the last. */
  ghost predicate RecordsHop(h: HopRow, m: Measurement, i: int) {
    && 0 <= i < |m.hops|
    && h.ts == m.ts && h.measurementId == m.id && h.hopNo == m.hops[i].hopNo && h.report == m.hops[i].report
    && (h.isDestination <==> i == |m.hops| - 1)
  }

  ghost predicate RecordsAHop(h: HopRow, m: Measurement) {
    exists i :: RecordsHop(h, m, i)
  }

  function HopRowAt(m: Measurement, i: nat): HopRow
    requires i < |m.hops|
  {
    HopRow(m.ts, m.id, m.hops[i].hopNo, m.hops[i].report, i == |m.hops| - 1)
  }

  function HopRowsOf(m: Measurement): (rows: seq<HopRow>)
    ensures |rows| == |m.hops|
    ensures forall i | 0 <= i < |rows| :: rows[i] == HopRowAt(m, i)
  {
    seq(|m.hops|, i requires 0 <= i < |m.hops| => HopRowAt(m, i))
  }

  function RowsOf(ms: seq<Measurement>): (rows: seq<Row>)
    ensures |rows| == |ms|
    ensures forall i | 0 <= i < |rows| :: rows[i] == RowOf(ms[i])
  {
    seq(|ms|, i requires 0 <= i < |ms| => RowOf(ms[i]))
  }

  /** Every hop row of a batch, measurement by measurement. */
  function AllHopRows(ms: seq<Measurement>): seq<HopRow> {
    if ms == [] then [] else AllHopRows(ms[..|ms| - 1]) + HopRowsOf(ms[|ms| - 1])
  }

  function Contents(ms: seq<Measurement>): set<Measurement> {
    set m | m in ms
  }

  lemma {:induction false} AllHopRowsHolds(ms: seq<Measurement>, h: HopRow)
    ensures h in AllHopRows(ms) <==> exists m :: m in ms && h in HopRowsOf(m)
  {
    if ms != [] {
      var init, last := ms[..|ms| - 1], ms[|ms| - 1];
      AllHopRowsHolds(init, h);
      assert ms == init + [last];
    }
  }

  /** Hop numbers identify the hops of one measurement. */
  predicate HopsDistinct(m: Measurement) {
    forall i, j | 0 <= i < j < |m.hops| :: m.hops[i].hopNo != m.hops[j].hopNo
  }

  /** Ids are fresh: two measurements with one (ts, id) are the same measurement. */
  predicate WellIdentified(ms: set<Measurement>) {
    && (forall m, n | m in ms && n in ms && KeyOf(m) == KeyOf(n) :: m == n)
    && (forall m | m in ms :: HopsDistinct(m))
  }

  lemma HopRowsAreKeyed(ms: set<Measurement>, m: Measurement, n: Measurement, g: HopRow, h: HopRow)
    requires WellIdentified(ms) && m in ms && n in ms
    requires g in HopRowsOf(m) && h in HopRowsOf(n) && HopKeyOf(g) == HopKeyOf(h)
    ensures g == h
  {
    assert KeyOf(m) == KeyOf(n);
    var i :| 0 <= i < |m.hops| && g == HopRowAt(m, i);
    var j :| 0 <= j < |n.hops| && h == HopRowAt(n, j);
    assert i == j;
  }

  lemma RowsRecord(m: Measurement)
    ensures Records(RowOf(m), m)
    ensures forall i | 0 <= i < |m.hops| :: RecordsHop(HopRowsOf(m)[i], m, i)
  {
  }
}
