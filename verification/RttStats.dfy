/** The summary of a cycle's round-trip times, over exact reals. The model keeps the variance, whose
    square root is the stored standard deviation. */
module RttStats {
  import opened Permutations
  import opened RealProducts
  import opened Wrappers

  datatype Stats = Stats(minMs: real, avgMs: real, medianMs: real, maxMs: real, variance: real,
                         p95Ms: real, jitterMs: real)

  // ---- sorting -------------------------------------------------------------------

  ghost predicate Ascending(s: seq<real>) {
    forall i, j | 0 <= i <= j < |s| :: s[i] <= s[j]
  }

  function Insert(s: seq<real>, v: real): seq<real> {
    if s == [] then [v]
    else if v <= s[0] then [v] + s
    else [s[0]] + Insert(s[1..], v)
  }

  lemma {:induction false} InsertPermutes(s: seq<real>, v: real)
    ensures multiset(Insert(s, v)) == multiset(s) + multiset{v}
  {
    if s != [] && v > s[0] {
      InsertPermutes(s[1..], v);
      assert s == [s[0]] + s[1..];
    }
  }

  lemma {:induction false} InsertAscends(s: seq<real>, v: real)
    requires Ascending(s)
    ensures Ascending(Insert(s, v))
  {
    if s != [] && v > s[0] {
      InsertAscends(s[1..], v);
      InsertPermutes(s[1..], v);
      var rest := Insert(s[1..], v);
      forall i | 0 <= i < |rest| ensures s[0] <= rest[i] {
        assert rest[i] in multiset(rest);
      }
    }
  }

  /** `sorted` */
  function Sorted(s: seq<real>): seq<real> {
    if s == [] then [] else Insert(Sorted(s[1..]), s[0])
  }

  lemma {:induction false} SortedPermutes(s: seq<real>)
    ensures multiset(Sorted(s)) == multiset(s)
  {
    hide Insert, Ascending;
    if s != [] {
      SortedPermutes(s[1..]);
      InsertPermutes(Sorted(s[1..]), s[0]);
      assert s == [s[0]] + s[1..];
    }
  }

  lemma {:induction false} SortedAscends(s: seq<real>)
    ensures Ascending(Sorted(s)) && |Sorted(s)| == |s|
  {
    hide Insert;
    if s != [] {
      SortedAscends(s[1..]);
      InsertAscends(Sorted(s[1..]), s[0]);
      SortedPermutes(s);
      assert |Sorted(s)| == |multiset(Sorted(s))| == |multiset(s)|;
    }
  }

  lemma LeastComesFirst(a: seq<real>, b: seq<real>)
    requires Ascending(a) && a != [] && multiset(a) == multiset(b) && b != []
    ensures a[0] <= b[0]
  {
    assert b[0] in multiset(a);
    var j :| 0 <= j < |a| && a[j] == b[0];
  }

  lemma RestOf(s: seq<real>)
    requires s != []
    ensures multiset(s[1..]) == multiset(s) - multiset{s[0]}
  {
    assert s == [s[0]] + s[1..];
  }

  /** There is one ascending order of given values. */
  lemma {:induction false} OneAscendingOrder(a: seq<real>, b: seq<real>)
    requires Ascending(a) && Ascending(b) && multiset(a) == multiset(b)
    ensures a == b
  {
    assert |a| == |multiset(a)| == |multiset(b)| == |b|;
    if a != [] {
      LeastComesFirst(a, b);
      LeastComesFirst(b, a);
      RestOf(a);
      RestOf(b);
      OneAscendingOrder(a[1..], b[1..]);
      assert a == [a[0]] + a[1..] && b == [b[0]] + b[1..];
    }
  }

  // ---- percentiles --------------------------------------------------------------------

  function Ceiling(x: real): int {
    if x == x.Floor as real then x.Floor else x.Floor + 1
  }

  function Blend(a: real, b: real, t: real): real {
    a * (1.0 - t) + b * t
  }

  /** The value at a fractional position. */
  function ValueAt(s: seq<real>, pos: real): real
    requires s != [] && 0.0 <= pos <= (|s| - 1) as real
  {
    var lower, upper := pos.Floor, Ceiling(pos);
    if lower == upper then s[lower] else Blend(s[lower], s[upper], pos - lower as real)
  }

  function Position(n: nat, q: real): real {
    (n - 1) as real * q
  }

  lemma PositionInRange(n: nat, q: real)
    requires n >= 1 && 0.0 <= q <= 1.0
    ensures 0.0 <= Position(n, q) <= (n - 1) as real
  {
    var last := (n - 1) as real;
    var rest := 1.0 - q;
    NonNegative(last, q);
    NonNegative(last, rest);
    assert last * rest == last - last * q;
  }

  /** percentile: an error for no values at all. */
  function Percentile(s: seq<real>, q: real): Result<real, ()>
    requires 0.0 <= q <= 1.0
  {
    if s == [] then Err(())
    else if |s| == 1 then Ok(s[0])
    else
      PositionInRange(|s|, q);
      Ok(ValueAt(s, Position(|s|, q)))
  }

  lemma Parts(a: real, b: real, t: real)
    ensures Blend(a, b, t) == Times(a, 1.0 - t) + Times(b, t)
    ensures Times(a, 1.0 - t) + Times(a, t) == a && Times(b, 1.0 - t) + Times(b, t) == b
  {
  }

  lemma BlendIsBetween(a: real, b: real, t: real)
    requires a <= b && 0.0 <= t <= 1.0
    ensures a <= Blend(a, b, t) <= b
  {
    hide Blend, Times;
    Parts(a, b, t);
    TimesScales(a, b, t);
    TimesScales(a, b, 1.0 - t);
  }

  lemma BlendIsMonotone(a: real, b: real, t: real, u: real)
    requires a <= b && t <= u
    ensures Blend(a, b, t) <= Blend(a, b, u)
  {
    var gap, more := b - a, u - t;
    NonNegative(gap, more);
    assert gap * more == b * u - b * t - a * u + a * t;
  }

  /** A percentile lies between the samples on either side of its position. */
  lemma BetweenNeighbours(s: seq<real>, pos: real)
    requires s != [] && 0.0 <= pos <= (|s| - 1) as real && Ascending(s)
    ensures s[pos.Floor] <= ValueAt(s, pos) <= s[Ceiling(pos)]
  {
    if pos != pos.Floor as real {
      BlendIsBetween(s[pos.Floor], s[Ceiling(pos)], pos - pos.Floor as real);
    }
  }

  lemma ValueIsMonotone(s: seq<real>, p: real, q: real)
    requires s != [] && 0.0 <= p <= q <= (|s| - 1) as real && Ascending(s)
    ensures ValueAt(s, p) <= ValueAt(s, q)
  {
    BetweenNeighbours(s, p);
    BetweenNeighbours(s, q);
    if p.Floor == q.Floor {
      if p != p.Floor as real {
        BlendIsMonotone(s[p.Floor], s[p.Floor + 1], p - p.Floor as real, q - p.Floor as real);
      }
    } else {
      assert Ceiling(p) <= q.Floor;
    }
  }

  /** Percentiles do not decrease in q. */
  lemma PercentileIsMonotone(s: seq<real>, p: real, q: real)
    requires s != [] && 0.0 <= p <= q <= 1.0 && Ascending(s)
    ensures Percentile(s, p).value <= Percentile(s, q).value
  {
    if |s| > 1 {
      PositionInRange(|s|, p);
      PositionInRange(|s|, q);
      var last, more := (|s| - 1) as real, q - p;
      NonNegative(last, more);
      assert last * more == last * q - last * p;
      ValueIsMonotone(s, Position(|s|, p), Position(|s|, q));
    }
  }

  /** A percentile that falls on a sample is that sample. */
  lemma PercentileHitsSamples(s: seq<real>, k: nat)
    requires 1 < |s| && k < |s|
    ensures 0.0 <= k as real / (|s| - 1) as real <= 1.0
    ensures Percentile(s, k as real / (|s| - 1) as real) == Ok(s[k])
  {
    var last := (|s| - 1) as real;
    var q := k as real / last;
    assert q * last == k as real;
    assert 0.0 <= q <= 1.0 by {
      Quotient(k as real, last);
    }
    assert Position(|s|, q) == k as real;
  }

  lemma Quotient(a: real, b: real)
    requires 0.0 <= a <= b && b > 0.0
    ensures 0.0 <= a / b <= 1.0
  {
    var q := a / b;
    assert q * b == a;
    if q < 0.0 {
      NonNegative(-q, b);
    }
    if q > 1.0 {
      Scaled(1.0, q, b);
    }
  }

  /** The point a fraction of the way from one value to another. */
  function Along(a: real, b: real, t: real): real {
    a + t * (b - a)
  }

  lemma Mixed(a: real, b: real, t: real)
    ensures Blend(a, b, t) == Along(a, b, t)
    ensures Along(a, b, 0.0) == a && Along(a, b, 1.0) == b && Along(a, b, 0.5) == (a + b) / 2.0
  {
  }

  lemma ValueIsAlong(s: seq<real>, pos: real, k: nat)
    requires k + 1 < |s| && k as real <= pos <= (k + 1) as real
    ensures ValueAt(s, pos) == Along(s[k], s[k + 1], pos - k as real)
  {
    hide Along, Blend;
    Mixed(s[k], s[k + 1], pos - k as real);
    if pos == (k + 1) as real {
      assert pos.Floor == k + 1 == Ceiling(pos);
    } else if pos == k as real {
      assert pos.Floor == k == Ceiling(pos);
    } else {
      assert pos.Floor == k && Ceiling(pos) == k + 1;
    }
  }

  /** Between two samples a percentile moves in a straight line. */
  lemma PercentileIsLinear(s: seq<real>, q: real, k: nat)
    requires k + 1 < |s| && 0.0 <= q <= 1.0 && k as real <= (|s| - 1) as real * q <= (k + 1) as real
    ensures Percentile(s, q) == Ok(Along(s[k], s[k + 1], (|s| - 1) as real * q - k as real))
  {
    hide Along, ValueAt;
    var pos := Position(|s|, q);
    assert pos == (|s| - 1) as real * q;
    PositionInRange(|s|, q);
    ValueIsAlong(s, pos, k);
  }

  /** The median is the sample in the middle, or half way between the two in the middle. */
  lemma MedianIsTheMiddle(s: seq<real>)
    requires s != []
    ensures var n := |s|;
            Percentile(s, 0.5) == Ok(if n % 2 == 1 then s[n / 2] else (s[n / 2 - 1] + s[n / 2]) / 2.0)
  {
    hide Along, ValueAt;
    var n := |s|;
    if n == 1 {
      OnlyPercentile(s);
    } else {
      var k := n / 2 - 1;
      var pos := (n - 1) as real * 0.5;
      if n % 2 == 1 {
        assert n == 2 * k + 3;
        assert pos == (k + 1) as real;
      } else {
        assert n == 2 * k + 2;
        assert pos == k as real + 0.5;
      }
      PercentileIsLinear(s, 0.5, k);
      Mixed(s[k], s[k + 1], pos - k as real);
    }
  }

  lemma OnlyPercentile(s: seq<real>)
    ensures |s| == 1 ==> Percentile(s, 0.5) == Ok(s[0]) && Percentile(s, 0.95) == Ok(s[0])
  {
  }

  lemma PercentileEnds(s: seq<real>)
    requires s != []
    ensures Percentile(s, 0.0) == Ok(s[0]) && Percentile(s, 1.0) == Ok(s[|s| - 1])
  {
    if |s| > 1 {
      assert Position(|s|, 0.0) == 0.0 && Position(|s|, 1.0) == (|s| - 1) as real;
    }
  }

  // ---- the summary ----------------------------------------------------------------------

  function Sum(s: seq<real>): real {
    if s == [] then 0.0 else s[0] + Sum(s[1..])
  }

  function Square(x: real): real {
    x * x
  }

  function SquaredDeviations(s: seq<real>, centre: real): real {
    if s == [] then 0.0 else Square(s[0] - centre) + SquaredDeviations(s[1..], centre)
  }

  function Abs(x: real): (r: real)
    ensures r >= 0.0 && r >= x && r >= -x
  {
    if x < 0.0 then -x else x
  }

  /** The sum of the steps between consecutive samples. */
  function Steps(s: seq<real>): real {
    if |s| <= 1 then 0.0 else Abs(s[1] - s[0]) + Steps(s[1..])
  }

  function Present(rtts: seq<Option<real>>): seq<real> {
    if rtts == [] then []
    else (if rtts[0].Some? then [rtts[0].value] else []) + Present(rtts[1..])
  }

  function Summary(values: seq<real>): Stats
    requires values != []
  {
    SortedAscends(values);
    var ordered := Sorted(values);
    var n := |ordered| as real;
    var avg := Sum(ordered) / n;
    Stats(ordered[0], avg, Percentile(ordered, 0.5).value, ordered[|ordered| - 1],
          SquaredDeviations(ordered, avg) / n, Percentile(ordered, 0.95).value,
          if |values| > 1 then Steps(values) / (|values| - 1) as real else 0.0)
  }

  /** from_rtts: missing samples are left out, and no sample gives no summary. */
  function FromRtts(rtts: seq<Option<real>>): Option<Stats> {
    var values := Present(rtts);
    if values == [] then None else Some(Summary(values))
  }

  /** Sums are made of their parts. */
  lemma {:induction false} SumsAdd(a: seq<real>, b: seq<real>, centre: real)
    ensures Sum(a + b) == Sum(a) + Sum(b)
    ensures SquaredDeviations(a + b, centre) == SquaredDeviations(a, centre) + SquaredDeviations(b, centre)
    ensures forall x :: Sum([x]) == x && SquaredDeviations([x], centre) == (x - centre) * (x - centre)
    ensures Sum([]) == 0.0 && SquaredDeviations([], centre) == 0.0
  {
    forall x ensures Sum([x]) == x && SquaredDeviations([x], centre) == (x - centre) * (x - centre) {
      assert [x][1..] == [];
    }
    if a == [] {
      assert a + b == b;
    } else {
      assert (a + b)[1..] == a[1..] + b;
      SumsAdd(a[1..], b, centre);
    }
  }

  /** So are steps, with the one between the parts. */
  lemma {:induction false} StepsAdd(a: seq<real>, b: seq<real>)
    requires a != [] && b != []
    ensures var step := b[0] - a[|a| - 1];
            Steps(a + b) == Steps(a) + (if step < 0.0 then -step else step) + Steps(b)
    ensures |a| == 1 ==> Steps(a) == 0.0
  {
    assert (a + b)[1..] == a[1..] + b;
    if |a| > 1 {
      StepsAdd(a[1..], b);
    } else {
      assert a[1..] + b == b;
    }
  }

  lemma {:induction false} SumsIgnoreOrder(a: seq<real>, b: seq<real>, centre: real)
    requires multiset(a) == multiset(b)
    ensures Sum(a) == Sum(b) && SquaredDeviations(a, centre) == SquaredDeviations(b, centre)
  {
    hide Sum, SquaredDeviations;
    if a == [] {
      assert |multiset(b)| == 0;
    } else {
      var i := FirstTaken(a, b);
      SumsIgnoreOrder(a[1..], b[..i] + b[i + 1..], centre);
      SumsAround(a, 0, centre);
      SumsAround(b, i, centre);
      assert a[..0] + a[1..] == a[1..];
    }
  }

  lemma SumsAround(s: seq<real>, i: nat, centre: real)
    requires i < |s|
    ensures var rest := s[..i] + s[i + 1..];
            && Sum(s) == s[i] + Sum(rest)
            && SquaredDeviations(s, centre) == Square(s[i] - centre) + SquaredDeviations(rest, centre)
  {
    hide Sum, SquaredDeviations;
    var before, after := s[..i], s[i + 1..];
    assert s == before + ([s[i]] + after);
    SumsAdd(before, [s[i]] + after, centre);
    SumsAdd([s[i]], after, centre);
    SumsAdd(before, after, centre);
  }

  ghost predicate Within(s: seq<real>, low: real, high: real) {
    forall i | 0 <= i < |s| :: low <= s[i] <= high
  }

  lemma OneMore(n: real, x: real)
    ensures Times(n + 1.0, x) == Times(n, x) + x && Times(0.0, x) == 0.0
  {
  }

  lemma WithinRest(s: seq<real>, low: real, high: real)
    requires s != [] && Within(s, low, high)
    ensures low <= s[0] <= high && Within(s[1..], low, high)
  {
    assert forall i | 0 <= i < |s[1..]| :: s[1..][i] == s[i + 1];
  }

  lemma {:induction false} SumIsBounded(s: seq<real>, low: real, high: real)
    requires Within(s, low, high)
    ensures Times(|s| as real, low) <= Sum(s) <= Times(|s| as real, high)
  {
    hide Times;
    OneMore(0.0, low);
    OneMore(0.0, high);
    if s != [] {
      WithinRest(s, low, high);
      SumIsBounded(s[1..], low, high);
      var n := |s[1..]| as real;
      assert |s| as real == n + 1.0;
      OneMore(n, low);
      OneMore(n, high);
    }
  }

  lemma DividedBounds(sum: real, n: real, low: real, high: real)
    requires n > 0.0 && Times(n, low) <= sum <= Times(n, high)
    ensures low <= sum / n <= high
  {
    Divided(n * low, sum, n);
    Divided(sum, n * high, n);
  }

  lemma Divided(a: real, b: real, n: real)
    requires n > 0.0 && a <= b
    ensures a / n <= b / n
  {
    var x, y := a / n, b / n;
    assert x * n == a && y * n == b;
    var gap := y - x;
    assert gap * n == b - a;
    if gap < 0.0 {
      NonNegative(-gap, n);
    }
  }

  /** Every sample lies between the ends of the sorted list, and both ends are samples. */
  lemma OrderedWithin(s: seq<real>, ordered: seq<real>)
    requires s != [] && Ascending(ordered) && multiset(ordered) == multiset(s) && |ordered| == |s|
    ensures Within(s, ordered[0], ordered[|s| - 1]) && Within(ordered, ordered[0], ordered[|s| - 1])
    ensures ordered[0] in s && ordered[|s| - 1] in s
  {
    forall i | 0 <= i < |s| ensures ordered[0] <= s[i] <= ordered[|s| - 1] {
      assert s[i] in multiset(ordered);
      var j :| 0 <= j < |s| && ordered[j] == s[i];
    }
    assert ordered[0] in multiset(s) && ordered[|s| - 1] in multiset(s);
  }

  lemma PercentileExists(s: seq<real>)
    requires s != []
    ensures forall q | 0.0 <= q <= 1.0 :: Percentile(s, q).Ok?
  {
  }

  /** What the proofs about the summary start from. */
  lemma Facts(values: seq<real>)
    requires values != []
    ensures var ordered, t := Sorted(values), Summary(values);
            && |ordered| == |values| && Ascending(ordered)
            && t.minMs == ordered[0] && t.maxMs == ordered[|values| - 1]
            && t.avgMs == Sum(ordered) / |values| as real
            && Percentile(ordered, 0.5) == Ok(t.medianMs) && Percentile(ordered, 0.95) == Ok(t.p95Ms)
            && t.variance == SquaredDeviations(ordered, t.avgMs) / |values| as real
            && (|values| > 1 ==> t.jitterMs == Steps(values) / (|values| - 1) as real)
            && Within(values, t.minMs, t.maxMs) && Within(ordered, t.minMs, t.maxMs)
            && t.minMs in values && t.maxMs in values
  {
    hide Percentile, Steps, SquaredDeviations, Sum, Sorted;
    SortedAscends(values);
    PercentileExists(Sorted(values));
    SortedPermutes(values);
    OrderedWithin(values, Sorted(values));
  }

  lemma AverageIsBetween(s: seq<real>, low: real, high: real)
    requires s != [] && Within(s, low, high)
    ensures low <= Sum(s) / |s| as real <= high
  {
    hide Sum, Times;
    SumIsBounded(s, low, high);
    DividedBounds(Sum(s), |s| as real, low, high);
  }

  /** min <= median <= p95 <= max, and min <= avg <= max. */
  lemma SummaryIsOrdered(values: seq<real>)
    requires values != []
    ensures var t := Summary(values);
            && t.minMs <= t.medianMs <= t.p95Ms <= t.maxMs
            && t.minMs <= t.avgMs <= t.maxMs
  {
    hide Summary, Percentile, Sum, Sorted;
    Facts(values);
    var ordered := Sorted(values);
    PercentileEnds(ordered);
    PercentileIsMonotone(ordered, 0.0, 0.5);
    PercentileIsMonotone(ordered, 0.5, 0.95);
    PercentileIsMonotone(ordered, 0.95, 1.0);
    AverageIsBetween(ordered, ordered[0], ordered[|ordered| - 1]);
  }

  /** The summary of some samples, said of any ascending arrangement of them: the least and the greatest, the
      mean of all, the middle, the point 95 hundredths of the way up, the mean squared deviation, and the
      mean step from sample to sample in the order in which they came. */
  lemma SummaryTells(values: seq<real>, ordered: seq<real>)
    requires values != [] && Ascending(ordered) && multiset(ordered) == multiset(values)
    ensures var t, n := Summary(values), |values|;
            && |ordered| == n && t.minMs == ordered[0] && t.maxMs == ordered[n - 1]
            && t.avgMs == Sum(values) / n as real
            && t.medianMs == (if n % 2 == 1 then ordered[n / 2] else (ordered[n / 2 - 1] + ordered[n / 2]) / 2.0)
            && IsNinetyFifth(ordered, t.p95Ms)
            && t.variance == SquaredDeviations(values, t.avgMs) / n as real
            && t.jitterMs == if n == 1 then 0.0 else Steps(values) / (n - 1) as real
  {
    hide Percentile, Sum, SquaredDeviations, Sorted, Steps, IsNinetyFifth, Ascending;
    assert |multiset(ordered)| == |multiset(values)|;
    SortedAscends(values);
    SortedPermutes(values);
    OneAscendingOrder(Sorted(values), ordered);
    Facts(values);
    var t := Summary(values);
    SumsIgnoreOrder(ordered, values, t.avgMs);
    MedianIsTheMiddle(ordered);
    NinetyFifth(ordered, t.p95Ms);
  }

  ghost predicate IsNinetyFifth(s: seq<real>, x: real) {
    && (|s| == 1 ==> x == s[0])
    && forall k | 0 <= k < |s| - 1 && k as real <= (|s| - 1) as real * 0.95 <= k as real + 1.0 ::
         x == Along(s[k], s[k + 1], (|s| - 1) as real * 0.95 - k as real)
  }

  lemma NinetyFifth(s: seq<real>, x: real)
    requires s != [] && Percentile(s, 0.95) == Ok(x)
    ensures IsNinetyFifth(s, x)
  {
    hide Percentile, Along;
    OnlyPercentile(s);
    forall k | 0 <= k < |s| - 1 && k as real <= (|s| - 1) as real * 0.95 <= k as real + 1.0
      ensures x == Along(s[k], s[k + 1], (|s| - 1) as real * 0.95 - k as real)
    {
      PercentileIsLinear(s, 0.95, k);
    }
  }

  /** a * sum + b * n */
  function Line(a: real, b: real, sum: real, n: real): real {
    a * sum + b * n
  }

  function Slope(centre: real, low: real, high: real): real {
    high + low - 2.0 * centre
  }

  function Offset(centre: real, low: real, high: real): real {
    centre * centre - high * low
  }

  lemma LinesAdd(a: real, b: real, sum: real, n: real, v: real)
    ensures Line(a, b, v, 1.0) + Line(a, b, sum, n) == Line(a, b, v + sum, n + 1.0)
  {
    assert a * (v + sum) == a * v + a * sum && b * (n + 1.0) == b * n + b;
  }

  lemma {:induction false} PresentHolds(rtts: seq<Option<real>>, v: real)
    ensures v in Present(rtts) <==> Some(v) in rtts
  {
    if rtts != [] {
      PresentHolds(rtts[1..], v);
      assert rtts == [rtts[0]] + rtts[1..];
    }
  }

  /** There is a summary if and only if some sample is present; its ends are samples, and all samples,
      the average and the percentiles lie between them. */
  lemma MissingSamplesDoNotCount(rtts: seq<Option<real>>)
    ensures match FromRtts(rtts)
            case None => forall x | x in rtts :: x.None?
            case Some(t) =>
              && Some(t.minMs) in rtts && Some(t.maxMs) in rtts
              && (forall v :: Some(v) in rtts ==> t.minMs <= v <= t.maxMs)
              && t.minMs <= t.medianMs <= t.p95Ms <= t.maxMs && t.minMs <= t.avgMs <= t.maxMs
  {
    hide Summary, Percentile, Sum, Sorted;
    var values := Present(rtts);
    forall v ensures v in values <==> Some(v) in rtts {
      PresentHolds(rtts, v);
    }
    assert forall x | x in rtts :: x.Some? ==> x.value in values;
    if values != [] {
      Facts(values);
      SummaryIsOrdered(values);
    }
  }

  /** For values between low and high, the product of the distances to both ends is not negative,
      one by one and so in the sum. */
  lemma {:induction false} SpreadIsBounded(s: seq<real>, centre: real, low: real, high: real)
    requires Within(s, low, high)
    ensures SquaredDeviations(s, centre)
            <= Line(Slope(centre, low, high), Offset(centre, low, high), Sum(s), |s| as real)
  {
    hide Line, Slope, Offset, Square;
    var a, b := Slope(centre, low, high), Offset(centre, low, high);
    if s == [] {
      EmptyLine(a, b);
    } else {
      WithinRest(s, low, high);
      SpreadIsBounded(s[1..], centre, low, high);
      OneSpread(s[0], centre, low, high);
      var sum, n := Sum(s[1..]), |s[1..]| as real;
      LinesAdd(a, b, sum, n, s[0]);
      assert |s| as real == n + 1.0 && Sum(s) == s[0] + sum;
    }
  }

  lemma EmptyLine(a: real, b: real)
    ensures Line(a, b, 0.0, 0.0) == 0.0
  {
  }

  lemma OneSpread(v: real, centre: real, low: real, high: real)
    requires low <= v <= high
    ensures Square(v - centre) <= Line(Slope(centre, low, high), Offset(centre, low, high), v, 1.0)
  {
    var above, below := high - v, v - low;
    NonNegative(above, below);
    assert above * below == high * v + low * v - v * v - high * low;
    assert Square(v - centre) == v * v - 2.0 * centre * v + centre * centre;
    assert (high + low - 2.0 * centre) * v == high * v + low * v - 2.0 * centre * v;
  }

  /** The variance is at most (max - avg) * (avg - min). */
  lemma VarianceIsBounded(values: seq<real>)
    requires values != []
    ensures var t := Summary(values); t.variance <= (t.maxMs - t.avgMs) * (t.avgMs - t.minMs)
  {
    hide Summary, Percentile, Sum, Sorted, SquaredDeviations, Line, Slope, Offset;
    Facts(values);
    var ordered, t := Sorted(values), Summary(values);
    SpreadIsBounded(ordered, t.avgMs, t.minMs, t.maxMs);
    AverageSpread(Sum(ordered), |values| as real, t.avgMs, t.minMs, t.maxMs,
                  SquaredDeviations(ordered, t.avgMs));
  }

  lemma AverageSpread(sum: real, n: real, avg: real, low: real, high: real, deviations: real)
    requires n > 0.0 && avg == sum / n
    requires deviations <= Line(Slope(avg, low, high), Offset(avg, low, high), sum, n)
    ensures deviations / n <= (high - avg) * (avg - low)
  {
    var bound := (high - avg) * (avg - low);
    var a, b := Slope(avg, low, high), Offset(avg, low, high);
    assert sum == avg * n;
    assert a * avg + b == bound;
    Regrouped(a, avg, n, b);
    assert Line(a, b, sum, n) == bound * n;
    Divided(deviations, bound * n, n);
    Cancelled(bound, n);
  }

  lemma Regrouped(a: real, avg: real, n: real, b: real)
    ensures a * (avg * n) + b * n == (a * avg + b) * n
  {
  }

  lemma Cancelled(x: real, n: real)
    requires n > 0.0
    ensures (x * n) / n == x
  {
  }

  lemma {:induction false} StepsAreBounded(s: seq<real>, low: real, high: real)
    requires s != [] && Within(s, low, high)
    ensures Steps(s) <= Times((|s| - 1) as real, high - low)
  {
    hide Times;
    var span := high - low;
    OneMore(0.0, span);
    if |s| > 1 {
      WithinRest(s, low, high);
      StepsAreBounded(s[1..], low, high);
      var n := (|s[1..]| - 1) as real;
      assert Abs(s[1] - s[0]) <= span;
      OneMore(n, span);
      assert (|s| - 1) as real == n + 1.0;
    }
  }

  /** The steps lead from any sample to any other. */
  lemma {:induction false} StepsSpan(s: seq<real>, i: nat, j: nat)
    requires i <= j < |s|
    ensures Abs(s[j] - s[i]) <= Steps(s)
    decreases |s|
  {
    if i > 0 {
      StepsSpan(s[1..], i - 1, j - 1);
    } else if j > 0 {
      StepsSpan(s[1..], 0, j - 1);
    } else {
      StepsAreNonNegative(s);
    }
  }

  lemma {:induction false} StepsAreNonNegative(s: seq<real>)
    ensures Steps(s) >= 0.0
  {
    if |s| > 1 {
      StepsAreNonNegative(s[1..]);
    }
  }

  /** jitter <= max - min <= (n - 1) * jitter. */
  lemma JitterIsBounded(values: seq<real>)
    requires |values| > 1
    ensures var t := Summary(values);
            0.0 <= t.jitterMs <= t.maxMs - t.minMs <= Times((|values| - 1) as real, t.jitterMs)
  {
    hide Summary, Percentile, Sum, Sorted, SquaredDeviations, Steps, Times;
    var t, n := Summary(values), (|values| - 1) as real;
    Facts(values);
    var i :| 0 <= i < |values| && values[i] == t.minMs;
    var j :| 0 <= j < |values| && values[j] == t.maxMs;
    StepsSpan(values, if i <= j then i else j, if i <= j then j else i);
    StepsAreBounded(values, t.minMs, t.maxMs);
    StepsAreNonNegative(values);
    MeanStep(Steps(values), n, t.maxMs - t.minMs);
  }

  lemma MeanStep(steps: real, n: real, span: real)
    requires n > 0.0 && 0.0 <= steps && span <= steps <= Times(n, span)
    ensures 0.0 <= steps / n <= span <= Times(n, steps / n)
  {
    DividedBounds(steps, n, 0.0, span);
    assert n * (steps / n) == steps;
  }

  /** Apart from the jitter the summary does not depend on the order of the samples. */
  lemma OrderMattersForJitterOnly(a: seq<real>, b: seq<real>)
    requires a != [] && multiset(a) == multiset(b)
    ensures b != []
    ensures Summary(b) == Summary(a).(jitterMs := Summary(b).jitterMs)
  {
    assert |multiset(a)| == |multiset(b)|;
    SortedAscends(a);
    SortedAscends(b);
    SortedPermutes(a);
    SortedPermutes(b);
    OneAscendingOrder(Sorted(a), Sorted(b));
  }

  /** The jitter does: the same three samples in two orders. */
  lemma JitterDependsOnOrder()
    ensures Summary([0.0, 1.0, 2.0]).jitterMs != Summary([0.0, 2.0, 1.0]).jitterMs
  {
    var a, b := [0.0, 1.0, 2.0], [0.0, 2.0, 1.0];
    assert a[1..] == [1.0, 2.0] && b[1..] == [2.0, 1.0];
    assert a[1..][1..] == [2.0] && b[1..][1..] == [1.0];
    assert Steps(a) == 2.0 && Steps(b) == 3.0;
  }
}
