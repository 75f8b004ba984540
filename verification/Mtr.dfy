/** Which hop of an mtr trace to blame: the first whose loss persists to the end of the path. */
module Mtr {
  import opened Wrappers

  /** A hop's loss column; a missing figure counts as no loss. */
  type LossColumn = seq<Option<real>>

  const TOLERANCE := 0.9

  function LossAt(column: LossColumn, i: nat): real
    requires i < |column|
  {
    if column[i].Some? then column[i].value else 0.0
  }

  function Losses(column: LossColumn): (losses: seq<real>)
    ensures |losses| == |column|
    ensures forall i | 0 <= i < |losses| :: losses[i] == LossAt(column, i)
  {
    seq(|column|, i requires 0 <= i < |column| => LossAt(column, i))
  }

  function Least(values: seq<real>): (least: real)
    requires values != []
    ensures least in values && forall v | v in values :: least <= v
  {
    if |values| == 1 then values[0]
    else
      var rest := Least(values[1..]);
      assert values == [values[0]] + values[1..];
      if values[0] < rest then values[0] else rest
  }

  /** The scan of _first_persistent_loss_hop, from hop i on. */
  function Scan(losses: seq<real>, i: nat): nat
    requires i <= |losses| && losses != []
    decreases |losses| - i
  {
    if i == |losses| then |losses| - 1
    else if Blamed(losses, i) then i
    else Scan(losses, i + 1)
  }

  predicate Blamed(losses: seq<real>, i: nat)
    requires i < |losses|
  {
    var downstream := losses[i + 1..];
    losses[i] > 0.0 && (downstream == [] || Least(downstream) >= losses[i] * TOLERANCE)
  }

  function CulpritOf(losses: seq<real>): Option<nat> {
    if losses == [] || losses[|losses| - 1] <= 0.0 then None else Some(Scan(losses, 0))
  }

  function Culprit(column: LossColumn): Option<nat> {
    CulpritOf(Losses(column))
  }

  /** The hop loses packets, and every hop after it loses at least nine tenths as many. */
  ghost predicate Persistent(losses: seq<real>, i: nat) {
    && i < |losses|
    && losses[i] > 0.0
    && forall j | i < j < |losses| :: losses[j] >= losses[i] * 0.9
  }

  lemma BlamedIsPersistent(losses: seq<real>, i: nat)
    requires i < |losses|
    ensures Blamed(losses, i) <==> Persistent(losses, i)
  {
    var downstream := losses[i + 1..];
    if downstream != [] {
      var d :| 0 <= d < |downstream| && downstream[d] == Least(downstream);
      assert losses[i + 1 + d] == Least(downstream);
      forall j | i < j < |losses|
        ensures Least(downstream) <= losses[j]
      {
        assert downstream[j - i - 1] in downstream;
      }
    }
  }

  lemma {:induction false} ScanFindsFirst(losses: seq<real>, i: nat)
    requires i < |losses| && losses[|losses| - 1] > 0.0
    ensures var k := Scan(losses, i);
            i <= k && Persistent(losses, k) && forall j | i <= j < k :: !Persistent(losses, j)
    decreases |losses| - i
  {
    hide Blamed;
    BlamedIsPersistent(losses, i);
    if i < |losses| - 1 && !Blamed(losses, i) {
      ScanFindsFirst(losses, i + 1);
    }
  }

  /** There is a hop to blame exactly when the last hop loses packets, and it is the first
      persistent one: the fallback to the last hop is never what decides. */
  lemma CulpritIsFirstPersistent(column: LossColumn, losses: seq<real>)
    requires |losses| == |column|
    requires forall i | 0 <= i < |column| :: losses[i] == match column[i] case Some(loss) => loss case None => 0.0
    ensures match Culprit(column)
            case None => column == [] || losses[|losses| - 1] <= 0.0
            case Some(k) => losses[|losses| - 1] > 0.0
                            && Persistent(losses, k) && forall j | 0 <= j < k :: !Persistent(losses, j)
  {
    assert losses == Losses(column);
    if losses != [] && losses[|losses| - 1] > 0.0 {
      ScanFindsFirst(losses, 0);
    }
  }

  /** The least loss after a hop decides about the hop. */
  ghost predicate IsLeastFrom(losses: seq<real>, i: nat, least: real) {
    && (forall j | i <= j < |losses| :: least <= losses[j])
    && (exists j :: i <= j < |losses| && losses[j] == least)
  }

  lemma LeastDecides(losses: seq<real>, i: nat, least: real)
    requires i + 1 < |losses| && IsLeastFrom(losses, i + 1, least)
    ensures Persistent(losses, i) <==> losses[i] > 0.0 && least >= losses[i] * TOLERANCE
    ensures IsLeastFrom(losses, i, if losses[i] < least then losses[i] else least)
  {
    var j :| i + 1 <= j < |losses| && losses[j] == least;
  }

  lemma LastHop(losses: seq<real>)
    requires losses != [] && losses[|losses| - 1] > 0.0
    ensures Persistent(losses, |losses| - 1) && IsLeastFrom(losses, |losses| - 1, losses[|losses| - 1])
  {
  }

  /** The same answer in one pass over the path, from its end. */
  method CulpritInOnePass(column: LossColumn) returns (culprit: Option<nat>)
    ensures culprit == Culprit(column)
  {
    hide Persistent, IsLeastFrom, Culprit;
    ghost var losses := Losses(column);
    CulpritIsFirstPersistent(column, losses);
    var n := |column|;
    if n == 0 || LossAt(column, n - 1) <= 0.0 {
      return None;
    }
    LastHop(losses);
    var least := LossAt(column, n - 1);
    var k := n - 1;
    var i := n - 1;
    while i > 0
      invariant 0 <= i <= k < n
      invariant IsLeastFrom(losses, i, least)
      invariant Persistent(losses, k) && forall j | i <= j < k :: !Persistent(losses, j)
    {
      i := i - 1;
      var loss := LossAt(column, i);
      LeastDecides(losses, i, least);
      if loss > 0.0 && least >= loss * TOLERANCE {
        k := i;
      }
      if loss < least {
        least := loss;
      }
    }
    culprit := Some(k);
  }

  /** A hop before the culprit that loses packets has a less lossy hop after it that is not itself:
      so it stays innocent, and keeps the others innocent, however much it loses. */
  lemma RateLimitingIsIgnored(losses: seq<real>, k: nat, j: nat, more: real)
    requires CulpritOf(losses) == Some(k) && j < k && k < |losses|
    requires losses[j] > 0.0 && more >= losses[j]
    ensures CulpritOf(losses[j := more]) == Some(k)
  {
    ScanFindsFirst(losses, 0);
    var raised := losses[j := more];
    assert !Persistent(losses, j);
    forall i | 0 <= i < k
      ensures !Persistent(raised, i)
    {
      assert !Persistent(losses, i);
      if losses[i] > 0.0 {
        RaisingHidesNothing(losses, i, j, more);
      }
    }
    RaisingSparesLater(losses, k, j, more);
    ScanFindsFirst(raised, 0);
  }

  lemma RaisingSparesLater(losses: seq<real>, k: nat, j: nat, more: real)
    requires j < k < |losses| && Persistent(losses, k)
    ensures Persistent(losses[j := more], k)
  {
  }

  lemma RaisingHidesNothing(losses: seq<real>, i: nat, j: nat, more: real)
    requires i < |losses| && j < |losses| && losses[i] > 0.0 && losses[j] > 0.0 && more >= losses[j]
    requires !Persistent(losses, i) && !Persistent(losses, j)
    ensures !Persistent(losses[j := more], i)
  {
    var raised := losses[j := more];
    var d :| j < d < |losses| && losses[d] < losses[j] * TOLERANCE;
    var e :| i < e < |losses| && losses[e] < losses[i] * TOLERANCE;
    var lower := if e == j then d else e;
    assert raised[lower] == losses[lower] < losses[i] * TOLERANCE;
  }
}
