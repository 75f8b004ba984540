/** Packet loss as a rounded percentage, and how much of the packet count survives the rounding. */
module Loss {
  import opened RealProducts
  import opened Wrappers

  /** Python's round: to the nearest integer, ties to the even one. */
  function Round(x: real): (r: int)
    ensures -0.5 <= (r as real) - x <= 0.5
  {
    var f := x.Floor;
    var rest := x - f as real;
    if rest < 0.5 || (rest == 0.5 && f % 2 == 0) then f else f + 1
  }

  /** It is the nearest integer, and half way between two the even one. */
  lemma RoundIsNearest(x: real, n: int)
    requires -0.5 <= n as real - x <= 0.5
    requires n as real - x == 0.5 || n as real - x == -0.5 ==> n % 2 == 0
    ensures Round(x) == n
  {
  }

  /** The loss in percent of a probe that got `received` answers to `sent` packets. */
  function TrueLoss(sent: int, received: int): real
    requires sent > 0
  {
    Share(sent - received, sent) * 100.0
  }

  function Share(part: int, sent: int): real
    requires sent > 0
  {
    part as real / sent as real
  }

  /** The count a reported loss stands for, before rounding. */
  function Remaining(sent: int, loss: real): real {
    sent as real * (100.0 - loss) / 100.0
  }

  /** The count mtr's parsers recover from a reported loss. */
  function Recovered(sent: int, loss: real): int {
    var r := Round(Remaining(sent, loss));
    if r < 0 then 0 else r
  }

  /** The count recovered is the whole number nearest to the share of the packets that is not lost, and never
      negative. */
  lemma RecoveredIsNearest(sent: int, loss: real)
    ensures var share := sent as real * (100.0 - loss) / 100.0;
            && (share >= 0.0 ==> -0.5 <= Recovered(sent, loss) as real - share <= 0.5)
            && (share <= 0.0 ==> Recovered(sent, loss) == 0)
            && (share.Floor as real == share - 0.5 && share > 0.0 ==> Recovered(sent, loss) % 2 == 0)
  {
    hide Round;
    var share := Remaining(sent, loss);
    var f := share.Floor;
    var rest := share - f as real;
    var nearest := if rest < 0.5 || (rest == 0.5 && f % 2 == 0) then f else f + 1;
    RoundIsNearest(share, nearest);
  }

  /** A figure within half a tenth of the true loss, printable or not. */
  ghost predicate Approximates(loss: real, sent: int, received: int)
    requires sent > 0
  {
    -0.05 <= loss - TrueLoss(sent, received) <= 0.05
  }

  predicate HasOneDecimal(loss: real) {
    (loss * 10.0).Floor as real == loss * 10.0
  }

  /** What mtr can print: the nearest figure with one decimal, or either of two. */
  ghost predicate Prints(loss: real, sent: int, received: int)
    requires sent > 0
  {
    HasOneDecimal(loss) && Approximates(loss, sent, received)
  }

  /** A reported loss shifts the count it stands for by the error times sent / 100. */
  lemma RecoveryError(sent: int, received: int, loss: real)
    requires sent > 0
    ensures Remaining(sent, loss)
            == received as real - Times(sent as real, loss - TrueLoss(sent, received)) / 100.0
  {
    var s, p := sent as real, (sent - received) as real;
    assert Share(sent - received, sent) * s == p;
    assert s * TrueLoss(sent, received) == 100.0 * p;
    assert p == s - received as real;
  }

  lemma ErrorScales(s: real, error: real, bound: real)
    requires s >= 0.0 && -bound <= error <= bound
    ensures -(s * bound) <= Times(s, error) <= s * bound
  {
    assert s * (bound - error) >= 0.0;
    assert s * (error + bound) >= 0.0;
  }

  /** The error of the recovery before rounding: at most sent / 2000. */
  lemma ErrorIsBounded(sent: int, received: int, loss: real)
    requires sent > 0 && Approximates(loss, sent, received)
    ensures -(sent as real / 2000.0) <= Remaining(sent, loss) - received as real <= sent as real / 2000.0
  {
    hide Times, Remaining, TrueLoss;
    RecoveryError(sent, received, loss);
    ErrorScales(sent as real, loss - TrueLoss(sent, received), 0.05);
  }

  /** So below a thousand packets any such figure gives the count back exactly. */
  lemma SmallCountsSurvive(sent: int, received: int, loss: real)
    requires 0 < sent < 1000 && 0 <= received <= sent && Approximates(loss, sent, received)
    ensures Recovered(sent, loss) == received
  {
    hide Remaining, TrueLoss;
    ErrorIsBounded(sent, received, loss);
    assert -0.5 < Remaining(sent, loss) - received as real < 0.5;
  }

  /** A thousand packets have one printable figure for each count. */
  lemma ThousandSurvive(received: int, loss: real)
    requires 0 <= received <= 1000 && Prints(loss, 1000, received)
    ensures Recovered(1000, loss) == received
  {
    var k := (loss * 10.0).Floor;
    assert TrueLoss(1000, received) == (1000 - received) as real / 10.0;
    assert k == 1000 - received;
    assert Remaining(1000, loss) == received as real;
  }

  /** Beyond a thousand there are more counts than figures: some two counts print the same. */
  lemma LargeCountsDoNot(sent: int)
    requires sent > PRINTED_UNITS
    ensures exists received, loss :: 0 <= received <= sent && Prints(loss, sent, received)
                                     && Recovered(sent, loss) != received
  {
    RoundingsCoincide(sent, PRINTED_UNITS);
    var lost :| 0 <= lost < sent
                && Rounded(sent, PRINTED_UNITS, lost) == Rounded(sent, PRINTED_UNITS, lost + 1);
    var loss := Rounded(sent, PRINTED_UNITS, lost) as real / 10.0;
    NearestIsPrinted(sent, lost, loss);
    NearestIsPrinted(sent, lost + 1, loss);
    assert Prints(loss, sent, sent - lost) && Prints(loss, sent, sent - (lost + 1));
  }

  lemma NearestIsPrinted(sent: int, lost: int, loss: real)
    requires sent > 0 && loss * 10.0 == Rounded(sent, PRINTED_UNITS, lost) as real
    ensures Prints(loss, sent, sent - lost)
  {
    var share := Share(lost, sent);
    assert sent - (sent - lost) == lost;
    assert -0.5 <= loss * 10.0 - share * 1000.0 <= 0.5;
  }

  /** The recovery is exact for everything mtr can print if and only if at most a thousand packets
      were sent. */
  lemma RecoveryIsExact(sent: int)
    requires sent > 0
    ensures (forall received, loss :: 0 <= received <= sent && Prints(loss, sent, received) ==>
                                        Recovered(sent, loss) == received)
            <==> sent <= PRINTED_UNITS
  {
    if sent <= PRINTED_UNITS {
      forall received, loss | 0 <= received <= sent && Prints(loss, sent, received)
        ensures Recovered(sent, loss) == received
      {
        if sent < 1000 {
          SmallCountsSurvive(sent, received, loss);
        } else {
          ThousandSurvive(received, loss);
        }
      }
    } else {
      LargeCountsDoNot(sent);
      var received, loss :| 0 <= received <= sent && Prints(loss, sent, received)
                            && Recovered(sent, loss) != received;
    }
  }

  /** The first failure: of 1001 packets 501 came back, mtr prints 50.0 percent, which reads as 500. */
  lemma FirstFailure()
    ensures Prints(50.0, 1001, 501) && Recovered(1001, 50.0) == 500
  {
    var share := Share(500, 1001);
    assert share * 1001.0 == 500.0;
    assert 49.95 <= TrueLoss(1001, 501) <= 50.0;
    assert Remaining(1001, 50.0) == 500.5;
  }

  // ---- loss_pct ------------------------------------------------------------------------

  const UNITS := 1000000  // the loss is stored in units of 0.0001 percent

  const PRINTED_UNITS := 1000  // and printed by mtr in units of 0.1 percent

  /** loss_pct in those units; None for a probe that sent nothing. */
  function LossPct(sent: int, received: int): Option<int> {
    if sent <= 0 then None else Some(Rounded(sent, UNITS, sent - received))
  }

  /** The stored loss is the true one to four decimals. */
  lemma LossPctIsRounded(sent: int, received: int)
    ensures match LossPct(sent, received)
            case None => sent <= 0
            case Some(units) =>
              sent > 0 && -0.5 <= units as real - (sent - received) as real / sent as real * 1000000.0 <= 0.5
  {
  }

  /** A share in a number of units, rounded. */
  function Rounded(sent: int, units: nat, lost: int): (r: int)
    requires sent > 0
    ensures -0.5 <= r as real - Share(lost, sent) * units as real <= 0.5
  {
    Round(Share(lost, sent) * units as real)
  }

  lemma SharesAreApart(sent: int, a: int, b: int)
    requires sent > 0 && a < b
    ensures Share(b, sent) - Share(a, sent) >= Share(1, sent) > 0.0
  {
    var s := sent as real;
    var gap := (b as real) / s - (a as real) / s;
    assert gap == (b as real - a as real) / s;
    assert (b as real - a as real) / s - 1.0 / s == (b as real - a as real - 1.0) / s;
    Divided(b as real - a as real - 1.0, s);
    Divided(1.0, s);
  }

  lemma Divided(a: real, s: real)
    requires a >= 0.0 && s > 0.0
    ensures a / s >= 0.0
    ensures a > 0.0 ==> a / s > 0.0
  {
    var q := a / s;
    assert q * s == a;
  }

  lemma UnitShare(sent: int)
    requires sent > 0
    ensures sent <= UNITS ==> Share(1, sent) * UNITS as real >= 1.0
    ensures sent < UNITS ==> Share(1, sent) * UNITS as real > 1.0
  {
    var q := Share(1, sent);
    assert q * sent as real == 1.0;
    Divided(1.0, sent as real);
    var room := UNITS as real - sent as real;
    if room >= 0.0 {
      NonNegative(q, room);
    }
    assert q * room == q * UNITS as real - 1.0;
  }

  lemma RoundedIsMonotone(sent: int, units: nat, a: int, b: int)
    requires sent > 0 && a <= b
    ensures Rounded(sent, units, a) <= Rounded(sent, units, b)
  {
    if a < b {
      SharesAreApart(sent, a, b);
      Scaled(Share(a, sent), Share(b, sent), units as real);
      RoundIsMonotone(Share(a, sent) * units as real, Share(b, sent) * units as real);
    }
  }

  lemma RoundIsMonotone(x: real, y: real)
    requires x <= y
    ensures Round(x) <= Round(y)
  {
  }

  /** Up to a million packets different counts have different percentages. */
  lemma SmallLossesDiffer(sent: int, a: int, b: int)
    requires 0 < sent <= UNITS && a < b
    ensures Rounded(sent, UNITS, a) < Rounded(sent, UNITS, b)
  {
    SharesAreApart(sent, a, b);
    UnitShare(sent);
    if sent == UNITS {
      assert Share(a, UNITS) * UNITS as real == a as real;
      assert Share(b, UNITS) * UNITS as real == b as real;
    }
  }

  lemma {:induction false} DistinctRoundingsAddUp(sent: int, units: nat, k: nat)
    requires sent > 0 && k <= sent
    requires forall i | 0 <= i < sent :: Rounded(sent, units, i) != Rounded(sent, units, i + 1)
    ensures Rounded(sent, units, k) >= k
  {
    if k == 0 {
      assert Share(0, sent) == 0.0;
    } else {
      DistinctRoundingsAddUp(sent, units, k - 1);
      RoundedIsMonotone(sent, units, k - 1, k);
      assert Rounded(sent, units, k - 1) != Rounded(sent, units, k - 1 + 1);
    }
  }

  lemma WholeShare(sent: int)
    requires sent > 0
    ensures Share(sent, sent) == 1.0
  {
    var s := sent as real;
    assert s / s == 1.0;
  }

  /** With more counts than units, some two neighbouring counts are rounded alike. */
  lemma RoundingsCoincide(sent: int, units: nat)
    requires sent > units && sent > 0
    ensures exists i :: 0 <= i < sent && Rounded(sent, units, i) == Rounded(sent, units, i + 1)
  {
    WholeShare(sent);
    if forall i | 0 <= i < sent :: Rounded(sent, units, i) != Rounded(sent, units, i + 1) {
      DistinctRoundingsAddUp(sent, units, sent);
    }
  }

  /** Beyond a million two neighbouring counts have one percentage. */
  lemma LargeLossesCoincide(sent: int)
    requires sent > UNITS
    ensures exists a :: 0 < a <= sent && LossPct(sent, a) == LossPct(sent, a - 1)
  {
    RoundingsCoincide(sent, UNITS);
    var i :| 0 <= i < sent && Rounded(sent, UNITS, i) == Rounded(sent, UNITS, i + 1);
    var a := sent - i;
    assert sent - a == i && sent - (a - 1) == i + 1;
    assert LossPct(sent, a) == LossPct(sent, a - 1);
  }

  /** The stored loss determines the number of answers exactly when at most a million packets were
      sent. */
  lemma LossDeterminesCount(sent: int)
    requires sent > 0
    ensures (forall a, b :: 0 <= a <= sent && 0 <= b <= sent && LossPct(sent, a) == LossPct(sent, b) ==> a == b)
            <==> sent <= 1000000
  {
    if sent <= UNITS {
      forall a, b | 0 <= a <= sent && 0 <= b <= sent && a != b
        ensures LossPct(sent, a) != LossPct(sent, b)
      {
        if a < b {
          SmallLossesDiffer(sent, sent - b, sent - a);
        } else {
          SmallLossesDiffer(sent, sent - a, sent - b);
        }
      }
    } else {
      LargeLossesCoincide(sent);
      var a :| 0 < a <= sent && LossPct(sent, a) == LossPct(sent, a - 1);
    }
  }
}
