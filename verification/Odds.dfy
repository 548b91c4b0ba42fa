/** Odds arithmetic (betting/clv_engine.py): prices, the de-vig, the edge, the expected
    value and the closing line value, over exact reals. */
module Odds {
  datatype Result<+T> = Ok(value: T) | ValueError

  // ----- prices -----

  /** `american_to_decimal`. */
  function Decimal(american: real): Result<real> {
    if american == 0.0 then ValueError
    else if american > 0.0 then Ok(1.0 + american / 100.0)
    else Ok(1.0 + 100.0 / -american)
  }

  /** `implied_prob_from_american`. */
  function Implied(american: real): Result<real> {
    if american == 0.0 then ValueError
    else if american > 0.0 then Ok(100.0 / (american + 100.0))
    else Ok(-american / (-american + 100.0))
  }

  /** `prob_to_american`. */
  function FairAmerican(prob: real): Result<real> {
    if !(0.0 < prob < 1.0) then ValueError
    else if prob <= 0.5 then Ok((1.0 - prob) / prob * 100.0)
    else Ok(-prob / (1.0 - prob) * 100.0)
  }

  lemma QuotientTimes(x: real, y: real)
    requires y != 0.0
    ensures x / y * y == x
  {
  }

  lemma QuotientUnique(x: real, y: real, z: real)
    requires y != 0.0 && z * y == x
    ensures x / y == z
  {
  }

  lemma UnderdogPrice(a: real)
    requires a > 0.0
    ensures var q, d := 100.0 / (a + 100.0), 1.0 + a / 100.0;
      0.0 < q < 1.0 && d > 1.0 && d * q == 1.0
  {
    var q, d := 100.0 / (a + 100.0), 1.0 + a / 100.0;
    QuotientTimes(100.0, a + 100.0);
    Positive(q, a + 100.0, 100.0);
    assert q * (d * 100.0) == 100.0 by {
      assert d * 100.0 == a + 100.0;
    }
  }

  lemma FavouritePrice(b: real)
    requires b > 0.0
    ensures var q, d := b / (b + 100.0), 1.0 + 100.0 / b;
      0.0 < q < 1.0 && d > 1.0 && d * q == 1.0
  {
    var q, r := b / (b + 100.0), 100.0 / b;
    QuotientTimes(b, b + 100.0);
    QuotientTimes(100.0, b);
    Positive(q, b + 100.0, b);
    Positive(r, b, 100.0);
    ReciprocalFrom(q, 1.0 + r, b, b + 100.0);
  }

  /** A price's implied probability lies strictly between 0 and 1, and its decimal price is
      the reciprocal. */
  lemma DecimalIsReciprocal(american: real)
    requires american != 0.0
    ensures 0.0 < Implied(american).value < 1.0
    ensures Decimal(american).value > 1.0
    ensures Decimal(american).value * Implied(american).value == 1.0
  {
    if american > 0.0 {
      UnderdogPrice(american);
    } else {
      FavouritePrice(-american);
    }
  }

  /** A positive product with a positive factor. */
  lemma Positive(x: real, y: real, product: real)
    requires x * y == product && product > 0.0 && y > 0.0
    ensures x > 0.0
    ensures product < y ==> x < 1.0
  {
    assert x <= 0.0 ==> x * y <= 0.0;
    assert x >= 1.0 ==> x * y >= y;
  }

  lemma ReciprocalFrom(q: real, d: real, b: real, db: real)
    requires b > 0.0 && db == d * b && q * db == b
    ensures d * q == 1.0
  {
    assert (d * q) * b == q * (d * b);
    assert (d * q - 1.0) * b == 0.0;
  }

  /** The fair price of a probability implies that probability. */
  lemma FairPriceImplies(prob: real)
    requires 0.0 < prob < 1.0
    ensures FairAmerican(prob).value != 0.0
    ensures Implied(FairAmerican(prob).value) == Ok(prob)
  {
    var p, a := prob, FairAmerican(prob).value;
    if p <= 0.5 {
      var r := (1.0 - p) / p;
      QuotientTimes(1.0 - p, p);
      Positive(r, p, 1.0 - p);
      assert a == r * 100.0;
      assert (r * 100.0 + 100.0) * p == 100.0;
      QuotientUnique(100.0, a + 100.0, p);
    } else {
      var r := -p / (1.0 - p);
      QuotientTimes(-p, 1.0 - p);
      assert a == r * 100.0;
      Positive(-r, 1.0 - p, p);
      assert (-a + 100.0) * p == -a by {
        assert -r * (1.0 - p) == p;
        assert (-r + 1.0) * p == -r;
      }
      QuotientUnique(-a, -a + 100.0, p);
    }
  }

  lemma UnderdogRoundTrip(a: real)
    requires a > 0.0
    ensures FairAmerican(Implied(a).value) == Ok(a) <==> a >= 100.0
  {
    DecimalIsReciprocal(a);
    var p := Implied(a).value;
    QuotientTimes(100.0, a + 100.0);
    assert p * (a + 100.0) == 100.0;
    HalfLine(p, a);
    if a >= 100.0 {
      assert (a / 100.0) * p == 1.0 - p;
      QuotientUnique(1.0 - p, p, a / 100.0);
    } else {
      QuotientTimes(-p, 1.0 - p);
      Positive(-(-p / (1.0 - p)), 1.0 - p, p);
    }
  }

  lemma FavouriteRoundTrip(a: real)
    requires a < 0.0
    ensures FairAmerican(Implied(a).value) == Ok(a) <==> a < -100.0
  {
    DecimalIsReciprocal(a);
    var b, p := -a, Implied(a).value;
    QuotientTimes(b, b + 100.0);
    assert p * (b + 100.0) == b;
    OtherHalf(p, b);
    if b > 100.0 {
      assert (a / 100.0) * (1.0 - p) == -p by {
        assert b * (1.0 - p) == 100.0 * p;
      }
      QuotientUnique(-p, 1.0 - p, a / 100.0);
    } else {
      QuotientTimes(1.0 - p, p);
      Positive((1.0 - p) / p, p, 1.0 - p);
    }
  }

  /** The fair price gives an American price back exactly when it is at least +100 or below
      -100: a price between -100 and +100 comes back on the other scale. */
  lemma FairPriceRoundTrip(american: real)
    requires american != 0.0
    ensures FairAmerican(Implied(american).value) == Ok(american) <==> american >= 100.0 || american < -100.0
  {
    if american > 0.0 {
      UnderdogRoundTrip(american);
    } else {
      FavouriteRoundTrip(american);
    }
  }

  lemma HalfLine(p: real, a: real)
    requires a > 0.0 && p * (a + 100.0) == 100.0
    ensures p <= 0.5 <==> a >= 100.0
  {
    if p <= 0.5 {
      assert p * (a + 100.0) <= 0.5 * (a + 100.0);
    } else {
      assert p * (a + 100.0) > 0.5 * (a + 100.0);
    }
  }

  lemma OtherHalf(p: real, b: real)
    requires b > 0.0 && p * (b + 100.0) == b
    ensures p > 0.5 <==> b > 100.0
  {
    if p <= 0.5 {
      assert p * (b + 100.0) <= 0.5 * (b + 100.0);
    } else {
      assert p * (b + 100.0) > 0.5 * (b + 100.0);
    }
  }

  // ----- the de-vig -----

  function Sum(q: seq<real>): real {
    if q == [] then 0.0 else Sum(q[..|q| - 1]) + q[|q| - 1]
  }

  function Scaled(q: seq<real>, total: real): seq<real>
    requires total != 0.0
  {
    seq(|q|, i requires 0 <= i < |q| => q[i] / total)
  }

  ghost predicate AllPositive(q: seq<real>) {
    forall i | 0 <= i < |q| :: q[i] > 0.0
  }

  lemma {:induction false} SumPositive(q: seq<real>)
    requires AllPositive(q)
    ensures q != [] ==> Sum(q) > 0.0
  {
    if q != [] {
      SumPositive(q[..|q| - 1]);
    }
  }

  predicate AnyAtMostZero(q: seq<real>) {
    exists i :: 0 <= i < |q| && q[i] <= 0.0
  }

  /** `devig_multiway`. */
  function Devig(q: seq<real>): Result<seq<real>> {
    if |q| < 2 || AnyAtMostZero(q) then ValueError
    else
      SumPositive(q);
      Ok(Scaled(q, Sum(q)))
  }

  lemma {:induction false} ScaledSum(q: seq<real>, total: real)
    requires total > 0.0
    ensures Sum(Scaled(q, total)) == Sum(q) / total
  {
    if q != [] {
      var before, last := q[..|q| - 1], q[|q| - 1];
      ScaledSum(before, total);
      assert Scaled(q, total)[..|q| - 1] == Scaled(before, total);
      QuotientsAdd(Sum(before), last, total);
    }
  }

  lemma QuotientsAdd(x: real, y: real, total: real)
    requires total != 0.0
    ensures x / total + y / total == (x + y) / total
  {
  }

  /** The no-vig probabilities of a market add up to exactly 1, each lies strictly between 0
      and 1, and they keep the proportions of the implied ones. */
  lemma DevigNormalizes(q: seq<real>)
    requires Devig(q).Ok?
    ensures var p := Devig(q).value;
      && |p| == |q| && Sum(p) == 1.0
      && (forall i | 0 <= i < |q| :: 0.0 < p[i] < 1.0)
      && (forall i, j | 0 <= i < |q| && 0 <= j < |q| :: p[i] * q[j] == p[j] * q[i])
  {
    hide Sum;
    var total := Sum(q);
    SumPositive(q);
    ScaledSum(q, total);
    var p := Scaled(q, total);
    assert Devig(q).value == p;
    assert Sum(p) == 1.0 by {
      QuotientUnique(total, total, 1.0);
    }
    ScaledInRange(q, total);
    forall i, j | 0 <= i < |q| && 0 <= j < |q| ensures p[i] * q[j] == p[j] * q[i] {
      Proportions(q[i], q[j], total, p[i], p[j]);
    }
  }

  lemma {:induction false} ScaledInRange(q: seq<real>, total: real)
    requires AllPositive(q) && |q| >= 2 && total == Sum(q) && total > 0.0
    ensures forall i | 0 <= i < |q| :: 0.0 < Scaled(q, total)[i] < 1.0
  {
    hide Sum;
    forall i | 0 <= i < |q| ensures 0.0 < Scaled(q, total)[i] < 1.0 {
      QuotientTimes(q[i], total);
      PartBelowSum(q, i);
      Positive(q[i] / total, total, q[i]);
    }
  }

  lemma Proportions(x: real, y: real, total: real, p: real, r: real)
    requires total > 0.0 && p == x / total && r == y / total
    ensures p * y == r * x
  {
    QuotientTimes(x, total);
    QuotientTimes(y, total);
    assert p * y == p * (r * total);
    assert r * x == r * (p * total);
  }

  lemma {:induction false} PartBelowSum(q: seq<real>, i: nat)
    requires AllPositive(q) && |q| >= 2 && i < |q|
    ensures q[i] < Sum(q)
  {
    var before := q[..|q| - 1];
    SumPositive(before);
    if i == |q| - 1 {
    } else if |before| == 1 {
      assert before == [q[0]];
      assert Sum(before[..0]) == 0.0;
    } else {
      PartBelowSum(before, i);
    }
  }

  /** `devig_two_way`: the no-vig probabilities of a pair of prices. */
  function DevigTwoWay(side: real, other: real): Result<(real, real)> {
    if Implied(side).ValueError? || Implied(other).ValueError? then ValueError
    else
      var p := Devig([Implied(side).value, Implied(other).value]);
      if p.ValueError? then ValueError else Ok((p.value[0], p.value[1]))
  }

  lemma SumOfTwo(x: real, y: real)
    ensures Sum([x, y]) == x + y
  {
    assert [x, y][..1] == [x] && [x][..0] == [];
    assert Sum([x]) == x;
  }

  /** Two prices de-vig to probabilities of the two sides; only a price of 0 fails. */
  lemma DevigTwoWayMeans(side: real, other: real)
    ensures DevigTwoWay(side, other).Ok? <==> side != 0.0 && other != 0.0
    ensures DevigTwoWay(side, other).Ok? ==>
      var (p, r) := DevigTwoWay(side, other).value;
      && 0.0 < p < 1.0 && 0.0 < r < 1.0 && p + r == 1.0
      && p * (Implied(side).value + Implied(other).value) == Implied(side).value
      && DevigTwoWay(other, side) == Ok((r, p))
  {
    if side != 0.0 && other != 0.0 {
      var x, y := Implied(side).value, Implied(other).value;
      DecimalIsReciprocal(side);
      DecimalIsReciprocal(other);
      hide Implied, Decimal, Devig;
      DevigPair(x, y);
      DevigPair(y, x);
    }
  }

  lemma DevigPair(x: real, y: real)
    requires x > 0.0 && y > 0.0
    ensures Devig([x, y]) == Ok([x / (x + y), y / (x + y)])
    ensures var p, r := x / (x + y), y / (x + y);
      0.0 < p < 1.0 && 0.0 < r < 1.0 && p + r == 1.0 && p * (x + y) == x
  {
    SumOfTwo(x, y);
    hide Sum;
    DevigNormalizes([x, y]);
    assert Scaled([x, y], x + y) == [x / (x + y), y / (x + y)];
    SumOfTwo(x / (x + y), y / (x + y));
    QuotientTimes(x, x + y);
  }

  // ----- the edge and the expected value -----

  /** `edge`. */
  function Edge(simulated: real, fair: real): real { simulated - fair }

  /** `expected_value`. */
  function ExpectedValue(simulated: real, offered: real): Result<real> {
    match Decimal(offered)
    case ValueError => ValueError
    case Ok(d) => Ok(simulated * (d - 1.0) - (1.0 - simulated))
  }

  lemma SignOfScaled(x: real, y: real, k: real)
    requires k > 0.0 && x * k == y
    ensures x > 0.0 <==> y > 0.0
  {
    if x <= 0.0 {
      assert x * k <= 0.0;
    } else {
      assert x * k > 0.0;
    }
  }

  /** A bet has a positive expected value exactly when the simulator rates the side above the
      offered price's own implied probability. */
  lemma PositiveEvIff(simulated: real, offered: real)
    requires offered != 0.0
    ensures ExpectedValue(simulated, offered).value > 0.0 <==> simulated > Implied(offered).value
  {
    DecimalIsReciprocal(offered);
    var d, q, ev := Decimal(offered).value, Implied(offered).value, ExpectedValue(simulated, offered).value;
    assert ev == simulated * d - 1.0;
    assert (simulated - q) * d == ev by {
      assert q * d == 1.0;
    }
    SignOfScaled(simulated - q, ev, d);
  }

  ghost predicate EvImpliesEdge(side: real, other: real)
    requires DevigTwoWay(side, other).Ok? && side != 0.0
  {
    forall p: real | 0.0 < p < 1.0 && ExpectedValue(p, side).value > 0.0 ::
      Edge(p, DevigTwoWay(side, other).value.0) > 0.0
  }

  lemma MarginIsEnough(side: real, other: real)
    requires side != 0.0 && other != 0.0 && DevigTwoWay(side, other).Ok?
    requires Implied(side).Ok? && DevigTwoWay(side, other).value.0 <= Implied(side).value
    ensures EvImpliesEdge(side, other)
  {
    hide Implied, DevigTwoWay;
    var fair := DevigTwoWay(side, other).value.0;
    forall p: real | 0.0 < p < 1.0 && ExpectedValue(p, side).value > 0.0 ensures Edge(p, fair) > 0.0 {
      PositiveEvIff(p, side);
    }
  }

  lemma NoMarginIsNot(side: real, other: real)
    requires side != 0.0 && other != 0.0 && DevigTwoWay(side, other).Ok?
    requires Implied(side).Ok? && Implied(side).value < DevigTwoWay(side, other).value.0 < 1.0
    requires Implied(side).value > 0.0
    ensures !EvImpliesEdge(side, other)
  {
    hide Implied, DevigTwoWay;
    var fair := DevigTwoWay(side, other).value.0;
    PositiveEvIff(fair, side);
    assert Edge(fair, fair) == 0.0;
  }

  /** A positive expected value means a positive edge, for every probability, exactly when
      the two implied probabilities add up to at least 1. */
  lemma EvImpliesEdgeIffMargin(side: real, other: real)
    requires side != 0.0 && other != 0.0
    ensures DevigTwoWay(side, other).Ok?
    ensures EvImpliesEdge(side, other) <==> Implied(side).value + Implied(other).value >= 1.0
  {
    DevigTwoWayMeans(side, other);
    DecimalIsReciprocal(side);
    DecimalIsReciprocal(other);
    hide Implied, Decimal, DevigTwoWay, EvImpliesEdge;
    var x, y := Implied(side).value, Implied(other).value;
    FairAgainstImplied(DevigTwoWay(side, other).value.0, x, x + y);
    if x + y >= 1.0 {
      MarginIsEnough(side, other);
    } else {
      NoMarginIsNot(side, other);
    }
  }

  lemma FairAgainstImplied(fair: real, x: real, total: real)
    requires fair > 0.0 && total > 0.0 && fair * total == x
    ensures total >= 1.0 ==> fair <= x
    ensures total < 1.0 ==> fair > x
  {
    if total >= 1.0 {
      assert fair * (total - 1.0) >= 0.0;
    } else {
      assert fair * (1.0 - total) > 0.0;
    }
  }

  // ----- the closing line value -----

  /** `clv_from_odds`, its probability difference. */
  function ClvProb(entrySide: real, entryOther: real, closeSide: real, closeOther: real): Result<real> {
    if DevigTwoWay(entrySide, entryOther).ValueError? || DevigTwoWay(closeSide, closeOther).ValueError? then ValueError
    else Ok(DevigTwoWay(closeSide, closeOther).value.0 - DevigTwoWay(entrySide, entryOther).value.0)
  }

  /** The no-vig probability of a side: its implied probability's share of the two. */
  ghost function FairShare(side: real, other: real): real
    requires side != 0.0 && other != 0.0
    requires Implied(side).value + Implied(other).value != 0.0
  {
    Implied(side).value / (Implied(side).value + Implied(other).value)
  }

  /** The closing line value is the close's fair probability less the entry's: positive exactly
      when the close rates the side higher than the entry did. */
  lemma ClvMeans(entrySide: real, entryOther: real, closeSide: real, closeOther: real)
    requires entrySide != 0.0 && entryOther != 0.0 && closeSide != 0.0 && closeOther != 0.0
    ensures Implied(entrySide).value + Implied(entryOther).value > 0.0
    ensures Implied(closeSide).value + Implied(closeOther).value > 0.0
    ensures var clv := ClvProb(entrySide, entryOther, closeSide, closeOther);
      && clv.Ok?
      && clv.value == FairShare(closeSide, closeOther) - FairShare(entrySide, entryOther)
      && (clv.value > 0.0 <==> FairShare(closeSide, closeOther) > FairShare(entrySide, entryOther))
  {
    FairIsShare(entrySide, entryOther);
    FairIsShare(closeSide, closeOther);
    hide DevigTwoWay, FairShare, Implied;
  }

  lemma FairIsShare(side: real, other: real)
    requires side != 0.0 && other != 0.0
    ensures Implied(side).value + Implied(other).value > 0.0
    ensures DevigTwoWay(side, other).Ok? && DevigTwoWay(side, other).value.0 == FairShare(side, other)
  {
    DecimalIsReciprocal(side);
    DecimalIsReciprocal(other);
    DevigPair(Implied(side).value, Implied(other).value);
    hide Implied, Decimal;
  }

  /** What one side's bet gains on the close, the other side's loses. */
  lemma ClvSidesCancel(entrySide: real, entryOther: real, closeSide: real, closeOther: real)
    ensures ClvProb(entrySide, entryOther, closeSide, closeOther).Ok?
            <==> entrySide != 0.0 && entryOther != 0.0 && closeSide != 0.0 && closeOther != 0.0
    ensures ClvProb(entrySide, entryOther, closeSide, closeOther).Ok? ==>
            ClvProb(entryOther, entrySide, closeOther, closeSide).Ok?
            && ClvProb(entrySide, entryOther, closeSide, closeOther).value
               + ClvProb(entryOther, entrySide, closeOther, closeSide).value == 0.0
  {
    DevigTwoWayMeans(entrySide, entryOther);
    DevigTwoWayMeans(closeSide, closeOther);
  }

  // ----- a bet listed on its own -----

  /** `devig_one_sided`. */
  function DevigOneSided(american: real, margin: real): Result<real> {
    if margin < 1.0 || Implied(american).ValueError? then ValueError
    else
      var p := Implied(american).value / margin;
      Ok(if p < 1.0 then p else 1.0)
  }

  /** The cap at 1 never binds: the fair probability is the implied one over the margin. */
  lemma DevigOneSidedMeans(american: real, margin: real)
    requires american != 0.0 && margin >= 1.0
    ensures DevigOneSided(american, margin) == Ok(Implied(american).value / margin)
    ensures 0.0 < DevigOneSided(american, margin).value <= Implied(american).value
  {
    DecimalIsReciprocal(american);
    var q := Implied(american).value;
    QuotientTimes(q, margin);
    Positive(q / margin, margin, q);
    FairAgainstImplied(q / margin, q, margin);
  }
}
