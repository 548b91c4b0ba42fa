/** Bet signals (betting/bet_signal.py): the gate, the fractional-Kelly stake and the rank. */
module BetSignals {
  import opened Odds

  datatype EdgeReport = EdgeReport(
    market: string, simProb: real, fairProb: real, edge: real, ev: real, offered: real)

  datatype Config = Config(minEdge: real, minEv: real, kelly: real, maxStake: real)

  datatype BetSignal = BetSignal(
    report: EdgeReport, edge: real, ev: real, stake: real, confidence: real, rank: nat)

  // ----- the stake -----

  /** `kelly_fraction_full`: (b * p - q) / b. */
  function KellyFull(p: real, offered: real): Result<real> {
    match Decimal(offered)
    case ValueError => ValueError
    case Ok(d) =>
      if d - 1.0 == 0.0 then ValueError
      else Ok(((d - 1.0) * p - (1.0 - p)) / (d - 1.0))
  }

  function Max(x: real, y: real): real { if x > y then x else y }

  function Min(x: real, y: real): real { if x < y then x else y }

  /** `stake_fraction`. */
  function Stake(report: EdgeReport, kelly: real, cap: real): Result<real> {
    if kelly < 0.0 || cap < 0.0 then ValueError
    else
      match KellyFull(report.simProb, report.offered)
      case ValueError => ValueError
      case Ok(full) => Ok(Min(cap, Max(0.0, kelly * Max(0.0, full))))
  }

  /** A report as `_build_edge_report` fills it. */
  ghost predicate Built(report: EdgeReport) {
    && report.edge == Edge(report.simProb, report.fairProb)
    && ExpectedValue(report.simProb, report.offered) == Ok(report.ev)
  }

  /** `_passes_gate`. */
  predicate PassesGate(report: EdgeReport, config: Config) {
    report.edge > 0.0 && !(report.edge < config.minEdge) && !(report.ev <= config.minEv)
  }

  /** The full-Kelly fraction is the expected value over the profit per unit. */
  lemma KellyIsEvOverProfit(p: real, offered: real)
    requires offered != 0.0
    ensures Decimal(offered).value > 1.0
    ensures KellyFull(p, offered) == Ok(ExpectedValue(p, offered).value / (Decimal(offered).value - 1.0))
  {
    DecimalIsReciprocal(offered);
  }

  /** The Kelly share of the bankroll: the multiplier times the full-Kelly fraction. */
  ghost function KellyShare(report: EdgeReport, kelly: real): real
    requires report.offered != 0.0
    requires Decimal(report.offered).value > 1.0
  {
    kelly * (report.ev / (Decimal(report.offered).value - 1.0))
  }

  /** A report's stake is its Kelly share held between 0 and the cap: positive exactly when
      the expected value, the multiplier and the cap all are. */
  lemma StakeMeans(report: EdgeReport, kelly: real, cap: real)
    requires Built(report) && kelly >= 0.0 && cap >= 0.0
    ensures report.offered != 0.0 && Decimal(report.offered).value > 1.0
    ensures var stake := Stake(report, kelly, cap);
      && stake.Ok? && 0.0 <= stake.value <= cap
      && stake.value == Min(cap, Max(0.0, KellyShare(report, kelly)))
      && (stake.value > 0.0 <==> report.ev > 0.0 && kelly > 0.0 && cap > 0.0)
  {
    KellyIsEvOverProfit(report.simProb, report.offered);
    var b := Decimal(report.offered).value - 1.0;
    hide KellyFull, Decimal, ExpectedValue;
    QuotientTimes(report.ev, b);
    SignOfFactor(report.ev / b, b, report.ev);
    SignOfProduct(kelly, report.ev / b);
  }

  lemma SignOfFactor(x: real, y: real, product: real)
    requires x * y == product && y > 0.0
    ensures x > 0.0 <==> product > 0.0
  {
    assert x > 0.0 ==> x * y > 0.0;
    assert x <= 0.0 ==> x * y <= 0.0;
  }

  lemma SignOfProduct(x: real, y: real)
    requires x >= 0.0
    ensures x * y > 0.0 <==> x > 0.0 && y > 0.0
  {
    assert y <= 0.0 ==> x * y <= 0.0;
  }

  /** A side priced at a negative expected value stakes nothing. */
  lemma NoStakeOnLosingBet(report: EdgeReport, kelly: real, cap: real)
    requires Built(report) && report.ev <= 0.0 && kelly >= 0.0 && cap >= 0.0
    ensures Stake(report, kelly, cap) == Ok(0.0)
  {
    StakeMeans(report, kelly, cap);
  }

  // ----- the order -----

  datatype Sized = Sized(report: EdgeReport, stake: real)

  /** The sort key (ev, edge, stake), compared lexicographically. */
  predicate Greater(a: Sized, b: Sized) {
    || a.report.ev > b.report.ev
    || (a.report.ev == b.report.ev && a.report.edge > b.report.edge)
    || (a.report.ev == b.report.ev && a.report.edge == b.report.edge && a.stake > b.stake)
  }

  /** Position `i` comes before position `j` in a stable descending sort. */
  predicate Precedes(sized: seq<Sized>, i: nat, j: nat)
    requires i < |sized| && j < |sized|
  {
    Greater(sized[i], sized[j]) || (!Greater(sized[j], sized[i]) && i < j)
  }

  ghost predicate Positions(sized: seq<Sized>, order: seq<nat>) {
    forall k | 0 <= k < |order| :: order[k] < |sized|
  }

  ghost predicate Sorted(sized: seq<Sized>, order: seq<nat>)
    requires Positions(sized, order)
  {
    forall a, b | 0 <= a < b < |order| :: Precedes(sized, order[a], order[b])
  }

  /** A stable descending arrangement of the first `n` entries. */
  ghost predicate Arranges(sized: seq<Sized>, order: seq<nat>, n: nat)
    requires n <= |sized|
  {
    && |order| == n && Positions(sized, order) && Sorted(sized, order)
    && (forall i: nat :: i in order <==> i < n)
  }

  /** The place of the next entry: behind every entry of a key as great. */
  function Inserted(sized: seq<Sized>, order: seq<nat>, i: nat): seq<nat>
    requires i < |sized| && forall k | 0 <= k < |order| :: order[k] < |sized|
  {
    if order == [] || !Greater(sized[i], sized[order[|order| - 1]]) then order + [i]
    else Inserted(sized, order[..|order| - 1], i) + [order[|order| - 1]]
  }

  lemma {:induction false} InsertedHolds(sized: seq<Sized>, order: seq<nat>, i: nat)
    requires i < |sized| && Positions(sized, order)
    ensures |Inserted(sized, order, i)| == |order| + 1 && Positions(sized, Inserted(sized, order, i))
    ensures forall x: nat :: x in Inserted(sized, order, i) <==> x == i || x in order
  {
    if order != [] && Greater(sized[i], sized[order[|order| - 1]]) {
      var before, last := order[..|order| - 1], order[|order| - 1];
      InsertedHolds(sized, before, i);
      assert order == before + [last];
    }
  }

  lemma {:induction false} InsertedSorted(sized: seq<Sized>, order: seq<nat>, i: nat)
    requires i < |sized| && Positions(sized, order) && Sorted(sized, order)
    requires forall k | 0 <= k < |order| :: order[k] < i
    ensures Positions(sized, Inserted(sized, order, i)) && Sorted(sized, Inserted(sized, order, i))
  {
    InsertedHolds(sized, order, i);
    if order == [] {
    } else if !Greater(sized[i], sized[order[|order| - 1]]) {
      AppendedSorted(sized, order, i);
    } else {
      var before, last := order[..|order| - 1], order[|order| - 1];
      InsertedSorted(sized, before, i);
      InsertedHolds(sized, before, i);
      var placed := Inserted(sized, before, i);
      forall x: nat | x in placed ensures x < |sized| && Precedes(sized, x, last) {
        if x != i {
          var k :| 0 <= k < |before| && before[k] == x;
          assert order[k] == x;
        }
      }
      LastSorted(sized, placed, last);
    }
  }

  lemma AppendedSorted(sized: seq<Sized>, order: seq<nat>, i: nat)
    requires i < |sized| && Positions(sized, order) && Sorted(sized, order) && order != []
    requires forall k | 0 <= k < |order| :: order[k] < i
    requires !Greater(sized[i], sized[order[|order| - 1]])
    ensures Positions(sized, order + [i]) && Sorted(sized, order + [i])
  {
    var last := order[|order| - 1];
    forall x: nat | x in order ensures x < |sized| && Precedes(sized, x, i) {
      var k :| 0 <= k < |order| && order[k] == x;
      assert k == |order| - 1 || Precedes(sized, x, last);
    }
    LastSorted(sized, order, i);
  }

  lemma LastSorted(sized: seq<Sized>, order: seq<nat>, last: nat)
    requires Positions(sized, order) && Sorted(sized, order) && last < |sized|
    requires forall x: nat | x in order :: x < |sized| && Precedes(sized, x, last)
    ensures Positions(sized, order + [last]) && Sorted(sized, order + [last])
  {
    hide Precedes;
    var all := order + [last];
    forall a, b | 0 <= a < b < |all| ensures Precedes(sized, all[a], all[b]) {
      assert all[a] in order;
    }
  }

  /** A stable descending arrangement is unique. */
  lemma {:induction false} ArrangementIsUnique(sized: seq<Sized>, a: seq<nat>, b: seq<nat>)
    requires Positions(sized, a) && Sorted(sized, a) && Positions(sized, b) && Sorted(sized, b)
    requires forall i: nat :: i in a <==> i in b
    ensures a == b
  {
    HasFirst(b);
    if a != [] {
      assert a[0] in b;
      assert b[0] in a;
      FirstIsFirst(sized, a, b[0]);
      FirstIsFirst(sized, b, a[0]);
      Antisymmetric(sized, a[0], b[0]);
      forall i: nat ensures i in a[1..] <==> i in b[1..] {
        TailWithout(sized, a, i);
        TailWithout(sized, b, i);
      }
      ArrangementIsUnique(sized, a[1..], b[1..]);
      assert a == [a[0]] + a[1..] && b == [b[0]] + b[1..];
    }
  }

  lemma HasFirst(b: seq<nat>)
    ensures b != [] ==> b[0] in b
  {
  }

  lemma FirstIsFirst(sized: seq<Sized>, a: seq<nat>, i: nat)
    requires Positions(sized, a) && Sorted(sized, a) && i in a
    ensures i < |sized| && (a[0] == i || Precedes(sized, a[0], i))
  {
  }

  lemma Antisymmetric(sized: seq<Sized>, i: nat, j: nat)
    requires i < |sized| && j < |sized|
    requires i == j || Precedes(sized, i, j)
    requires i == j || Precedes(sized, j, i)
    ensures i == j
  {
  }

  lemma TailWithout(sized: seq<Sized>, a: seq<nat>, i: nat)
    requires Positions(sized, a) && Sorted(sized, a) && a != []
    ensures i in a[1..] <==> i in a && i != a[0]
  {
    if i in a[1..] {
      var k :| 0 <= k < |a[1..]| && a[1..][k] == i;
      assert a[k + 1] == i;
      assert Precedes(sized, a[0], a[k + 1]);
      assert !Precedes(sized, i, i);
    }
  }

  // ----- the pipeline -----

  /** The reports that pass, in order, each with its stake. */
  function Survivors(reports: seq<EdgeReport>, config: Config): Result<seq<Sized>> {
    if reports == [] then Ok([])
    else
      var rest, last := Survivors(reports[..|reports| - 1], config), reports[|reports| - 1];
      if rest.ValueError? then ValueError
      else if !PassesGate(last, config) then rest
      else
        match Stake(last, config.kelly, config.maxStake)
        case ValueError => ValueError
        case Ok(stake) => Ok(rest.value + [Sized(last, stake)])
  }

  /** What the list must be: the survivors along a stable descending arrangement, ranked. */
  ghost predicate AreSignals(signals: seq<BetSignal>, sized: seq<Sized>, order: seq<nat>) {
    && Arranges(sized, order, |sized|)
    && |signals| == |order|
    && forall k | 0 <= k < |signals| ::
         var s := sized[order[k]];
         signals[k] == BetSignal(s.report, s.report.edge, s.report.ev, s.stake, s.report.edge, k)
  }

  /** `bet_signals_from_edges`: gate, stake, sort, rank. Only a survivor priced at 0, or a
      config the constructor refuses, raises. */
  method BetSignalsFromEdges(reports: seq<EdgeReport>, config: Config)
    returns (signals: Result<seq<BetSignal>>, ghost order: seq<nat>)
    ensures signals.ValueError? <==> Survivors(reports, config).ValueError?
    ensures signals.Ok? ==> AreSignals(signals.value, Survivors(reports, config).value, order)
  {
    order := [];
    var sized: seq<Sized> := [];
    var i := 0;
    while i < |reports|
      invariant 0 <= i <= |reports|
      invariant Survivors(reports[..i], config) == Ok(sized)
    {
      assert reports[..i + 1][..i] == reports[..i];
      if PassesGate(reports[i], config) {
        var stake := Stake(reports[i], config.kelly, config.maxStake);
        if stake.ValueError? {
          SurvivorsFail(reports, config, i + 1);
          return ValueError, [];
        }
        sized := sized + [Sized(reports[i], stake.value)];
      }
      i := i + 1;
    }
    assert reports[..i] == reports;
    var sorted := SortSized(sized);
    order := sorted;
    var list: seq<BetSignal> := [];
    var rank := 0;
    while rank < |sorted|
      invariant 0 <= rank <= |sorted| && |list| == rank
      invariant forall k | 0 <= k < rank ::
                  var s := sized[sorted[k]];
                  list[k] == BetSignal(s.report, s.report.edge, s.report.ev, s.stake, s.report.edge, k)
    {
      var s := sized[sorted[rank]];
      list := list + [BetSignal(s.report, s.report.edge, s.report.ev, s.stake, s.report.edge, rank)];
      rank := rank + 1;
    }
    signals := Ok(list);
  }

  /** `sized.sort(key=..., reverse=True)`: Python's sort is stable under `reverse`. */
  method SortSized(sized: seq<Sized>) returns (order: seq<nat>)
    ensures Arranges(sized, order, |sized|)
  {
    order := [];
    var i := 0;
    while i < |sized|
      invariant 0 <= i <= |sized|
      invariant Arranges(sized, order, i)
    {
      InsertedHolds(sized, order, i);
      assert forall k | 0 <= k < |order| :: order[k] in order;
      InsertedSorted(sized, order, i);
      order := Inserted(sized, order, i);
      i := i + 1;
    }
  }

  lemma {:induction false} SurvivorsFail(reports: seq<EdgeReport>, config: Config, n: nat)
    requires n <= |reports| && Survivors(reports[..n], config).ValueError?
    ensures Survivors(reports, config).ValueError?
    decreases |reports| - n
  {
    if n == |reports| {
      assert reports[..n] == reports;
    } else {
      assert reports[..n + 1][..n] == reports[..n];
      SurvivorsFail(reports, config, n + 1);
    }
  }

  /** The ranked list rises nowhere in (EV, edge, stake), and equal keys keep the order the
      reports came in. */
  lemma SignalsDescend(signals: seq<BetSignal>, sized: seq<Sized>, order: seq<nat>, a: nat, b: nat)
    requires AreSignals(signals, sized, order) && a < b < |signals|
    ensures signals[a].rank == a && signals[b].rank == b
    ensures var x, y := signals[a], signals[b];
      || x.report.ev > y.report.ev
      || (x.report.ev == y.report.ev
          && (|| x.report.edge > y.report.edge
              || (x.report.edge == y.report.edge
                  && (x.stake > y.stake || (x.stake == y.stake && order[a] < order[b])))))
  {
    assert Precedes(sized, order[a], order[b]);
  }

  lemma {:induction false} SurvivorsAre(reports: seq<EdgeReport>, config: Config, r: EdgeReport)
    requires Survivors(reports, config).Ok?
    ensures (exists k :: 0 <= k < |Survivors(reports, config).value| && Survivors(reports, config).value[k].report == r)
            <==> r in reports && PassesGate(r, config)
    ensures forall k | 0 <= k < |Survivors(reports, config).value| ::
              var s := Survivors(reports, config).value[k];
              Stake(s.report, config.kelly, config.maxStake) == Ok(s.stake)
  {
    if reports != [] {
      var before, last := reports[..|reports| - 1], reports[|reports| - 1];
      SurvivorsAre(before, config, r);
      assert reports == before + [last];
      var old_, all := Survivors(before, config).value, Survivors(reports, config).value;
      if k :| 0 <= k < |old_| && old_[k].report == r {
        assert all[k].report == r;
      }
      if PassesGate(last, config) {
        assert all[|old_|].report == last;
      }
      if k :| 0 <= k < |all| && all[k].report == r {
        assert k < |old_| ==> old_[k].report == r;
      }
    }
  }

  /** Every signal passed the gate, and every report that passes is a signal. */
  lemma {:induction false} SignalsAreTheSurvivors(reports: seq<EdgeReport>, config: Config, signals: seq<BetSignal>,
                               order: seq<nat>, r: EdgeReport)
    requires Survivors(reports, config).Ok? && AreSignals(signals, Survivors(reports, config).value, order)
    ensures (exists k :: 0 <= k < |signals| && signals[k].report == r) <==>
            r in reports && r.edge > 0.0 && r.edge >= config.minEdge && r.ev > config.minEv
  {
    hide Survivors, Sorted;
    var sized := Survivors(reports, config).value;
    SurvivorsAre(reports, config, r);
    if k :| 0 <= k < |signals| && signals[k].report == r {
      assert sized[order[k]].report == r;
    }
    if i: nat :| i < |sized| && sized[i].report == r {
      assert i in order;
      var k :| 0 <= k < |order| && order[k] == i;
      assert signals[k].report == r;
    }
  }

  // ----- what the list promises -----

  /** The pipeline raises exactly when a report that passes the gate has a price of 0, or
      passes under a config that its constructor refuses. */
  lemma {:induction false} SurvivorsRaise(reports: seq<EdgeReport>, config: Config)
    ensures Survivors(reports, config).ValueError? <==>
            exists i :: 0 <= i < |reports|
              && reports[i].edge > 0.0 && reports[i].edge >= config.minEdge && reports[i].ev > config.minEv
              && (config.kelly < 0.0 || config.maxStake < 0.0 || reports[i].offered == 0.0)
  {
    if reports != [] {
      var before, last := reports[..|reports| - 1], reports[|reports| - 1];
      SurvivorsRaise(before, config);
      StakeRaises(last, config);
      assert forall i | 0 <= i < |before| :: before[i] == reports[i];
      assert last == reports[|before|];
    }
  }

  lemma StakeRaises(report: EdgeReport, config: Config)
    ensures Stake(report, config.kelly, config.maxStake).ValueError? <==>
            config.kelly < 0.0 || config.maxStake < 0.0 || report.offered == 0.0
  {
    if report.offered != 0.0 {
      DecimalIsReciprocal(report.offered);
    }
  }

  /** Every signal of built reports, under a config its constructor accepts: the edge and the
      EV clear both floors, and the stake is the Kelly share held between 0 and the cap. It
      lies in (0, cap] whenever the multiplier and the cap are positive and the EV floor is
      not negative, as by default. */
  lemma {:induction false} StakesOfSignals(reports: seq<EdgeReport>, config: Config, signals: seq<BetSignal>,
                        order: seq<nat>, k: nat)
    requires config.kelly >= 0.0 && config.maxStake >= 0.0
    requires forall i | 0 <= i < |reports| :: Built(reports[i])
    requires Survivors(reports, config).Ok? && AreSignals(signals, Survivors(reports, config).value, order)
    requires k < |signals|
    ensures var signal := signals[k];
      && signal.edge == signal.report.edge > 0.0 && signal.edge >= config.minEdge
      && signal.ev == signal.report.ev > config.minEv
      && signal.report.offered != 0.0 && Decimal(signal.report.offered).value > 1.0
      && signal.stake == Min(config.maxStake, Max(0.0, KellyShare(signal.report, config.kelly)))
      && 0.0 <= signal.stake <= config.maxStake
      && (config.kelly > 0.0 && config.maxStake > 0.0 && config.minEv >= 0.0 ==>
            0.0 < signal.stake <= KellyShare(signal.report, config.kelly))
  {
    hide Survivors, Sorted, Stake, KellyFull, Decimal, ExpectedValue, Built;
    var sized := Survivors(reports, config).value;
    var report := sized[order[k]].report;
    SurvivorsAre(reports, config, report);
    assert report in reports && PassesGate(report, config);
    assert Built(report);
    StakeMeans(report, config.kelly, config.maxStake);
  }
}
