/** The line-movement series (betting/line_movement.py): coercion, the stable time sort, the
    step deltas, the closing line value and the grouping by book. */
module LineMovement {
  import opened Helpers
  import opened Odds

  datatype Market = Moneyline | RunLine | Total

  /** The home or over side, and the away or under side. */
  datatype Side = Left | Right

  /** A row of `raw.game_odds` for one market: both sides' prices, and each side's own line
      (on a total both sides read the one total). */
  datatype OddsRow = OddsRow(
    fetchedAt: Option<int>, book: string,
    left: Option<real>, right: Option<real>,
    leftLine: Option<real>, rightLine: Option<real>)

  datatype LineQuote = LineQuote(
    fetchedAt: Option<int>, book: string,
    american: real, other: Option<real>, line: Option<real>, otherLine: Option<real>, implied: real)

  // ----- the margins a reference market may have -----

  const MARGIN_LOW := 1.0
  const MARGIN_HIGH := 1.15
  const FLAT_MARGIN := 1.05

  // ----- coercion -----

  function ThisPrice(row: OddsRow, side: Side): Option<real> {
    if side == Left then row.left else row.right
  }

  function OtherPrice(row: OddsRow, side: Side): Option<real> {
    if side == Left then row.right else row.left
  }

  /** Does the row join this side's series: a price that is there and is not 0. */
  predicate Priced(row: OddsRow, side: Side) {
    ThisPrice(row, side).Some? && ThisPrice(row, side).value != 0.0
  }

  /** `_coerce_quote` on a row that does not raise. */
  function Coerced(row: OddsRow, market: Market, side: Side): (q: LineQuote)
    requires Priced(row, side)
  {
    var line := if market == Moneyline then None
                else if market == Total || side == Left then row.leftLine else row.rightLine;
    var otherLine := if market != RunLine then None
                     else if side == Left then row.rightLine else row.leftLine;
    LineQuote(row.fetchedAt, row.book, ThisPrice(row, side).value, OtherPrice(row, side),
              line, otherLine, Implied(ThisPrice(row, side).value).value)
  }

  /** The rows that join, in order. */
  function Joined(rows: seq<OddsRow>, market: Market, side: Side): seq<LineQuote> {
    if rows == [] then []
    else
      var rest, last := Joined(rows[..|rows| - 1], market, side), rows[|rows| - 1];
      if Priced(last, side) then rest + [Coerced(last, market, side)] else rest
  }

  /** The quote is the row's for the side: its price, what that price implies, the other price,
      and the lines: none on a moneyline, the one total on a total, each side's spread on a run
      line. */
  ghost predicate QuoteOfRow(q: LineQuote, row: OddsRow, market: Market, side: Side) {
    && q.fetchedAt == row.fetchedAt && q.book == row.book
    && (side == Left ==> row.left == Some(q.american) && q.other == row.right)
    && (side == Right ==> row.right == Some(q.american) && q.other == row.left)
    && q.american != 0.0
    && (q.american > 0.0 ==> q.implied == 100.0 / (q.american + 100.0))
    && (q.american < 0.0 ==> q.implied == -q.american / (-q.american + 100.0))
    && match market
       case Moneyline => q.line == None && q.otherLine == None
       case Total => q.line == row.leftLine && q.otherLine == None
       case RunLine =>
         && q.line == (if side == Left then row.leftLine else row.rightLine)
         && q.otherLine == if side == Left then row.rightLine else row.leftLine
  }

  /** The row has a price for the side, and it is not 0. */
  ghost predicate HasPrice(row: OddsRow, side: Side) {
    match side
    case Left => row.left.Some? && row.left.value != 0.0
    case Right => row.right.Some? && row.right.value != 0.0
  }

  /** The series is built from exactly the priced rows, in order, one quote each. */
  lemma {:induction false} JoinedMeans(rows: seq<OddsRow>, market: Market, side: Side) returns (priced: seq<OddsRow>)
    ensures Filters(rows, priced, (row: OddsRow) => HasPrice(row, side))
    ensures |Joined(rows, market, side)| == |priced|
    ensures forall k | 0 <= k < |priced| :: QuoteOfRow(Joined(rows, market, side)[k], priced[k], market, side)
  {
    hide Filters;
    var keep := (row: OddsRow) => HasPrice(row, side);
    if rows == [] {
      priced := [];
      FiltersNone(keep);
    } else {
      var before, last := rows[..|rows| - 1], rows[|rows| - 1];
      var rest := JoinedMeans(before, market, side);
      priced := if keep(last) then rest + [last] else rest;
      FiltersBack(before, rest, last, keep);
      assert rows == before + [last];
    }
  }

  // ----- the sort -----

  /** `_sort_key`: a missing stamp first. */
  predicate Later(a: LineQuote, b: LineQuote) {
    a.fetchedAt.Some? && (b.fetchedAt.None? || a.fetchedAt.value > b.fetchedAt.value)
  }

  function Inserted(quotes: seq<LineQuote>, q: LineQuote): seq<LineQuote> {
    if quotes == [] || !Later(quotes[|quotes| - 1], q) then quotes + [q]
    else Inserted(quotes[..|quotes| - 1], q) + [quotes[|quotes| - 1]]
  }

  /** `quotes.sort(key=_sort_key)`. */
  function Sorted(quotes: seq<LineQuote>): seq<LineQuote> {
    if quotes == [] then [] else Inserted(Sorted(quotes[..|quotes| - 1]), quotes[|quotes| - 1])
  }

  /** A quote, if it has the stamp. */
  function Only(q: LineQuote, stamp: Option<int>): seq<LineQuote> {
    if q.fetchedAt == stamp then [q] else []
  }

  /** The quotes of one stamp, in order. */
  function AtStamp(quotes: seq<LineQuote>, stamp: Option<int>): seq<LineQuote> {
    if quotes == [] then []
    else AtStamp(quotes[..|quotes| - 1], stamp) + Only(quotes[|quotes| - 1], stamp)
  }

  ghost predicate InTimeOrder(quotes: seq<LineQuote>) {
    forall a, b | 0 <= a < b < |quotes| ::
      quotes[a].fetchedAt.None?
      || (quotes[b].fetchedAt.Some? && quotes[a].fetchedAt.value <= quotes[b].fetchedAt.value)
  }

  lemma {:induction false} InsertedInOrder(quotes: seq<LineQuote>, q: LineQuote)
    requires InTimeOrder(quotes)
    ensures InTimeOrder(Inserted(quotes, q))
    ensures forall x :: x in Inserted(quotes, q) <==> x == q || x in quotes
  {
    if quotes != [] && Later(quotes[|quotes| - 1], q) {
      var before, last := quotes[..|quotes| - 1], quotes[|quotes| - 1];
      InsertedInOrder(before, q);
      var placed := Inserted(before, q);
      assert quotes == before + [last];
      forall a | 0 <= a < |placed| ensures !Later(placed[a], last) {
        assert placed[a] in placed;
        if placed[a] != q {
          var k :| 0 <= k < |before| && before[k] == placed[a];
          assert quotes[k] == placed[a];
        }
      }
    } else if quotes != [] {
      forall a | 0 <= a < |quotes| ensures !Later(quotes[a], q) {
        assert a < |quotes| - 1 ==> !Later(quotes[a], quotes[|quotes| - 1]);
      }
    }
  }

  lemma {:induction false} AtStampAppend(quotes: seq<LineQuote>, q: LineQuote, stamp: Option<int>)
    ensures AtStamp(quotes + [q], stamp) == AtStamp(quotes, stamp) + Only(q, stamp)
  {
    assert (quotes + [q])[..|quotes|] == quotes;
  }

  lemma {:induction false} InsertedUnfolds(quotes: seq<LineQuote>, q: LineQuote)
    ensures Inserted(quotes, q) ==
            if quotes == [] || !Later(quotes[|quotes| - 1], q) then quotes + [q]
            else Inserted(quotes[..|quotes| - 1], q) + [quotes[|quotes| - 1]]
  {
  }

  /** Insertion goes behind every quote of the same stamp. */
  lemma {:induction false} InsertedKeepsStamp(quotes: seq<LineQuote>, q: LineQuote, stamp: Option<int>)
    ensures AtStamp(Inserted(quotes, q), stamp) == AtStamp(quotes, stamp) + Only(q, stamp)
  {
    hide AtStamp, Only, Inserted, Later;
    InsertedUnfolds(quotes, q);
    if quotes == [] || !Later(quotes[|quotes| - 1], q) {
      AtStampAppend(quotes, q, stamp);
    } else {
      var before, last := quotes[..|quotes| - 1], quotes[|quotes| - 1];
      InsertedKeepsStamp(before, q, stamp);
      AtStampAppend(Inserted(before, q), last, stamp);
      LaterIsOther(last, q, stamp);
      Swap(AtStamp(before, stamp), Only(q, stamp), Only(last, stamp));
      assert quotes == before + [last];
      AtStampAppend(before, last, stamp);
    }
  }

  lemma LaterIsOther(a: LineQuote, b: LineQuote, stamp: Option<int>)
    requires Later(a, b)
    ensures Only(a, stamp) == [] || Only(b, stamp) == []
  {
  }

  lemma Swap<T>(a: seq<T>, b: seq<T>, c: seq<T>)
    requires b == [] || c == []
    ensures a + b + c == a + c + b
  {
  }

  /** The sort is by time and stable: the quotes of each stamp stay, in their order. */
  lemma {:induction false} SortedIsStable(quotes: seq<LineQuote>, stamp: Option<int>)
    ensures InTimeOrder(Sorted(quotes))
    ensures AtStamp(Sorted(quotes), stamp) == AtStamp(quotes, stamp)
    ensures |Sorted(quotes)| == |quotes|
  {
    if quotes != [] {
      var before, last := quotes[..|quotes| - 1], quotes[|quotes| - 1];
      SortedIsStable(before, stamp);
      InsertedInOrder(Sorted(before), last);
      InsertedKeepsStamp(Sorted(before), last, stamp);
      InsertedLonger(Sorted(before), last);
    }
  }

  lemma {:induction false} InsertedLonger(quotes: seq<LineQuote>, q: LineQuote)
    ensures |Inserted(quotes, q)| == |quotes| + 1
  {
    if quotes != [] && Later(quotes[|quotes| - 1], q) {
      InsertedLonger(quotes[..|quotes| - 1], q);
    }
  }

  // ----- the closing line value -----

  /** What a series says about a bet at its opening price. */
  datatype Clv = NoClv | Pair(prob: real) | TwoBets(prob: real)

  /** `run_line_is_pair`. */
  predicate IsPair(q: LineQuote) {
    q.line.Some? && q.otherLine.Some? && q.otherLine.value == -q.line.value
  }

  /** `clv_from_odds` on the two ends, when both carry the other side's price. */
  function PairClv(opening: LineQuote, closing: LineQuote): Result<Clv> {
    if opening.other.None? || closing.other.None? then Ok(NoClv)
    else
      match ClvProb(opening.american, opening.other.value, closing.american, closing.other.value)
      case ValueError => ValueError
      case Ok(prob) => Ok(Pair(prob))
  }

  /** `_run_line_clv`; `margin` is the reference margin reader, if there is one. */
  function RunLineClv(opening: LineQuote, closing: LineQuote, margin: Option<LineQuote -> real>): Result<Clv> {
    if opening.line.None? || opening.otherLine.None? || closing.line.None? || closing.otherLine.None? then
      Ok(NoClv)
    else if opening.line != closing.line then Ok(NoClv)
    else if IsPair(opening) && IsPair(closing) then PairClv(opening, closing)
    else if margin.None? then Ok(NoClv)
    else
      var entry := DevigOneSided(opening.american, margin.value(opening));
      var close := DevigOneSided(closing.american, margin.value(closing));
      if entry.ValueError? || close.ValueError? then ValueError
      else if !(0.0 < entry.value < 1.0) || !(0.0 < close.value < 1.0) then ValueError
      else Ok(TwoBets(close.value - entry.value))
  }

  function SeriesClv(quotes: seq<LineQuote>, market: Market, margin: Option<LineQuote -> real>): Result<Clv> {
    if |quotes| < 2 then Ok(NoClv)
    else if market == RunLine then RunLineClv(quotes[0], quotes[|quotes| - 1], margin)
    else PairClv(quotes[0], quotes[|quotes| - 1])
  }

  // ----- what the value is -----

  /** A series with both ends' other price: the close's fair probability of the side less the
      entry's. */
  lemma PairMeans(opening: LineQuote, closing: LineQuote)
    requires opening.american != 0.0 && closing.american != 0.0 && !ZeroOtherPrice(opening, closing)
    ensures opening.other.Some? && closing.other.Some? ==>
      && Implied(opening.american).value + Implied(opening.other.value).value > 0.0
      && Implied(closing.american).value + Implied(closing.other.value).value > 0.0
      && PairClv(opening, closing)
         == Ok(Pair(FairShare(closing.american, closing.other.value)
                    - FairShare(opening.american, opening.other.value)))
    ensures opening.other.None? || closing.other.None? ==> PairClv(opening, closing) == Ok(NoClv)
  {
    hide FairShare, Implied, ClvProb;
    if opening.other.Some? && closing.other.Some? {
      ClvMeans(opening.american, opening.other.value, closing.american, closing.other.value);
    }
  }

  /** A run line has no value when a spread is missing at an end or the side's spread moved. A
      pair at both ends is valued as a pair; any other is two bets, each price over its margin,
      and has no value without a margin. */
  lemma RunLineMeans(opening: LineQuote, closing: LineQuote, margin: Option<LineQuote -> real>)
    requires opening.american != 0.0 && closing.american != 0.0
    requires margin.Some? ==> MARGIN_LOW <= margin.value(opening) && MARGIN_LOW <= margin.value(closing)
    ensures None in [opening.line, opening.otherLine, closing.line, closing.otherLine] ==>
              RunLineClv(opening, closing, margin) == Ok(NoClv)
    ensures opening.line.Some? && closing.line.Some? && opening.line != closing.line ==>
              RunLineClv(opening, closing, margin) == Ok(NoClv)
    ensures opening.line.Some? && opening.line == closing.line
            && opening.otherLine == Some(-opening.line.value) && closing.otherLine == Some(-closing.line.value) ==>
              RunLineClv(opening, closing, margin) == PairClv(opening, closing)
    ensures opening.line.Some? && opening.line == closing.line && opening.otherLine.Some? && closing.otherLine.Some?
            && !(opening.otherLine.value == -opening.line.value && closing.otherLine.value == -closing.line.value) ==>
              RunLineClv(opening, closing, margin) ==
              if margin.None? then Ok(NoClv)
              else Ok(TwoBets(Implied(closing.american).value / margin.value(closing)
                              - Implied(opening.american).value / margin.value(opening)))
  {
    hide PairClv, Implied, DevigOneSided;
    DecimalIsReciprocal(opening.american);
    DecimalIsReciprocal(closing.american);
    if margin.Some? {
      DevigOneSidedMeans(opening.american, margin.value(opening));
      DevigOneSidedMeans(closing.american, margin.value(closing));
    }
  }

  // ----- when it raises -----

  /** Both ends carry the other side's price, and one of the two is 0. */
  ghost predicate ZeroOtherPrice(opening: LineQuote, closing: LineQuote) {
    opening.other.Some? && closing.other.Some? && (opening.other.value == 0.0 || closing.other.value == 0.0)
  }

  lemma PairRaises(opening: LineQuote, closing: LineQuote)
    requires opening.american != 0.0 && closing.american != 0.0
    ensures PairClv(opening, closing).ValueError? <==> ZeroOtherPrice(opening, closing)
  {
    if opening.other.Some? && closing.other.Some? && !ZeroOtherPrice(opening, closing) {
      ClvSidesCancel(opening.american, opening.other.value, closing.american, closing.other.value);
    }
  }

  /** With a reader that answers as `reference_margin_from_prices` does, a run line's series
      raises exactly when its ends are one unmoved pair and one carries an other price of 0.
      Two separate bets never raise: each has a price over the margin. */
  lemma RunLineRaises(opening: LineQuote, closing: LineQuote, margin: Option<LineQuote -> real>)
    requires margin.Some? ==> MARGIN_LOW <= margin.value(opening) && MARGIN_LOW <= margin.value(closing)
    requires opening.american != 0.0 && closing.american != 0.0
    ensures RunLineClv(opening, closing, margin).ValueError? <==>
            && opening.line == closing.line && IsPair(opening) && IsPair(closing)
            && ZeroOtherPrice(opening, closing)
  {
    hide PairClv, ZeroOtherPrice;
    PairRaises(opening, closing);
    if margin.Some? {
      DevigOneSidedMeans(opening.american, margin.value(opening));
      DevigOneSidedMeans(closing.american, margin.value(closing));
      DecimalIsReciprocal(opening.american);
      DecimalIsReciprocal(closing.american);
    }
  }

  ghost predicate AllPriced(quotes: seq<LineQuote>) {
    forall k | 0 <= k < |quotes| :: quotes[k].american != 0.0
  }

  lemma {:induction false} JoinedPriced(rows: seq<OddsRow>, market: Market, side: Side)
    ensures AllPriced(Joined(rows, market, side))
  {
    if rows != [] {
      JoinedPriced(rows[..|rows| - 1], market, side);
    }
  }

  lemma {:induction false} InsertedPriced(quotes: seq<LineQuote>, q: LineQuote)
    requires AllPriced(quotes) && q.american != 0.0
    ensures AllPriced(Inserted(quotes, q))
  {
    if quotes != [] && Later(quotes[|quotes| - 1], q) {
      InsertedPriced(quotes[..|quotes| - 1], q);
    }
  }

  lemma {:induction false} SortedPriced(quotes: seq<LineQuote>)
    requires AllPriced(quotes)
    ensures AllPriced(Sorted(quotes))
  {
    if quotes != [] {
      SortedPriced(quotes[..|quotes| - 1]);
      InsertedPriced(Sorted(quotes[..|quotes| - 1]), quotes[|quotes| - 1]);
    }
  }

  /** What makes the series of any rows raise, on the prices of its two ends. */
  lemma {:induction false} SeriesRaises(rows: seq<OddsRow>, market: Market, side: Side,
          margin: Option<LineQuote -> real>)
    ensures var quotes := Sorted(Joined(rows, market, side));
      market != RunLine ==>
        (SeriesClv(quotes, market, margin).ValueError? <==>
         |quotes| >= 2 && ZeroOtherPrice(quotes[0], quotes[|quotes| - 1]))
  {
    hide Sorted, Joined, PairClv, ZeroOtherPrice;
    var quotes := Sorted(Joined(rows, market, side));
    JoinedPriced(rows, market, side);
    SortedPriced(Joined(rows, market, side));
    if |quotes| >= 2 {
      PairRaises(quotes[0], quotes[|quotes| - 1]);
    }
  }

  // ----- the series -----

  datatype Direction = Toward | Away | Flat

  datatype Movement = Movement(
    quotes: seq<LineQuote>, impliedSeries: seq<real>,
    americanDelta: real, impliedDelta: real, lineDelta: Option<real>,
    impliedSteps: seq<real>, americanSteps: seq<real>,
    direction: Direction, clv: Clv)

  function ImpliedSeries(quotes: seq<LineQuote>): seq<real> {
    seq(|quotes|, i requires 0 <= i < |quotes| => quotes[i].implied)
  }

  function AmericanSeries(quotes: seq<LineQuote>): seq<real> {
    seq(|quotes|, i requires 0 <= i < |quotes| => quotes[i].american)
  }

  /** The change between each pair of consecutive values. */
  function Steps(values: seq<real>): seq<real> {
    if |values| < 2 then []
    else seq(|values| - 1, i requires 0 <= i < |values| - 1 => values[i + 1] - values[i])
  }

  /** The steps of a series add up to the move from its first value to its last. */
  lemma {:induction false} StepsAddUp(values: seq<real>)
    requires values != []
    ensures Sum(Steps(values)) == values[|values| - 1] - values[0]
  {
    if |values| >= 2 {
      var before, steps := values[..|values| - 1], Steps(values);
      StepsAddUp(before);
      assert steps[..|steps| - 1] == Steps(before);
    }
  }

  /** The series are the quotes' own values in order, and each step is one value less the one
      before it. */
  lemma StepsMean(quotes: seq<LineQuote>)
    requires quotes != []
    ensures |ImpliedSeries(quotes)| == |quotes|
    ensures forall i | 0 <= i < |quotes| :: ImpliedSeries(quotes)[i] == quotes[i].implied
    ensures |Steps(ImpliedSeries(quotes))| == |Steps(AmericanSeries(quotes))| == |quotes| - 1
    ensures forall i | 0 <= i < |quotes| - 1 ::
              && Steps(ImpliedSeries(quotes))[i] == quotes[i + 1].implied - quotes[i].implied
              && Steps(AmericanSeries(quotes))[i] == quotes[i + 1].american - quotes[i].american
  {
  }

  lemma EmptySeries(market: Market, margin: Option<LineQuote -> real>)
    ensures SeriesClv([], market, margin) == Ok(NoClv)
    ensures Steps(ImpliedSeries([])) == [] == Steps(AmericanSeries([])) && Sum([]) == 0.0
  {
  }

  /** What the movement says of its series, both ends included. */
  ghost predicate Tells(m: Movement, quotes: seq<LineQuote>)
    requires quotes != []
  {
    var opening, closing := quotes[0], quotes[|quotes| - 1];
    && m.impliedDelta == closing.implied - opening.implied
    && m.americanDelta == closing.american - opening.american
    && (m.lineDelta.Some? <==> opening.line.Some? && closing.line.Some?)
    && (m.lineDelta.Some? ==> m.lineDelta.value == closing.line.value - opening.line.value)
    && (m.direction == Toward <==> closing.implied > opening.implied)
    && (m.direction == Away <==> closing.implied < opening.implied)
  }

  /** `line_movement_from_quotes`. */
  method LineMovementFromQuotes(rows: seq<OddsRow>, market: Market, side: Side, margin: Option<LineQuote -> real>)
    returns (movement: Result<Movement>)
    ensures var quotes := Sorted(Joined(rows, market, side));
      && (movement.ValueError? <==> SeriesClv(quotes, market, margin).ValueError?)
      && (market != RunLine ==>
            (movement.ValueError? <==> |quotes| >= 2 && ZeroOtherPrice(quotes[0], quotes[|quotes| - 1])))
      && (movement.Ok? ==>
            var m := movement.value;
            && m.quotes == quotes && Ok(m.clv) == SeriesClv(quotes, market, margin)
            && m.impliedSeries == ImpliedSeries(quotes)
            && m.impliedSteps == Steps(ImpliedSeries(quotes)) && Sum(m.impliedSteps) == m.impliedDelta
            && m.americanSteps == Steps(AmericanSeries(quotes)) && Sum(m.americanSteps) == m.americanDelta
            && (quotes == [] ==> m == Movement([], [], 0.0, 0.0, None, [], [], Flat, NoClv))
            && (quotes != [] ==> Tells(m, quotes)))
  {
    hide Sorted, SeriesClv, Coerced, Steps, Sum, ZeroOtherPrice, Priced;
    var quotes: seq<LineQuote> := [];
    var i := 0;
    while i < |rows|
      invariant 0 <= i <= |rows|
      invariant quotes == Joined(rows[..i], market, side)
    {
      assert rows[..i + 1][..i] == rows[..i];
      if Priced(rows[i], side) {
        quotes := quotes + [Coerced(rows[i], market, side)];
      }
      i := i + 1;
    }
    assert rows[..i] == rows;
    SeriesRaises(rows, market, side, margin);
    quotes := Sorted(quotes);
    if quotes == [] {
      EmptySeries(market, margin);
      return Ok(Movement([], [], 0.0, 0.0, None, [], [], Flat, NoClv));
    }
    var impliedSeries, americanSeries := ImpliedSeries(quotes), AmericanSeries(quotes);
    StepsAddUp(impliedSeries);
    StepsAddUp(americanSeries);
    var opening, closing := quotes[0], quotes[|quotes| - 1];
    var impliedDelta := closing.implied - opening.implied;
    var lineDelta := if opening.line.Some? && closing.line.Some? then Some(closing.line.value - opening.line.value)
                     else None;
    var direction := if impliedDelta > 0.0 then Toward else if impliedDelta < 0.0 then Away else Flat;
    var clv := SeriesClv(quotes, market, margin);
    if clv.ValueError? {
      return ValueError;
    }
    movement := Ok(Movement(quotes, impliedSeries, closing.american - opening.american, impliedDelta, lineDelta,
                            Steps(impliedSeries), Steps(americanSeries), direction, clv.value));
  }

  // ----- the two sides of a market -----

  /** The same snapshot of a market seen from the two sides. */
  ghost predicate Mirrors(market: Market, a: LineQuote, b: LineQuote) {
    && a.fetchedAt == b.fetchedAt
    && a.american != 0.0 && b.american != 0.0
    && a.other == Some(b.american) && b.other == Some(a.american)
    && (market == RunLine ==> a.line == b.otherLine && b.line == a.otherLine)
  }

  ghost predicate MirrorSeries(market: Market, a: seq<LineQuote>, b: seq<LineQuote>) {
    |a| == |b| && forall i | 0 <= i < |a| :: Mirrors(market, a[i], b[i])
  }

  lemma {:induction false} InsertedMirrors(market: Market, a: seq<LineQuote>, b: seq<LineQuote>,
                                            p: LineQuote, q: LineQuote)
    requires MirrorSeries(market, a, b) && Mirrors(market, p, q)
    ensures MirrorSeries(market, Inserted(a, p), Inserted(b, q))
    decreases a
  {
    if a != [] && Later(a[|a| - 1], p) {
      InsertedMirrors(market, a[..|a| - 1], b[..|b| - 1], p, q);
    }
  }

  lemma {:induction false} SortedMirrors(market: Market, a: seq<LineQuote>, b: seq<LineQuote>)
    requires MirrorSeries(market, a, b)
    ensures MirrorSeries(market, Sorted(a), Sorted(b))
    decreases a
  {
    if a != [] {
      SortedMirrors(market, a[..|a| - 1], b[..|b| - 1]);
      InsertedMirrors(market, Sorted(a[..|a| - 1]), Sorted(b[..|b| - 1]), a[|a| - 1], b[|b| - 1]);
    }
  }

  ghost predicate BothPriced(rows: seq<OddsRow>) {
    forall i | 0 <= i < |rows| :: Priced(rows[i], Left) && Priced(rows[i], Right)
  }

  lemma {:induction false} JoinedMirrors(rows: seq<OddsRow>, market: Market)
    requires BothPriced(rows)
    ensures MirrorSeries(market, Joined(rows, market, Left), Joined(rows, market, Right))
    ensures |Joined(rows, market, Left)| == |rows|
  {
    if rows != [] {
      JoinedMirrors(rows[..|rows| - 1], market);
    }
  }

  lemma PairClvsCancel(openA: LineQuote, closeA: LineQuote, openB: LineQuote, closeB: LineQuote)
    requires exists m :: Mirrors(m, openA, openB)
    requires exists m :: Mirrors(m, closeA, closeB)
    ensures PairClv(openA, closeA).Ok? && PairClv(openB, closeB).Ok?
    ensures PairClv(openA, closeA).value.Pair? && PairClv(openB, closeB).value.Pair?
    ensures PairClv(openA, closeA).value.prob + PairClv(openB, closeB).value.prob == 0.0
  {
    ClvSidesCancel(openA.american, openB.american, closeA.american, closeB.american);
  }

  /** On a moneyline or a total whose rows carry both prices, what the one side's opening bet
      gains on the close is what the other side's loses, whatever order the rows come in. */
  lemma {:induction false} SidesCancel(rows: seq<OddsRow>, market: Market, margin: Option<LineQuote -> real>)
    requires market != RunLine && BothPriced(rows)
    ensures var a := SeriesClv(Sorted(Joined(rows, market, Left)), market, margin);
      var b := SeriesClv(Sorted(Joined(rows, market, Right)), market, margin);
      && a.Ok? && b.Ok?
      && (|rows| < 2 ==> a.value == NoClv && b.value == NoClv)
      && (|rows| >= 2 ==> a.value.Pair? && b.value.Pair? && a.value.prob + b.value.prob == 0.0)
  {
    hide PairClv, Joined, Sorted, InTimeOrder;
    var left, right := Joined(rows, market, Left), Joined(rows, market, Right);
    JoinedMirrors(rows, market);
    SortedMirrors(market, left, right);
    SortedIsStable(left, None);
    if |rows| >= 2 {
      var a, b := Sorted(left), Sorted(right);
      PairClvsCancel(a[0], a[|a| - 1], b[0], b[|b| - 1]);
    }
  }

  // ----- run lines -----

  lemma RunLineEndsCancel(openA: LineQuote, closeA: LineQuote, openB: LineQuote, closeB: LineQuote,
                          margin: Option<LineQuote -> real>)
    requires Mirrors(RunLine, openA, openB) && Mirrors(RunLine, closeA, closeB)
    requires IsPair(openA) && IsPair(closeA)
    ensures var a, b := RunLineClv(openA, closeA, margin), RunLineClv(openB, closeB, margin);
      && a.Ok? && b.Ok?
      && (openA.line != closeA.line ==> a.value == NoClv && b.value == NoClv)
      && (openA.line == closeA.line ==> a.value.Pair? && b.value.Pair? && a.value.prob + b.value.prob == 0.0)
  {
    hide PairClv;
    PairClvsCancel(openA, closeA, openB, closeB);
    assert IsPair(openB) && IsPair(closeB);
    assert openB.line.value == -openA.line.value && closeB.line.value == -closeA.line.value;
  }

  /** On a run line whose first and last rows are the two sides of one bet, the sides cancel
      when the spread has not moved, and neither side has a value when it has. */
  lemma {:induction false} RunLineSidesCancel(rows: seq<OddsRow>, margin: Option<LineQuote -> real>)
    requires BothPriced(rows) && |rows| >= 2
    requires var quotes := Sorted(Joined(rows, RunLine, Left));
             |quotes| == |rows| && IsPair(quotes[0]) && IsPair(quotes[|quotes| - 1])
    ensures var quotes := Sorted(Joined(rows, RunLine, Left));
      var a, b := SeriesClv(quotes, RunLine, margin), SeriesClv(Sorted(Joined(rows, RunLine, Right)), RunLine, margin);
      && a.Ok? && b.Ok?
      && (quotes[0].line != quotes[|quotes| - 1].line ==> a.value == NoClv && b.value == NoClv)
      && (quotes[0].line == quotes[|quotes| - 1].line ==>
            a.value.Pair? && b.value.Pair? && a.value.prob + b.value.prob == 0.0)
  {
    hide RunLineClv, Joined, Sorted, IsPair;
    var left, right := Joined(rows, RunLine, Left), Joined(rows, RunLine, Right);
    JoinedMirrors(rows, RunLine);
    SortedMirrors(RunLine, left, right);
    var a, b := Sorted(left), Sorted(right);
    RunLineEndsCancel(a[0], a[|a| - 1], b[0], b[|b| - 1], margin);
  }

  // ----- the reference margin -----

  datatype Candidate = Candidate(name: string, a: Option<real>, b: Option<real>)

  /** A candidate whose two implied probabilities make a margin in the band. */
  predicate Usable(c: Candidate) {
    && c.a.Some? && c.b.Some? && c.a.value != 0.0 && c.b.value != 0.0
    && MARGIN_LOW <= Implied(c.a.value).value + Implied(c.b.value).value <= MARGIN_HIGH
  }

  /** `reference_margin_from_prices`: the first usable candidate's margin, else the flat one. */
  method ReferenceMarginFromPrices(candidates: seq<Candidate>) returns (margin: real, source: string)
    ensures MARGIN_LOW <= margin <= MARGIN_HIGH
    ensures (forall i | 0 <= i < |candidates| :: !Usable(candidates[i])) ==> margin == FLAT_MARGIN && source == "flat"
    ensures (exists i :: 0 <= i < |candidates| && Usable(candidates[i])) ==>
      exists i :: 0 <= i < |candidates| && Usable(candidates[i]) && source == candidates[i].name
        && margin == Implied(candidates[i].a.value).value + Implied(candidates[i].b.value).value
        && forall j | 0 <= j < i :: !Usable(candidates[j])
  {
    var k := 0;
    while k < |candidates|
      invariant 0 <= k <= |candidates|
      invariant forall j | 0 <= j < k :: !Usable(candidates[j])
    {
      var c := candidates[k];
      if c.a.Some? && c.b.Some? {
        var x, y := Implied(c.a.value), Implied(c.b.value);
        if x.Ok? && y.Ok? {
          margin := x.value + y.value;
          if MARGIN_LOW <= margin <= MARGIN_HIGH {
            assert Usable(c);
            return margin, c.name;
          }
        }
      }
      k := k + 1;
    }
    return FLAT_MARGIN, "flat";
  }

  // ----- grouping by book -----

  function OfBook(rows: seq<OddsRow>, book: string): seq<OddsRow> {
    if rows == [] then []
    else
      var rest, last := OfBook(rows[..|rows| - 1], book), rows[|rows| - 1];
      if last.book == book then rest + [last] else rest
  }

  /** The groups partition the rows: one per book that occurs, each holding exactly that
      book's rows in their order. */
  ghost predicate Grouped(groups: map<string, seq<OddsRow>>, rows: seq<OddsRow>) {
    && (forall book :: book in groups <==> exists i :: 0 <= i < |rows| && rows[i].book == book)
    && (forall book | book in groups :: groups[book] == OfBook(rows, book))
  }

  /** A book's group is exactly its rows, in the order of the whole. */
  lemma {:induction false} OfBookInOrder(rows: seq<OddsRow>, book: string)
    ensures Filters(rows, OfBook(rows, book), (row: OddsRow) => row.book == book)
  {
    hide Filters;
    var keep := (row: OddsRow) => row.book == book;
    if rows == [] {
      FiltersNone(keep);
    } else {
      var before, last := rows[..|rows| - 1], rows[|rows| - 1];
      OfBookInOrder(before, book);
      FiltersBack(before, OfBook(before, book), last, keep);
      assert rows == before + [last];
    }
  }

  lemma GroupedGrows(groups: map<string, seq<OddsRow>>, rows: seq<OddsRow>, row: OddsRow)
    requires Grouped(groups, rows)
    ensures Grouped(groups[row.book := (if row.book in groups then groups[row.book] else []) + [row]], rows + [row])
  {
    var more := rows + [row];
    var after := groups[row.book := (if row.book in groups then groups[row.book] else []) + [row]];
    assert more[..|rows|] == rows;
    forall book ensures book in after <==> exists i :: 0 <= i < |more| && more[i].book == book {
      if i :| 0 <= i < |rows| && rows[i].book == book {
        assert more[i].book == book;
      }
      assert book == row.book ==> more[|rows|].book == book;
      if i :| 0 <= i < |more| && more[i].book == book {
        assert i < |rows| ==> rows[i].book == book;
      }
    }
    if row.book !in groups {
      AbsentBook(rows, row.book);
    }
  }

  lemma {:induction false} AbsentBook(rows: seq<OddsRow>, book: string)
    requires forall i | 0 <= i < |rows| :: rows[i].book != book
    ensures OfBook(rows, book) == []
  {
    if rows != [] {
      AbsentBook(rows[..|rows| - 1], book);
    }
  }

  /** `by_book.setdefault(book, []).append(row)`. */
  method GroupByBook(rows: seq<OddsRow>) returns (groups: map<string, seq<OddsRow>>)
    ensures Grouped(groups, rows)
  {
    groups := map[];
    var i := 0;
    while i < |rows|
      invariant 0 <= i <= |rows|
      invariant Grouped(groups, rows[..i])
    {
      var row := rows[i];
      GroupedGrows(groups, rows[..i], row);
      assert rows[..i] + [row] == rows[..i + 1];
      groups := groups[row.book := (if row.book in groups then groups[row.book] else []) + [row]];
      i := i + 1;
    }
    assert rows[..i] == rows;
  }

  /** The quotes of one book, in order. */
  function QuotesOf(quotes: seq<LineQuote>, book: string): seq<LineQuote> {
    if quotes == [] then []
    else
      var rest, last := QuotesOf(quotes[..|quotes| - 1], book), quotes[|quotes| - 1];
      if last.book == book then rest + [last] else rest
  }

  lemma {:induction false} QuotesInOrder(quotes: seq<LineQuote>, book: string)
    ensures Filters(quotes, QuotesOf(quotes, book), (q: LineQuote) => q.book == book)
  {
    hide Filters;
    var keep := (q: LineQuote) => q.book == book;
    if quotes == [] {
      FiltersNone(keep);
    } else {
      var before, last := quotes[..|quotes| - 1], quotes[|quotes| - 1];
      QuotesInOrder(before, book);
      FiltersBack(before, QuotesOf(before, book), last, keep);
      assert quotes == before + [last];
    }
  }

  /** A book's rows give exactly that book's quotes among the quotes of all the rows, in
      their order. */
  lemma {:induction false} SeriesOfOneBook(rows: seq<OddsRow>, book: string, market: Market, side: Side)
    ensures Joined(OfBook(rows, book), market, side) == QuotesOf(Joined(rows, market, side), book)
  {
    if rows != [] {
      var before, last := rows[..|rows| - 1], rows[|rows| - 1];
      SeriesOfOneBook(before, book, market, side);
      if last.book == book {
        assert OfBook(rows, book)[..|OfBook(before, book)|] == OfBook(before, book);
      }
      if Priced(last, side) {
        assert Joined(rows, market, side)[..|Joined(before, market, side)|] == Joined(before, market, side);
      }
    }
  }
}
