/** What the isotonic fit is: the weighted least-squares optimum among the rising maps,
    the only one, balanced, and independent of the order of the records. */
module IsotonicOptimal {
  import opened Isotonic

  // ----- the step map -----

  ghost predicate Applicable(edges: seq<real>, values: seq<real>) {
    |edges| == |values| > 0 && StrictlyRising(edges)
  }

  /** `np.searchsorted(edges, p, side="right")`. */
  function SearchRight(edges: seq<real>, p: real): (r: nat)
    requires StrictlyRising(edges)
    ensures r <= |edges|
    ensures forall k | 0 <= k < r :: edges[k] <= p
    ensures forall k | r <= k < |edges| :: p < edges[k]
  {
    if |edges| == 0 then 0
    else if edges[|edges| - 1] <= p then |edges|
    else SearchRight(edges[..|edges| - 1], p)
  }

  /** `apply_isotonic` at one probability. */
  function Apply(p: real, edges: seq<real>, values: seq<real>): real
    requires |edges| == |values| > 0 && StrictlyRising(edges)
  {
    var idx: int := SearchRight(edges, p) - 1;
    values[if idx < 0 then 0 else idx]
  }

  lemma {:induction false} SearchMeans(edges: seq<real>, p: real, k: nat)
    requires StrictlyRising(edges) && k < |edges|
    ensures edges[k] <= p <==> k < SearchRight(edges, p)
  {
  }

  /** The step map at any prediction: the value of the last block that starts at or below it,
      and the first block's below them all. */
  lemma ApplyMeans(p: real, edges: seq<real>, values: seq<real>, k: nat)
    requires |edges| == |values| > 0 && StrictlyRising(edges) && k < |edges|
    requires (k == 0 || edges[k] <= p) && (k + 1 < |edges| ==> p < edges[k + 1])
    ensures Apply(p, edges, values) == values[k]
  {
    SearchMeans(edges, p, k);
    if k + 1 < |edges| {
      SearchMeans(edges, p, k + 1);
    }
  }

  lemma ApplyRises(p: real, q: real, edges: seq<real>, values: seq<real>)
    requires Applicable(edges, values)
    requires forall k | 0 <= k < |values| - 1 :: values[k] <= values[k + 1]
    requires p <= q
    ensures Apply(p, edges, values) <= Apply(q, edges, values)
  {
    if SearchRight(edges, p) > 0 {
      SearchMeans(edges, p, SearchRight(edges, p) - 1);
      SearchMeans(edges, q, SearchRight(edges, p) - 1);
    }
    var i := if SearchRight(edges, p) == 0 then 0 else SearchRight(edges, p) - 1;
    var j := if SearchRight(edges, q) == 0 then 0 else SearchRight(edges, q) - 1;
    Climb(values, i, j);
  }

  lemma {:induction false} Climb(values: seq<real>, i: nat, j: nat)
    requires forall k | 0 <= k < |values| - 1 :: values[k] <= values[k + 1]
    requires i <= j < |values|
    ensures values[i] <= values[j]
  {
    if i < j {
      Climb(values, i, j - 1);
    }
  }

  // ----- the fit on the groups -----

  /** The block that holds group `j`. */
  ghost function BlockOf(cuts: seq<nat>, n: nat, j: nat): (k: nat)
    requires Cuts(cuts, n) && j < n
    ensures k < |cuts| - 1 && cuts[k] <= j < cuts[k + 1]
  {
    BlockUpTo(cuts, n, j, |cuts| - 1)
  }

  ghost function BlockUpTo(cuts: seq<nat>, n: nat, j: nat, k: nat): (b: nat)
    requires Cuts(cuts, n) && k < |cuts| && j < cuts[k]
    ensures b < k && cuts[b] <= j < cuts[b + 1]
  {
    if cuts[k - 1] <= j then k - 1 else BlockUpTo(cuts, n, j, k - 1)
  }

  ghost function Fits(cuts: seq<nat>, n: nat, values: seq<real>): (f: seq<real>)
    requires Cuts(cuts, n) && |values| == |cuts| - 1
    ensures |f| == n
  {
    seq(n, j requires 0 <= j < n => values[BlockOf(cuts, n, j)])
  }

  lemma CutsOrder(cuts: seq<nat>, n: nat, i: nat, j: nat)
    requires Cuts(cuts, n) && i < |cuts| && j < |cuts|
    ensures i < j <==> cuts[i] < cuts[j]
    ensures cuts[i] <= n
  {
  }

  lemma BlockUnique(cuts: seq<nat>, n: nat, j: nat, k: nat)
    requires Cuts(cuts, n) && j < n
    requires k < |cuts| - 1 && cuts[k] <= j < cuts[k + 1]
    ensures BlockOf(cuts, n, j) == k
  {
    var b := BlockOf(cuts, n, j);
    CutsOrder(cuts, n, k, b + 1);
    CutsOrder(cuts, n, b, k + 1);
  }

  /** At every key the step map returns the value of the key's block. */
  lemma ApplyAtKey(keys: seq<real>, sums: seq<real>, counts: seq<real>, cuts: seq<nat>,
                   edges: seq<real>, values: seq<real>, j: nat)
    requires Pooled(keys, sums, counts, cuts, edges, values)
    requires j < |keys|
    ensures Applicable(edges, values)
    ensures Apply(keys[j], edges, values) == Fits(cuts, |keys|, values)[j]
  {
    EdgesRise(keys, sums, counts, cuts, edges, values);
    var k := BlockOf(cuts, |keys|, j);
    assert PooledBlock(keys, sums, counts, cuts, edges[k], values[k], k);
    SearchMeans(edges, keys[j], k);
    assert edges[k] <= keys[j];
    if k + 1 < |edges| {
      assert PooledBlock(keys, sums, counts, cuts, edges[k + 1], values[k + 1], k + 1);
      CutsOrder(cuts, |keys|, k + 1, |cuts| - 1);
      SearchMeans(edges, keys[j], k + 1);
    }
    assert SearchRight(edges, keys[j]) == k + 1;
  }

  lemma EdgesRise(keys: seq<real>, sums: seq<real>, counts: seq<real>, cuts: seq<nat>,
                  edges: seq<real>, values: seq<real>)
    requires Pooled(keys, sums, counts, cuts, edges, values)
    ensures StrictlyRising(edges)
  {
    forall i, j | 0 <= i < j < |edges| ensures edges[i] < edges[j] {
      assert PooledBlock(keys, sums, counts, cuts, edges[i], values[i], i);
      assert PooledBlock(keys, sums, counts, cuts, edges[j], values[j], j);
      assert cuts[i] < cuts[j] < cuts[|cuts| - 1];
    }
  }

  // ----- residuals -----

  ghost function Times(x: real, y: real): real {
    x * y
  }

  /** What the fit leaves of the outcomes of the first `n` groups. */
  ghost function Residual(sums: seq<real>, counts: seq<real>, f: seq<real>, n: nat): real
    requires n <= |sums| == |counts| == |f|
  {
    if n == 0 then 0.0
    else Residual(sums, counts, f, n - 1) + (sums[n - 1] - Times(counts[n - 1], f[n - 1]))
  }

  lemma TimesAdds(x: real, y: real, v: real)
    ensures Times(x + y, v) == Times(x, v) + Times(y, v)
  {
  }

  lemma {:induction false} ResidualInBlock(sums: seq<real>, counts: seq<real>, f: seq<real>, a: nat, j: nat, v: real)
    requires a <= j <= |sums| == |counts| == |f|
    requires forall i | a <= i < j :: f[i] == v
    ensures Residual(sums, counts, f, j)
         == Residual(sums, counts, f, a) + Span(sums, a, j) - Times(Span(counts, a, j), v)
  {
    if a < j {
      ResidualInBlock(sums, counts, f, a, j - 1, v);
      TimesAdds(Span(counts, a, j - 1), counts[j - 1], v);
      assert Span(counts, a, j) == Span(counts, a, j - 1) + counts[j - 1];
    } else {
      assert Times(0.0, v) == 0.0;
    }
    hide Times;
  }

  lemma FlatInBlock(cuts: seq<nat>, n: nat, values: seq<real>, k: nat)
    requires Cuts(cuts, n) && |values| == |cuts| - 1 && k < |values|
    ensures cuts[k] < cuts[k + 1] <= n
    ensures forall i | cuts[k] <= i < cuts[k + 1] :: Fits(cuts, n, values)[i] == values[k]
  {
    CutsOrder(cuts, n, k, k + 1);
    CutsOrder(cuts, n, k + 1, |cuts| - 1);
    forall i | cuts[k] <= i < cuts[k + 1] ensures Fits(cuts, n, values)[i] == values[k] {
      BlockUnique(cuts, n, i, k);
    }
  }

  lemma {:induction false} ResidualAtCut(keys: seq<real>, sums: seq<real>, counts: seq<real>, cuts: seq<nat>,
                                         edges: seq<real>, values: seq<real>, k: nat)
    requires Pooled(keys, sums, counts, cuts, edges, values)
    requires k < |cuts|
    ensures cuts[k] <= |keys|
    ensures Residual(sums, counts, Fits(cuts, |keys|, values), cuts[k]) == 0.0
  {
    hide Fits, StartsAbove, StrictlyRising, Positive;
    CutsOrder(cuts, |keys|, k, |cuts| - 1);
    if k > 0 {
      ResidualAtCut(keys, sums, counts, cuts, edges, values, k - 1);
      FlatInBlock(cuts, |keys|, values, k - 1);
      ResidualInBlock(sums, counts, Fits(cuts, |keys|, values), cuts[k - 1], cuts[k], values[k - 1]);
      assert PooledBlock(keys, sums, counts, cuts, edges[k - 1], values[k - 1], k - 1);
    }
  }

  lemma {:induction false} ResidualInside(keys: seq<real>, sums: seq<real>, counts: seq<real>, cuts: seq<nat>,
                       edges: seq<real>, values: seq<real>, k: nat, j: nat)
    requires Pooled(keys, sums, counts, cuts, edges, values)
    requires k + 1 < |cuts| && cuts[k] < j < cuts[k + 1]
    ensures j < |keys|
    ensures Residual(sums, counts, Fits(cuts, |keys|, values), j) > 0.0
  {
    hide Fits, Residual, Span, StrictlyRising, Positive;
    ResidualAtCut(keys, sums, counts, cuts, edges, values, k);
    FlatInBlock(cuts, |keys|, values, k);
    ResidualInBlock(sums, counts, Fits(cuts, |keys|, values), cuts[k], j, values[k]);
    assert PooledBlock(keys, sums, counts, cuts, edges[k], values[k], k);
  }

  /** The optimality conditions: the residual never falls below zero, ends at zero, and
      the fit steps up only where it is zero. */
  ghost predicate Balanced(sums: seq<real>, counts: seq<real>, f: seq<real>) {
    && |sums| == |counts| == |f| && Positive(counts)
    && Residual(sums, counts, f, |f|) == 0.0
    && (forall n | 0 <= n <= |f| :: Residual(sums, counts, f, n) >= 0.0)
    && (forall n | 0 < n < |f| :: f[n - 1] <= f[n])
    && (forall n | 0 < n < |f| && f[n - 1] != f[n] :: Residual(sums, counts, f, n) == 0.0)
  }

  /** A cut is exactly a position where the residual is zero. */
  lemma CutIffZero(keys: seq<real>, sums: seq<real>, counts: seq<real>, cuts: seq<nat>,
                   edges: seq<real>, values: seq<real>, n: nat)
    requires Pooled(keys, sums, counts, cuts, edges, values)
    requires n <= |keys|
    ensures n in cuts <==> Residual(sums, counts, Fits(cuts, |keys|, values), n) == 0.0
    ensures Residual(sums, counts, Fits(cuts, |keys|, values), n) >= 0.0
    ensures 0 < n < |keys| && n !in cuts ==>
            Fits(cuts, |keys|, values)[n - 1] == Fits(cuts, |keys|, values)[n]
  {
    if n in cuts {
      var k :| 0 <= k < |cuts| && cuts[k] == n;
      ResidualAtCut(keys, sums, counts, cuts, edges, values, k);
    } else {
      assert n != cuts[|cuts| - 1];
      var k := BlockOf(cuts, |keys|, n);
      assert cuts[k] != n;
      ResidualInside(keys, sums, counts, cuts, edges, values, k, n);
      BlockUnique(cuts, |keys|, n - 1, k);
    }
  }

  lemma PooledParts(keys: seq<real>, sums: seq<real>, counts: seq<real>, cuts: seq<nat>,
                    edges: seq<real>, values: seq<real>)
    requires Pooled(keys, sums, counts, cuts, edges, values)
    ensures |sums| == |counts| == |keys| && Positive(counts) && StrictlyRising(keys)
    ensures Cuts(cuts, |keys|) && |edges| == |values| == |cuts| - 1
    ensures forall k | 0 <= k < |values| - 1 :: values[k] <= values[k + 1]
  {
  }

  lemma PooledIsBalanced(keys: seq<real>, sums: seq<real>, counts: seq<real>, cuts: seq<nat>,
                         edges: seq<real>, values: seq<real>)
    requires Pooled(keys, sums, counts, cuts, edges, values)
    ensures Balanced(sums, counts, Fits(cuts, |keys|, values))
  {
    hide Residual, Pooled, PooledBlock, StrictlyRising;
    PooledParts(keys, sums, counts, cuts, edges, values);
    var f := Fits(cuts, |keys|, values);
    ResidualAtCut(keys, sums, counts, cuts, edges, values, |cuts| - 1);
    forall n | 0 <= n <= |f| ensures Residual(sums, counts, f, n) >= 0.0 {
      CutIffZero(keys, sums, counts, cuts, edges, values, n);
    }
    forall n | 0 < n < |f|
      ensures f[n - 1] <= f[n]
      ensures f[n - 1] != f[n] ==> Residual(sums, counts, f, n) == 0.0
    {
      CutIffZero(keys, sums, counts, cuts, edges, values, n);
      var a, b := BlockOf(cuts, |keys|, n - 1), BlockOf(cuts, |keys|, n);
      CutsOrder(cuts, |keys|, a, b + 1);
      Climb(values, a, b);
    }
  }

  // ----- optimality on the groups -----

  ghost predicate Rising(g: seq<real>) {
    forall i | 0 < i < |g| :: g[i - 1] <= g[i]
  }

  /** The residuals of `f` weighed by how far `f` lies above `g`. */
  ghost function Cross(sums: seq<real>, counts: seq<real>, f: seq<real>, g: seq<real>, n: nat): real
    requires n <= |sums| == |counts| == |f| == |g|
  {
    if n == 0 then 0.0
    else Cross(sums, counts, f, g, n - 1)
         + Times(f[n - 1] - g[n - 1], sums[n - 1] - Times(counts[n - 1], f[n - 1]))
  }

  /** Summation by parts. */
  lemma {:induction false} CrossBound(sums: seq<real>, counts: seq<real>, f: seq<real>, g: seq<real>, n: nat)
    requires Balanced(sums, counts, f) && |g| == |f| && Rising(g)
    requires 0 < n <= |f|
    ensures Cross(sums, counts, f, g, n) >= Times(f[n - 1] - g[n - 1], Residual(sums, counts, f, n))
  {
    hide Times;
    var x := sums[n - 1] - Times(counts[n - 1], f[n - 1]);
    var e := f[n - 1] - g[n - 1];
    if n == 1 {
      assert Cross(sums, counts, f, g, 0) == 0.0;
      assert Residual(sums, counts, f, 0) == 0.0;
    } else {
      CrossBound(sums, counts, f, g, n - 1);
      ByParts(f[n - 2] - g[n - 2], e, Residual(sums, counts, f, n - 1), x,
              f[n - 2] == f[n - 1], g[n - 1] - g[n - 2]);
    }
  }

  lemma ByParts(d: real, e: real, r: real, x: real, flat: bool, rise: real)
    requires r >= 0.0 && rise >= 0.0
    requires if flat then d - e == rise else r == 0.0
    ensures Times(d, r) + Times(e, x) >= Times(e, r + x)
  {
    if flat {
      assert (d - e) * r >= 0.0;
    }
    assert d * r + e * x - e * (r + x) == (d - e) * r;
  }

  lemma {:induction false} CrossNotNegative(sums: seq<real>, counts: seq<real>, f: seq<real>, g: seq<real>)
    requires Balanced(sums, counts, f) && |g| == |f| && Rising(g)
    ensures Cross(sums, counts, f, g, |f|) >= 0.0
  {
    if |f| > 0 {
      CrossBound(sums, counts, f, g, |f|);
    }
  }

  // ----- optimality on the records -----

  ghost predicate Covers(keys: seq<real>, records: seq<Record>) {
    forall i | 0 <= i < |records| :: records[i].p in keys
  }

  lemma CoversFront(keys: seq<real>, records: seq<Record>)
    requires Covers(keys, records) && |records| > 0
    ensures Covers(keys, records[..|records| - 1])
    ensures records[|records| - 1].p in keys
  {
  }

  ghost function Square(x: real): (r: real)
    ensures r >= 0.0
  {
    x * x
  }

  /** The squared error of any prediction map on the records. */
  ghost function Loss(records: seq<Record>, g: real -> real): real {
    if |records| == 0 then 0.0
    else
      var last := records[|records| - 1];
      Loss(records[..|records| - 1], g) + Square(last.y - g(last.p))
  }

  /** The squared error of the fitted step map. */
  ghost function FitLoss(records: seq<Record>, edges: seq<real>, values: seq<real>): real
    requires |records| > 0 ==> Applicable(edges, values)
  {
    if |records| == 0 then 0.0
    else
      var last := records[|records| - 1];
      FitLoss(records[..|records| - 1], edges, values) + Square(last.y - Apply(last.p, edges, values))
  }

  /** The squared distance between the fit and another map, record by record. */
  ghost function FitDistance(records: seq<Record>, edges: seq<real>, values: seq<real>, g: real -> real): (r: real)
    requires |records| > 0 ==> Applicable(edges, values)
    ensures r >= 0.0
  {
    if |records| == 0 then 0.0
    else
      var last := records[|records| - 1];
      FitDistance(records[..|records| - 1], edges, values, g)
      + Square(Apply(last.p, edges, values) - g(last.p))
  }

  /** `Cross`, with the groups' sums and counts taken from the records. */
  ghost function GroupCross(records: seq<Record>, keys: seq<real>, f: seq<real>, g: seq<real>, n: nat): real
    requires n <= |keys| == |f| == |g|
  {
    if n == 0 then 0.0
    else GroupCross(records, keys, f, g, n - 1)
         + Times(f[n - 1] - g[n - 1],
                 SumAt(records, keys[n - 1]) - Times(CountAt(records, keys[n - 1]), f[n - 1]))
  }

  lemma {:induction false} GroupCrossIs(records: seq<Record>, keys: seq<real>, sums: seq<real>, counts: seq<real>,
                                        f: seq<real>, g: seq<real>, n: nat)
    requires Grouped(records, keys, sums, counts)
    requires n <= |keys| == |f| == |g|
    ensures GroupCross(records, keys, f, g, n) == Cross(sums, counts, f, g, n)
  {
    if n > 0 {
      GroupCrossIs(records, keys, sums, counts, f, g, n - 1);
    }
  }

  /** One more record moves the group sum at its own key only. */
  lemma {:induction false} GroupCrossStep(records: seq<Record>, keys: seq<real>, f: seq<real>, g: seq<real>, n: nat)
    requires |records| > 0 && StrictlyRising(keys)
    requires n <= |keys| == |f| == |g|
    requires records[|records| - 1].p in keys
    ensures var last := records[|records| - 1];
            var j := KeyIndex(keys, last.p);
            GroupCross(records, keys, f, g, n)
            == GroupCross(records[..|records| - 1], keys, f, g, n)
               + if j < n then Times(f[j] - g[j], last.y - f[j]) else 0.0
  {
    hide SumAt, CountAt, KeyIndex, Times;
    if n > 0 {
      GroupCrossStep(records, keys, f, g, n - 1);
      var last := records[|records| - 1];
      var j := KeyIndex(keys, last.p);
      var x, front := keys[n - 1], records[..|records| - 1];
      GroupTermStep(records, x, f[n - 1], g[n - 1]);
      assert x == last.p <==> j == n - 1;
    }
  }

  lemma GroupTermStep(records: seq<Record>, x: real, v: real, w: real)
    requires |records| > 0
    ensures var last := records[|records| - 1];
            var front := records[..|records| - 1];
            Times(v - w, SumAt(records, x) - Times(CountAt(records, x), v))
            == Times(v - w, SumAt(front, x) - Times(CountAt(front, x), v))
               + if last.p == x then Times(v - w, last.y - v) else 0.0
  {
    var last, front := records[|records| - 1], records[..|records| - 1];
    Spread(v - w, SumAt(front, x), CountAt(front, x), last.y, v);
  }

  lemma Spread(d: real, s: real, c: real, y: real, v: real)
    ensures d * (s + y - (c + 1.0) * v) == d * (s - c * v) + d * (y - v)
  {
    assert (c + 1.0) * v == c * v + v;
  }

  lemma SplitSquare(y: real, f: real, g: real)
    ensures Square(y - g) == Square(y - f) + Square(f - g) + 2.0 * Times(f - g, y - f)
  {
  }

  /** The fit on the keys, and another map on the keys, as sequences. */
  ghost predicate Agrees(keys: seq<real>, f: seq<real>, edges: seq<real>, values: seq<real>) {
    |f| == |keys|
    && (|keys| > 0 ==> Applicable(edges, values))
    && forall j | 0 <= j < |keys| :: f[j] == Apply(keys[j], edges, values)
  }

  ghost function On(keys: seq<real>, g: real -> real): (r: seq<real>)
    ensures |r| == |keys|
  {
    seq(|keys|, j requires 0 <= j < |keys| => g(keys[j]))
  }

  /** The loss of any map is the loss of the fit, plus their distance, plus twice the
      cross term of the groups. */
  lemma {:induction false} LossSplits(records: seq<Record>, keys: seq<real>, f: seq<real>,
                                      edges: seq<real>, values: seq<real>, g: real -> real)
    requires StrictlyRising(keys) && Covers(keys, records) && Agrees(keys, f, edges, values)
    requires |records| > 0 ==> Applicable(edges, values)
    ensures Loss(records, g)
         == FitLoss(records, edges, values) + FitDistance(records, edges, values, g)
            + 2.0 * GroupCross(records, keys, f, On(keys, g), |keys|)
  {
    hide GroupCross, Times, Square, KeyIndex, StrictlyRising;
    if |records| == 0 {
      NoRecords(keys, f, On(keys, g), |keys|);
    } else {
      CoversFront(keys, records);
      LossSplits(records[..|records| - 1], keys, f, edges, values, g);
      GroupCrossStep(records, keys, f, On(keys, g), |keys|);
      var last := records[|records| - 1];
      var j := KeyIndex(keys, last.p);
      SplitSquare(last.y, f[j], g(last.p));
    }
  }

  lemma {:induction false} NoRecords(keys: seq<real>, f: seq<real>, g: seq<real>, n: nat)
    requires n <= |keys| == |f| == |g|
    ensures GroupCross([], keys, f, g, n) == 0.0
  {
    if n > 0 {
      NoRecords(keys, f, g, n - 1);
    }
  }

  lemma FitAgrees(keys: seq<real>, sums: seq<real>, counts: seq<real>, cuts: seq<nat>,
                  edges: seq<real>, values: seq<real>)
    requires Pooled(keys, sums, counts, cuts, edges, values)
    ensures Agrees(keys, Fits(cuts, |keys|, values), edges, values)
  {
    forall j | 0 <= j < |keys|
      ensures Applicable(edges, values)
      ensures Fits(cuts, |keys|, values)[j] == Apply(keys[j], edges, values)
    {
      ApplyAtKey(keys, sums, counts, cuts, edges, values, j);
    }
    if |keys| > 0 {
      ApplyAtKey(keys, sums, counts, cuts, edges, values, 0);
    }
  }

  lemma {:induction false} KeysCover(records: seq<Record>)
    ensures Covers(UniqueKeys(records), records)
    ensures |records| > 0 ==> |UniqueKeys(records)| > 0
  {
    if |records| > 0 {
      assert records[0].p in UniqueKeys(records);
    }
  }

  lemma {:induction false} PoolingIsLeastSquares(records: seq<Record>, sums: seq<real>, counts: seq<real>,
          cuts: seq<nat>,
                          edges: seq<real>, values: seq<real>, g: real -> real)
    requires Grouped(records, UniqueKeys(records), sums, counts)
    requires Pooled(UniqueKeys(records), sums, counts, cuts, edges, values)
    requires forall i, j | 0 <= i < |records| && 0 <= j < |records| && records[i].p <= records[j].p ::
               g(records[i].p) <= g(records[j].p)
    ensures |records| > 0 ==> Applicable(edges, values)
    ensures Loss(records, g)
         >= FitLoss(records, edges, values) + FitDistance(records, edges, values, g)
  {
    hide Pooled, Grouped, Fits, Loss, FitLoss, FitDistance, GroupCross, Cross, Covers, UniqueKeys;
    var keys := UniqueKeys(records);
    PooledParts(keys, sums, counts, cuts, edges, values);
    var f := Fits(cuts, |keys|, values);
    FitAgrees(keys, sums, counts, cuts, edges, values);
    KeysCover(records);
    var h := On(keys, g);
    forall i | 0 < i < |h| ensures h[i - 1] <= h[i] {
      assert keys[i - 1] in keys && keys[i] in keys;
    }
    PooledIsBalanced(keys, sums, counts, cuts, edges, values);
    CrossNotNegative(sums, counts, f, h);
    GroupCrossIs(records, keys, sums, counts, f, h, |keys|);
    LossSplits(records, keys, f, edges, values, g);
  }

  // ----- the fit is balanced -----

  ghost function Outcomes(records: seq<Record>): real {
    if |records| == 0 then 0.0
    else Outcomes(records[..|records| - 1]) + records[|records| - 1].y
  }

  ghost function Predictions(records: seq<Record>, edges: seq<real>, values: seq<real>): real
    requires |records| > 0 ==> Applicable(edges, values)
  {
    if |records| == 0 then 0.0
    else Predictions(records[..|records| - 1], edges, values)
         + Apply(records[|records| - 1].p, edges, values)
  }

  lemma TimesOne(one: real, x: real)
    requires one == 1.0
    ensures Times(one, x) == x
  {
  }

  lemma {:induction false} CrossIsResidual(sums: seq<real>, counts: seq<real>, f: seq<real>, g: seq<real>, n: nat)
    requires n <= |sums| == |counts| == |f| == |g|
    requires forall j | 0 <= j < |f| :: g[j] == f[j] - 1.0
    ensures Cross(sums, counts, f, g, n) == Residual(sums, counts, f, n)
  {
    if n > 0 {
      CrossIsResidual(sums, counts, f, g, n - 1);
      TimesOne(f[n - 1] - g[n - 1], sums[n - 1] - Times(counts[n - 1], f[n - 1]));
    }
  }

  lemma {:induction false} GapIsCross(records: seq<Record>, keys: seq<real>, f: seq<real>, g: seq<real>,
                                      edges: seq<real>, values: seq<real>)
    requires StrictlyRising(keys) && Covers(keys, records) && Agrees(keys, f, edges, values)
    requires |records| > 0 ==> Applicable(edges, values)
    requires |g| == |f| && forall j | 0 <= j < |f| :: g[j] == f[j] - 1.0
    ensures Outcomes(records) - Predictions(records, edges, values)
         == GroupCross(records, keys, f, g, |keys|)
  {
    hide GroupCross, Times, KeyIndex, StrictlyRising;
    if |records| == 0 {
      NoRecords(keys, f, g, |keys|);
    } else {
      CoversFront(keys, records);
      GapIsCross(records[..|records| - 1], keys, f, g, edges, values);
      GroupCrossStep(records, keys, f, g, |keys|);
      var last := records[|records| - 1];
      var j := KeyIndex(keys, last.p);
      TimesOne(f[j] - g[j], last.y - f[j]);
    }
  }

  lemma {:induction false} PoolingAddsUp(records: seq<Record>, sums: seq<real>, counts: seq<real>, cuts: seq<nat>,
                         edges: seq<real>, values: seq<real>)
    requires Grouped(records, UniqueKeys(records), sums, counts)
    requires Pooled(UniqueKeys(records), sums, counts, cuts, edges, values)
    ensures |records| > 0 ==> Applicable(edges, values)
    ensures Predictions(records, edges, values) == Outcomes(records)
  {
    hide Pooled, Grouped, Fits, Predictions, Outcomes, Residual, GroupCross, Cross, Covers, UniqueKeys;
    var keys := UniqueKeys(records);
    PooledParts(keys, sums, counts, cuts, edges, values);
    var f := Fits(cuts, |keys|, values);
    FitAgrees(keys, sums, counts, cuts, edges, values);
    KeysCover(records);
    PooledIsBalanced(keys, sums, counts, cuts, edges, values);
    var g := seq(|f|, j requires 0 <= j < |f| => f[j] - 1.0);
    CrossIsResidual(sums, counts, f, g, |f|);
    GroupCrossIs(records, keys, sums, counts, f, g, |keys|);
    GapIsCross(records, keys, f, g, edges, values);
  }

  // ----- the fit is the only one -----

  ghost function Gap(counts: seq<real>, f: seq<real>, g: seq<real>, n: nat): real
    requires n <= |counts| == |f| == |g|
  {
    if n == 0 then 0.0 else Gap(counts, f, g, n - 1) + Times(counts[n - 1], Square(f[n - 1] - g[n - 1]))
  }

  lemma {:induction false} CrossesCancel(sums: seq<real>, counts: seq<real>, f: seq<real>, g: seq<real>, n: nat)
    requires n <= |sums| == |counts| == |f| == |g|
    ensures Cross(sums, counts, f, g, n) + Cross(sums, counts, g, f, n) == -Gap(counts, f, g, n)
  {
    hide Times, Square;
    if n > 0 {
      CrossesCancel(sums, counts, f, g, n - 1);
      OneGap(sums[n - 1], counts[n - 1], f[n - 1], g[n - 1]);
    }
  }

  lemma OneGap(s: real, c: real, f: real, g: real)
    ensures Times(f - g, s - Times(c, f)) + Times(g - f, s - Times(c, g)) == -Times(c, Square(f - g))
  {
    assert (f - g) * (s - c * f) + (g - f) * (s - c * g) == (f - g) * (c * g - c * f);
    assert c * g - c * f == -(c * (f - g));
    assert (f - g) * (c * (f - g)) == c * ((f - g) * (f - g));
  }

  lemma WeighedSquare(c: real, d: real)
    requires c > 0.0
    ensures Times(c, Square(d)) >= 0.0
    ensures Times(c, Square(d)) == 0.0 ==> d == 0.0
  {
    var q := Square(d);
    SquareNotZero(d, q);
    if q > 0.0 {
      ProductPositive(c, q, Times(c, q));
    } else {
      assert Times(c, 0.0) == 0.0;
    }
  }

  lemma SquareNotZero(d: real, q: real)
    requires q == Square(d)
    ensures q >= 0.0
    ensures q == 0.0 ==> d == 0.0
  {
    if d > 0.0 {
      ProductPositive(d, d, q);
    } else if d < 0.0 {
      ProductPositive(-d, -d, q);
    }
  }

  lemma ProductPositive(x: real, y: real, q: real)
    requires x > 0.0 && y > 0.0 && q == x * y
    ensures q > 0.0
  {
  }

  lemma {:induction false} NoGap(counts: seq<real>, f: seq<real>, g: seq<real>, n: nat)
    requires n <= |counts| == |f| == |g| && Positive(counts)
    ensures Gap(counts, f, g, n) >= 0.0
    ensures Gap(counts, f, g, n) == 0.0 ==> f[..n] == g[..n]
  {
    hide Times, Square;
    if n > 0 {
      NoGap(counts, f, g, n - 1);
      WeighedSquare(counts[n - 1], f[n - 1] - g[n - 1]);
      assert f[..n] == f[..n - 1] + [f[n - 1]];
      assert g[..n] == g[..n - 1] + [g[n - 1]];
    }
  }

  lemma {:induction false} SameCuts(a: seq<nat>, b: seq<nat>, n: nat)
    requires Cuts(a, n) && Cuts(b, n)
    requires forall x | 0 <= x <= n :: x in a <==> x in b
    ensures a == b
  {
    forall k | 0 <= k < |a| && k < |b| ensures a[k] == b[k] {
      SameCut(a, b, n, k);
    }
  }

  lemma {:induction false} SameCut(a: seq<nat>, b: seq<nat>, n: nat, k: nat)
    requires Cuts(a, n) && Cuts(b, n)
    requires forall x | 0 <= x <= n :: x in a <==> x in b
    requires k < |a| && k < |b|
    ensures a[k] == b[k]
  {
    if k > 0 {
      SameCut(a, b, n, k - 1);
      assert a[k] <= a[|a| - 1] && b[k] <= b[|b| - 1];
      assert a[k] in a && b[k] in b;
      var i :| 0 <= i < |b| && b[i] == a[k];
      var j :| 0 <= j < |a| && a[j] == b[k];
      assert i >= k && j >= k;
    }
  }

  /** The groups determine the pooling, cuts included. */
  lemma PoolingIsUnique(keys: seq<real>, sums: seq<real>, counts: seq<real>,
                    cuts: seq<nat>, edges: seq<real>, values: seq<real>,
                    otherCuts: seq<nat>, otherEdges: seq<real>, otherValues: seq<real>)
    requires Pooled(keys, sums, counts, cuts, edges, values)
    requires Pooled(keys, sums, counts, otherCuts, otherEdges, otherValues)
    ensures cuts == otherCuts && edges == otherEdges && values == otherValues
  {
    hide Residual, Cross, Gap, Balanced, StrictlyRising, Fits, Pooled;
    PooledParts(keys, sums, counts, cuts, edges, values);
    PooledParts(keys, sums, counts, otherCuts, otherEdges, otherValues);
    var n := |keys|;
    var f, g := Fits(cuts, n, values), Fits(otherCuts, n, otherValues);
    SameFits(keys, sums, counts, cuts, edges, values, otherCuts, otherEdges, otherValues);
    forall x | 0 <= x <= n ensures x in cuts <==> x in otherCuts {
      CutIffZero(keys, sums, counts, cuts, edges, values, x);
      CutIffZero(keys, sums, counts, otherCuts, otherEdges, otherValues, x);
    }
    SameCuts(cuts, otherCuts, n);
    forall k | 0 <= k < |values| ensures edges[k] == otherEdges[k] && values[k] == otherValues[k] {
      EdgeIsKey(keys, sums, counts, cuts, edges, values, k);
      EdgeIsKey(keys, sums, counts, otherCuts, otherEdges, otherValues, k);
      FlatInBlock(cuts, n, values, k);
      FlatInBlock(otherCuts, n, otherValues, k);
      assert values[k] == f[cuts[k]] == g[otherCuts[k]] == otherValues[k];
    }
  }

  lemma EdgeIsKey(keys: seq<real>, sums: seq<real>, counts: seq<real>, cuts: seq<nat>,
                  edges: seq<real>, values: seq<real>, k: nat)
    requires Pooled(keys, sums, counts, cuts, edges, values)
    requires k < |values|
    ensures cuts[k] < |keys| && edges[k] == keys[cuts[k]]
  {
    CutsOrder(cuts, |keys|, k, |cuts| - 1);
    assert PooledBlock(keys, sums, counts, cuts, edges[k], values[k], k);
  }

  lemma SameFits(keys: seq<real>, sums: seq<real>, counts: seq<real>,
                 cuts: seq<nat>, edges: seq<real>, values: seq<real>,
                 otherCuts: seq<nat>, otherEdges: seq<real>, otherValues: seq<real>)
    requires Pooled(keys, sums, counts, cuts, edges, values)
    requires Pooled(keys, sums, counts, otherCuts, otherEdges, otherValues)
    ensures Fits(cuts, |keys|, values) == Fits(otherCuts, |keys|, otherValues)
  {
    hide Residual, Cross, Gap, StrictlyRising, Fits, Pooled;
    PooledParts(keys, sums, counts, cuts, edges, values);
    PooledParts(keys, sums, counts, otherCuts, otherEdges, otherValues);
    var n := |keys|;
    var f, g := Fits(cuts, n, values), Fits(otherCuts, n, otherValues);
    PooledIsBalanced(keys, sums, counts, cuts, edges, values);
    PooledIsBalanced(keys, sums, counts, otherCuts, otherEdges, otherValues);
    CrossNotNegative(sums, counts, f, g);
    CrossNotNegative(sums, counts, g, f);
    CrossesCancel(sums, counts, f, g, n);
    NoGap(counts, f, g, n);
    assert f == f[..n] == g[..n] == g;
  }

  // ----- the order of the records does not matter -----

  lemma SameRest(front: seq<Record>, last: Record, b: seq<Record>, j: nat)
    requires multiset(front + [last]) == multiset(b) && j < |b| && b[j] == last
    ensures multiset(front) == multiset(b[..j] + b[j + 1..])
  {
    assert b == b[..j] + [last] + b[j + 1..];
    assert multiset(b) == multiset(b[..j]) + multiset([last]) + multiset(b[j + 1..]);
    assert multiset(b[..j] + b[j + 1..]) == multiset(b) - multiset([last]);
    assert multiset(front) == multiset(front + [last]) - multiset([last]);
  }

  lemma {:induction false} SumIgnoresOrder(a: seq<Record>, b: seq<Record>, x: real)
    requires multiset(a) == multiset(b)
    ensures SumAt(a, x) == SumAt(b, x) && CountAt(a, x) == CountAt(b, x)
  {
    if |a| == 0 {
      assert |multiset(b)| == 0;
    } else {
      var front, last := a[..|a| - 1], a[|a| - 1];
      assert a == front + [last];
      assert last in multiset(b);
      var j :| 0 <= j < |b| && b[j] == last;
      SameRest(front, last, b, j);
      SumIgnoresOrder(front, b[..j] + b[j + 1..], x);
      PullOut(b, j, x);
    }
  }

  lemma {:induction false} PullOut(b: seq<Record>, j: nat, x: real)
    requires j < |b|
    ensures var rest := b[..j] + b[j + 1..];
            && SumAt(b, x) == SumAt(rest, x) + (if b[j].p == x then b[j].y else 0.0)
            && CountAt(b, x) == CountAt(rest, x) + (if b[j].p == x then 1.0 else 0.0)
  {
    var rest := b[..j] + b[j + 1..];
    if j == |b| - 1 {
      assert rest == b[..|b| - 1];
    } else {
      var front := b[..|b| - 1];
      PullOut(front, j, x);
      assert front[..j] + front[j + 1..] == rest[..|rest| - 1];
      assert rest[|rest| - 1] == b[|b| - 1];
    }
  }

  lemma {:induction false} SameKeys(a: seq<real>, b: seq<real>)
    requires StrictlyRising(a) && StrictlyRising(b)
    requires forall x :: x in a <==> x in b
    ensures a == b
  {
    assert forall k | 0 <= k < |b| :: b[k] in b;
    assert forall k | 0 <= k < |a| :: a[k] in a;
    if |a| != 0 {
      assert a[0] in b && b[0] in a;
      assert a[0] == b[0];
      forall x ensures x in a[1..] <==> x in b[1..] {
        if x in a[1..] { assert x in b && x != b[0]; }
        if x in b[1..] { assert x in a && x != a[0]; }
      }
      SameKeys(a[1..], b[1..]);
    }
  }

  lemma {:induction false} PoolingIgnoresOrder(a: seq<Record>, b: seq<Record>,
                        sums: seq<real>, counts: seq<real>, cuts: seq<nat>, edges: seq<real>, values: seq<real>,
                        otherSums: seq<real>, otherCounts: seq<real>, otherCuts: seq<nat>,
                        otherEdges: seq<real>, otherValues: seq<real>)
    requires multiset(a) == multiset(b)
    requires Grouped(a, UniqueKeys(a), sums, counts)
    requires Grouped(b, UniqueKeys(b), otherSums, otherCounts)
    requires Pooled(UniqueKeys(a), sums, counts, cuts, edges, values)
    requires Pooled(UniqueKeys(b), otherSums, otherCounts, otherCuts, otherEdges, otherValues)
    ensures edges == otherEdges && values == otherValues
  {
    forall x ensures x in UniqueKeys(a) <==> x in UniqueKeys(b) {
      if i :| 0 <= i < |a| && a[i].p == x {
        assert a[i] in multiset(a) && a[i] in multiset(b);
        assert a[i] in b;
      }
      if i :| 0 <= i < |b| && b[i].p == x {
        assert b[i] in multiset(b) && b[i] in multiset(a);
        assert b[i] in a;
      }
    }
    SameKeys(UniqueKeys(a), UniqueKeys(b));
    var keys := UniqueKeys(a);
    forall j | 0 <= j < |keys| ensures sums[j] == otherSums[j] && counts[j] == otherCounts[j] {
      SumIgnoresOrder(a, b, keys[j]);
    }
    assert sums == otherSums && counts == otherCounts;
    PoolingIsUnique(keys, sums, counts, cuts, edges, values, otherCuts, otherEdges, otherValues);
  }

  // ----- the theorems about the fit -----

  /** Some blocks of the groups stand behind a fit. */
  lemma FitHasBlocks(records: seq<Record>, edges: seq<real>, values: seq<real>)
    returns (sums: seq<real>, counts: seq<real>, cuts: seq<nat>)
    requires IsFit(records, edges, values)
    ensures Grouped(records, UniqueKeys(records), sums, counts)
    ensures Pooled(UniqueKeys(records), sums, counts, cuts, edges, values)
  {
    hide Grouped, Pooled;
    sums, counts :| Grouped(records, UniqueKeys(records), sums, counts)
                    && IsPooling(UniqueKeys(records), sums, counts, edges, values);
    cuts :| Pooled(UniqueKeys(records), sums, counts, cuts, edges, values);
  }

  /** Whatever `fit_isotonic` returns, applied by `apply_isotonic`, beats every map that
      rises on the records, and by at least the squared distance between the two. */
  lemma {:induction false} FitIsLeastSquares(records: seq<Record>, edges: seq<real>, values: seq<real>, g: real -> real)
    requires IsFit(records, edges, values)
    requires forall i, j | 0 <= i < |records| && 0 <= j < |records| && records[i].p <= records[j].p ::
               g(records[i].p) <= g(records[j].p)
    ensures |records| > 0 ==> Applicable(edges, values)
    ensures Loss(records, g)
         >= FitLoss(records, edges, values) + FitDistance(records, edges, values, g)
  {
    hide IsFit, Pooled, Grouped, Loss, FitLoss, FitDistance, UniqueKeys;
    var sums, counts, cuts := FitHasBlocks(records, edges, values);
    PoolingIsLeastSquares(records, sums, counts, cuts, edges, values, g);
  }

  /** Conservation: the fitted predictions add up to the outcomes. */
  lemma {:induction false} PredictionsAddUp(records: seq<Record>, edges: seq<real>, values: seq<real>)
    requires IsFit(records, edges, values)
    ensures |records| > 0 ==> Applicable(edges, values)
    ensures Predictions(records, edges, values) == Outcomes(records)
  {
    hide IsFit, Pooled, Grouped, Predictions, Outcomes, UniqueKeys;
    var sums, counts, cuts := FitHasBlocks(records, edges, values);
    PoolingAddsUp(records, sums, counts, cuts, edges, values);
  }

  /** The fit is determined by the records and does not depend on their order. */
  lemma FitIgnoresOrder(a: seq<Record>, b: seq<Record>, edges: seq<real>, values: seq<real>,
                        otherEdges: seq<real>, otherValues: seq<real>)
    requires multiset(a) == multiset(b)
    requires IsFit(a, edges, values) && IsFit(b, otherEdges, otherValues)
    ensures edges == otherEdges && values == otherValues
  {
    hide IsFit, Pooled, Grouped, UniqueKeys;
    var sums, counts, cuts := FitHasBlocks(a, edges, values);
    var otherSums, otherCounts, otherCuts := FitHasBlocks(b, otherEdges, otherValues);
    PoolingIgnoresOrder(a, b, sums, counts, cuts, edges, values,
                        otherSums, otherCounts, otherCuts, otherEdges, otherValues);
  }

  /** The fitted step map is non-decreasing. */
  lemma FitRises(records: seq<Record>, edges: seq<real>, values: seq<real>, p: real, q: real)
    requires IsFit(records, edges, values) && |records| > 0 && p <= q
    ensures Applicable(edges, values) && Apply(p, edges, values) <= Apply(q, edges, values)
  {
    var sums, counts, cuts := FitHasBlocks(records, edges, values);
    hide IsFit, Grouped;
    KeysCover(records);
    ApplyAtKey(UniqueKeys(records), sums, counts, cuts, edges, values, 0);
    ApplyRises(p, q, edges, values);
  }
}
