/** Isotonic calibration (scripts/calibrate_markets.py): group the records by their
    unique probability, pool adjacent violators, and apply the step map.

    A block list is described by its cut positions in the list of unique keys: block
    `k` covers the keys from cuts[k] up to cuts[k + 1]. */
module Isotonic {
  datatype Record = Record(p: real, y: real)

  // ----- grouping: np.unique and np.add.at -----

  ghost predicate StrictlyRising(s: seq<real>) {
    forall i, j | 0 <= i < j < |s| :: s[i] < s[j]
  }

  function InsertKey(keys: seq<real>, p: real): (r: seq<real>)
    requires StrictlyRising(keys)
    ensures StrictlyRising(r)
    ensures forall x :: x in r <==> x in keys || x == p
  {
    if |keys| == 0 then [p]
    else if p < keys[0] then [p] + keys
    else if p == keys[0] then keys
    else
      var rest := InsertKey(keys[1..], p);
      assert keys == [keys[0]] + keys[1..];
      assert forall k | 0 <= k < |rest| :: rest[k] in rest && keys[0] < rest[k];
      [keys[0]] + rest
  }

  /** The sorted distinct probabilities. */
  function UniqueKeys(records: seq<Record>): (r: seq<real>)
    ensures StrictlyRising(r)
    ensures forall x :: x in r <==> exists i | 0 <= i < |records| :: records[i].p == x
  {
    if |records| == 0 then []
    else
      var last := records[|records| - 1];
      assert forall i | 0 <= i < |records| - 1 :: records[..|records| - 1][i] == records[i];
      InsertKey(UniqueKeys(records[..|records| - 1]), last.p)
  }

  ghost function SumAt(records: seq<Record>, x: real): real {
    if |records| == 0 then 0.0
    else
      var last := records[|records| - 1];
      SumAt(records[..|records| - 1], x) + if last.p == x then last.y else 0.0
  }

  ghost function CountAt(records: seq<Record>, x: real): (c: real)
    ensures c >= 0.0
    ensures (exists i | 0 <= i < |records| :: records[i].p == x) ==> c >= 1.0
  {
    if |records| == 0 then 0.0
    else
      var last := records[|records| - 1];
      assert forall i | 0 <= i < |records| - 1 :: records[..|records| - 1][i] == records[i];
      CountAt(records[..|records| - 1], x) + if last.p == x then 1.0 else 0.0
  }

  /** The position of a probability among the keys: `return_inverse`. */
  function KeyIndex(keys: seq<real>, p: real): (j: nat)
    requires p in keys
    ensures j < |keys| && keys[j] == p
  {
    if keys[0] == p then 0
    else
      assert p in keys[1..];
      KeyIndex(keys[1..], p) + 1
  }

  ghost predicate Grouped(records: seq<Record>, keys: seq<real>, sums: seq<real>, counts: seq<real>) {
    && |sums| == |counts| == |keys|
    && forall j | 0 <= j < |keys| ::
         sums[j] == SumAt(records, keys[j]) && counts[j] == CountAt(records, keys[j])
  }

  lemma OneMoreRecord(records: seq<Record>, last: Record, keys: seq<real>, sums: seq<real>, counts: seq<real>, j: nat)
    requires Grouped(records, keys, sums, counts) && StrictlyRising(keys)
    requires j < |keys| && keys[j] == last.p
    ensures Grouped(records + [last], keys, sums[j := sums[j] + last.y], counts[j := counts[j] + 1.0])
  {
    assert (records + [last])[..|records|] == records;
  }

  method GroupRecords(records: seq<Record>) returns (keys: seq<real>, sums: seq<real>, counts: seq<real>)
    ensures keys == UniqueKeys(records)
    ensures Grouped(records, keys, sums, counts)
    ensures forall j | 0 <= j < |counts| :: counts[j] >= 1.0
  {
    hide UniqueKeys, KeyIndex;
    keys := UniqueKeys(records);
    sums := seq(|keys|, _ => 0.0);
    counts := seq(|keys|, _ => 0.0);
    var i := 0;
    while i < |records|
      invariant 0 <= i <= |records|
      invariant Grouped(records[..i], keys, sums, counts)
    {
      var j := KeyIndex(keys, records[i].p);
      assert records[..i + 1] == records[..i] + [records[i]];
      OneMoreRecord(records[..i], records[i], keys, sums, counts, j);
      sums := sums[j := sums[j] + records[i].y];
      counts := counts[j := counts[j] + 1.0];
      i := i + 1;
    }
    assert records[..i] == records;
    forall j | 0 <= j < |counts| ensures counts[j] >= 1.0 {
      assert keys[j] in keys;
    }
  }

  // ----- blocks -----

  /** The sum of the first `n` values. */
  ghost function Pre(s: seq<real>, n: nat): real
    requires n <= |s|
  {
    if n == 0 then 0.0 else Pre(s, n - 1) + s[n - 1]
  }

  ghost function Span(s: seq<real>, a: nat, b: nat): real
    requires a <= b <= |s|
  {
    Pre(s, b) - Pre(s, a)
  }

  ghost predicate Positive(s: seq<real>) {
    forall j | 0 <= j < |s| :: s[j] > 0.0
  }

  lemma {:induction false} SpanPositive(s: seq<real>, a: nat, b: nat)
    requires a < b <= |s|
    requires Positive(s)
    ensures Span(s, a, b) > 0.0
  {
    if a < b - 1 {
      SpanPositive(s, a, b - 1);
    }
  }

  /** Every proper start of the block [a, b) lies above the level `m`. */
  ghost predicate StartsAbove(sums: seq<real>, counts: seq<real>, a: nat, b: nat, m: real)
    requires a <= b <= |sums| == |counts|
  {
    forall j | a < j < b :: Span(sums, a, j) > m * Span(counts, a, j)
  }

  ghost predicate Cuts(cuts: seq<nat>, n: nat) {
    && |cuts| > 0 && cuts[0] == 0 && cuts[|cuts| - 1] == n
    && forall i, j | 0 <= i < j < |cuts| :: cuts[i] < cuts[j]
  }

  /** The source's three parallel lists, as blocks of the groups. */
  ghost predicate Blocks(keys: seq<real>, sums: seq<real>, counts: seq<real>, cuts: seq<nat>,
                         vals: seq<real>, cnts: seq<real>, starts: seq<real>) {
    && |sums| == |counts| == |keys| && Positive(counts)
    && Cuts(cuts, |keys|)
    && |vals| == |cnts| == |starts| == |cuts| - 1
    && forall k | 0 <= k < |vals| :: BlockAt(keys, sums, counts, cuts, vals[k], cnts[k], starts[k], k)
  }

  /** Block `k` conserves the sum and the count of its groups. */
  ghost predicate BlockAt(keys: seq<real>, sums: seq<real>, counts: seq<real>, cuts: seq<nat>,
                          val: real, cnt: real, start: real, k: nat)
    requires |sums| == |counts| == |keys| && Cuts(cuts, |keys|) && k < |cuts| - 1
  {
    var a, b := cuts[k], cuts[k + 1];
    && val == Span(sums, a, b) && cnt == Span(counts, a, b) && cnt > 0.0
    && start == keys[a]
    && StartsAbove(sums, counts, a, b, val / cnt)
  }

  // ----- the pooling step -----

  lemma MulLess(x: real, y: real, w: real)
    requires x < y && w > 0.0
    ensures x * w < y * w
  {
  }

  lemma PositiveFactor(x: real, w: real, y: real, z: real)
    requires x * w == y * z && w > 0.0 && y > 0.0 && z > 0.0
    ensures x > 0.0
  {
    MulLess(0.0, y, z);
    if x < 0.0 { MulLess(x, 0.0, w); }
  }

  /** The pooled mean lies strictly between the two means it pools. */
  lemma PooledMean(v1: real, c1: real, v2: real, c2: real)
    requires c1 > 0.0 && c2 > 0.0
    requires v1 / c1 > v2 / c2
    ensures v2 / c2 < (v1 + v2) / (c1 + c2) < v1 / c1
  {
    var m1, m2 := v1 / c1, v2 / c2;
    var m := (v1 + v2) / (c1 + c2);
    assert m * (c1 + c2) == v1 + v2;
    assert v1 == m1 * c1 && v2 == m2 * c2;
    assert (m - m2) * (c1 + c2) == (m1 - m2) * c1;
    assert (m1 - m) * (c1 + c2) == (m1 - m2) * c2;
    PositiveFactor(m - m2, c1 + c2, m1 - m2, c1);
    PositiveFactor(m1 - m, c1 + c2, m1 - m2, c2);
  }

  /** Pooling a violating pair keeps every proper start above the new mean. */
  lemma SpanSplit(s: seq<real>, a: nat, b: nat, c: nat)
    requires a <= b <= c <= |s|
    ensures Span(s, a, c) == Span(s, a, b) + Span(s, b, c)
  {
  }

  lemma PooledStartsAbove(sums: seq<real>, counts: seq<real>, a: nat, b: nat, c: nat)
    requires a < b < c <= |sums| == |counts|
    requires Positive(counts)
    requires Span(counts, a, b) > 0.0 && Span(counts, b, c) > 0.0 && Span(counts, a, c) > 0.0
    requires Span(sums, a, b) / Span(counts, a, b) > Span(sums, b, c) / Span(counts, b, c)
    requires StartsAbove(sums, counts, a, b, Span(sums, a, b) / Span(counts, a, b))
    requires StartsAbove(sums, counts, b, c, Span(sums, b, c) / Span(counts, b, c))
    ensures StartsAbove(sums, counts, a, c, Span(sums, a, c) / Span(counts, a, c))
  {
    hide Span, Positive, Pre;
    SpanSplit(sums, a, b, c);
    SpanSplit(counts, a, b, c);
    var m1 := Span(sums, a, b) / Span(counts, a, b);
    var m2 := Span(sums, b, c) / Span(counts, b, c);
    var m := Span(sums, a, c) / Span(counts, a, c);
    PooledMean(Span(sums, a, b), Span(counts, a, b), Span(sums, b, c), Span(counts, b, c));
    assert m2 < m < m1;
    forall j | a < j < c ensures Span(sums, a, j) > m * Span(counts, a, j) {
      SpanPositive(counts, a, j);
      if j <= b {
        PrefixAbove(Span(sums, a, j), Span(counts, a, j), m, m1,
                    j == b, Span(sums, a, b), Span(counts, a, b));
      } else {
        SpanPositive(counts, j, c);
        SuffixBelow(sums, counts, a, b, c, j, m, m2);
      }
    }
  }

  /** A start of the first block, or the whole of it. */
  lemma PrefixAbove(s: real, c: real, m: real, m1: real, whole: bool, blockSum: real, blockCount: real)
    requires c > 0.0 && m < m1 && blockCount > 0.0
    requires m1 == blockSum / blockCount
    requires if whole then s == blockSum && c == blockCount else s > m1 * c
    ensures s > m * c
  {
    MulLess(m, m1, c);
    assert whole ==> s == m1 * c;
  }

  lemma SuffixBelow(sums: seq<real>, counts: seq<real>, a: nat, b: nat, c: nat, j: nat, m: real, m2: real)
    requires a < b < j < c <= |sums| == |counts|
    requires Span(counts, b, c) > 0.0 && Span(counts, a, c) > 0.0 && Span(counts, j, c) > 0.0
    requires m == Span(sums, a, c) / Span(counts, a, c)
    requires m2 == Span(sums, b, c) / Span(counts, b, c)
    requires m2 < m
    requires Span(sums, b, j) > m2 * Span(counts, b, j)
    ensures Span(sums, a, j) > m * Span(counts, a, j)
  {
    assert Span(sums, b, c) == m2 * Span(counts, b, c);
    assert Span(sums, a, c) == m * Span(counts, a, c);
    MulLess(m2, m, Span(counts, j, c));
    assert m2 * Span(counts, b, c) == m2 * Span(counts, b, j) + m2 * Span(counts, j, c);
    assert Span(sums, j, c) < m * Span(counts, j, c);
    assert m * Span(counts, a, c) == m * Span(counts, a, j) + m * Span(counts, j, c);
  }

  ghost predicate RisingUpTo(vals: seq<real>, cnts: seq<real>, i: nat)
    requires |vals| == |cnts| && Positive(cnts)
  {
    forall k | 0 <= k < i && k + 1 < |vals| :: vals[k] / cnts[k] <= vals[k + 1] / cnts[k + 1]
  }

  /** `s[i] += s[i + 1]; del s[i + 1]`. */
  function MergeAt(s: seq<real>, i: nat): (r: seq<real>)
    requires i + 1 < |s|
  {
    s[..i] + [s[i] + s[i + 1]] + s[i + 2..]
  }

  function DropAt<T>(s: seq<T>, i: nat): seq<T>
    requires i < |s|
  {
    s[..i] + s[i + 1..]
  }

  lemma DropKeepsCuts(cuts: seq<nat>, n: nat, k: nat)
    requires Cuts(cuts, n) && 0 < k < |cuts| - 1
    ensures Cuts(DropAt(cuts, k), n)
  {
  }

  lemma MergeKeepsBlocks(keys: seq<real>, sums: seq<real>, counts: seq<real>, cuts: seq<nat>,
                         vals: seq<real>, cnts: seq<real>, starts: seq<real>, i: nat)
    requires Blocks(keys, sums, counts, cuts, vals, cnts, starts)
    requires i + 1 < |vals|
    requires cnts[i] > 0.0 && cnts[i + 1] > 0.0
    requires vals[i] / cnts[i] > vals[i + 1] / cnts[i + 1]
    ensures Blocks(keys, sums, counts, DropAt(cuts, i + 1), MergeAt(vals, i), MergeAt(cnts, i),
                   DropAt(starts, i + 1))
  {
    hide BlockAt;
    var merged := DropAt(cuts, i + 1);
    DropKeepsCuts(cuts, |keys|, i + 1);
    forall k | 0 <= k < |vals| - 1
      ensures BlockAt(keys, sums, counts, merged, MergeAt(vals, i)[k], MergeAt(cnts, i)[k],
                      DropAt(starts, i + 1)[k], k)
    {
      if k == i {
        MergedBlock(keys, sums, counts, cuts, vals, cnts, starts, i);
      } else {
        KeptBlock(keys, sums, counts, cuts, vals, cnts, starts, i, k);
      }
    }
  }

  lemma KeptBlock(keys: seq<real>, sums: seq<real>, counts: seq<real>, cuts: seq<nat>,
                  vals: seq<real>, cnts: seq<real>, starts: seq<real>, i: nat, k: nat)
    requires Blocks(keys, sums, counts, cuts, vals, cnts, starts)
    requires i + 1 < |vals| && k < |vals| - 1 && k != i
    requires Cuts(DropAt(cuts, i + 1), |keys|)
    ensures BlockAt(keys, sums, counts, DropAt(cuts, i + 1), MergeAt(vals, i)[k], MergeAt(cnts, i)[k],
                    DropAt(starts, i + 1)[k], k)
  {
    hide StartsAbove, Span;
    var j := if k < i then k else k + 1;
    assert BlockAt(keys, sums, counts, cuts, vals[j], cnts[j], starts[j], j);
    assert DropAt(cuts, i + 1)[k] == cuts[j] && DropAt(cuts, i + 1)[k + 1] == cuts[j + 1];
    assert MergeAt(vals, i)[k] == vals[j] && MergeAt(cnts, i)[k] == cnts[j];
  }

  lemma MergedBlock(keys: seq<real>, sums: seq<real>, counts: seq<real>, cuts: seq<nat>,
                    vals: seq<real>, cnts: seq<real>, starts: seq<real>, i: nat)
    requires Blocks(keys, sums, counts, cuts, vals, cnts, starts)
    requires i + 1 < |vals|
    requires cnts[i] > 0.0 && cnts[i + 1] > 0.0
    requires vals[i] / cnts[i] > vals[i + 1] / cnts[i + 1]
    requires Cuts(DropAt(cuts, i + 1), |keys|)
    ensures BlockAt(keys, sums, counts, DropAt(cuts, i + 1), vals[i] + vals[i + 1], cnts[i] + cnts[i + 1],
                    starts[i], i)
  {
    assert BlockAt(keys, sums, counts, cuts, vals[i], cnts[i], starts[i], i);
    assert BlockAt(keys, sums, counts, cuts, vals[i + 1], cnts[i + 1], starts[i + 1], i + 1);
    var a, b, c := cuts[i], cuts[i + 1], cuts[i + 2];
    SpanPositive(counts, a, c);
    PooledStartsAbove(sums, counts, a, b, c);
    hide StartsAbove;
  }

  /** The result of the fit: contiguous blocks of the groups, each with its mean as
      value and its first key as edge, the values rising, and inside every block every
      proper start above the block's mean. */
  ghost predicate Pooled(keys: seq<real>, sums: seq<real>, counts: seq<real>, cuts: seq<nat>,
                         edges: seq<real>, values: seq<real>) {
    && |sums| == |counts| == |keys| && Positive(counts) && StrictlyRising(keys)
    && Cuts(cuts, |keys|)
    && |edges| == |values| == |cuts| - 1
    && (forall k | 0 <= k < |values| - 1 :: values[k] <= values[k + 1])
    && forall k | 0 <= k < |values| :: PooledBlock(keys, sums, counts, cuts, edges[k], values[k], k)
  }

  ghost predicate PooledBlock(keys: seq<real>, sums: seq<real>, counts: seq<real>, cuts: seq<nat>,
                              edge: real, value: real, k: nat)
    requires |sums| == |counts| == |keys| && Cuts(cuts, |keys|) && k < |cuts| - 1
  {
    var a, b := cuts[k], cuts[k + 1];
    edge == keys[a] && value * Span(counts, a, b) == Span(sums, a, b)
    && StartsAbove(sums, counts, a, b, value)
  }

  /** The edges and values are those of some blocks of the groups. */
  ghost predicate IsPooling(keys: seq<real>, sums: seq<real>, counts: seq<real>,
                            edges: seq<real>, values: seq<real>) {
    exists cuts: seq<nat> :: Pooled(keys, sums, counts, cuts, edges, values)
  }

  /** The edges and values are a pooling of the records' groups. */
  ghost predicate IsFit(records: seq<Record>, edges: seq<real>, values: seq<real>) {
    exists sums: seq<real>, counts: seq<real> ::
      Grouped(records, UniqueKeys(records), sums, counts)
      && IsPooling(UniqueKeys(records), sums, counts, edges, values)
  }

  lemma BlocksShape(keys: seq<real>, sums: seq<real>, counts: seq<real>, cuts: seq<nat>,
                    vals: seq<real>, cnts: seq<real>, starts: seq<real>)
    requires Blocks(keys, sums, counts, cuts, vals, cnts, starts)
    ensures |vals| == |cnts| == |starts| == |cuts| - 1
    ensures Positive(cnts)
  {
    forall k | 0 <= k < |cnts| ensures cnts[k] > 0.0 {
      assert BlockAt(keys, sums, counts, cuts, vals[k], cnts[k], starts[k], k);
    }
  }

  lemma SingletonBlocks(keys: seq<real>, sums: seq<real>, counts: seq<real>, cuts: seq<nat>)
    requires |sums| == |counts| == |keys| && Positive(counts)
    requires cuts == seq(|keys| + 1, k => k)
    ensures Blocks(keys, sums, counts, cuts, sums, counts, keys)
  {
    forall k | 0 <= k < |keys|
      ensures BlockAt(keys, sums, counts, cuts, sums[k], counts[k], keys[k], k)
    {
      assert cuts[k] == k && cuts[k + 1] == k + 1;
    }
  }

  lemma MergeKeepsRising(vals: seq<real>, cnts: seq<real>, i: nat)
    requires |vals| == |cnts| && Positive(cnts) && i + 1 < |vals|
    requires RisingUpTo(vals, cnts, i)
    requires Positive(MergeAt(cnts, i))
    ensures RisingUpTo(MergeAt(vals, i), MergeAt(cnts, i), if i > 0 then i - 1 else 0)
  {
  }

  lemma FinishedBlocks(keys: seq<real>, sums: seq<real>, counts: seq<real>, cuts: seq<nat>,
                       vals: seq<real>, cnts: seq<real>, starts: seq<real>, values: seq<real>)
    requires Blocks(keys, sums, counts, cuts, vals, cnts, starts) && StrictlyRising(keys)
    requires Positive(cnts) && RisingUpTo(vals, cnts, |vals|)
    requires |values| == |vals|
    requires forall k | 0 <= k < |vals| :: values[k] == vals[k] / cnts[k]
    ensures Pooled(keys, sums, counts, cuts, starts, values)
  {
    forall k | 0 <= k < |values| ensures PooledBlock(keys, sums, counts, cuts, starts[k], values[k], k) {
      assert BlockAt(keys, sums, counts, cuts, vals[k], cnts[k], starts[k], k);
    }
  }

  method PoolAdjacent(keys: seq<real>, sums: seq<real>, counts: seq<real>)
    returns (edges: seq<real>, values: seq<real>)
    requires |sums| == |counts| == |keys| && Positive(counts) && StrictlyRising(keys)
    ensures IsPooling(keys, sums, counts, edges, values)
  {
    hide Blocks, Pooled, StrictlyRising;
    var vals, cnts, starts := sums, counts, keys;
    ghost var cuts: seq<nat> := seq(|keys| + 1, k => k);
    SingletonBlocks(keys, sums, counts, cuts);
    var i := 0;
    while i < |vals| - 1
      invariant Blocks(keys, sums, counts, cuts, vals, cnts, starts)
      invariant |vals| == |cnts| == |starts| == |cuts| - 1
      invariant Positive(cnts)
      invariant i == 0 || i < |vals|
      invariant RisingUpTo(vals, cnts, i)
      decreases 2 * |vals| - i
    {
      if vals[i] / cnts[i] > vals[i + 1] / cnts[i + 1] {
        MergeKeepsBlocks(keys, sums, counts, cuts, vals, cnts, starts, i);
        cuts := DropAt(cuts, i + 1);
        starts := DropAt(starts, i + 1);
        BlocksShape(keys, sums, counts, cuts, MergeAt(vals, i), MergeAt(cnts, i), starts);
        MergeKeepsRising(vals, cnts, i);
        vals := MergeAt(vals, i);
        cnts := MergeAt(cnts, i);
        if i > 0 {
          i := i - 1;
        }
      } else {
        i := i + 1;
      }
    }
    edges := starts;
    values := seq(|vals|, k requires 0 <= k < |vals| => vals[k] / cnts[k]);
    FinishedBlocks(keys, sums, counts, cuts, vals, cnts, starts, values);
  }

  /** `fit_isotonic`. */
  method FitIsotonic(records: seq<Record>) returns (edges: seq<real>, values: seq<real>)
    ensures IsFit(records, edges, values)
  {
    var keys, sums, counts := GroupRecords(records);
    edges, values := PoolAdjacent(keys, sums, counts);
  }
}
