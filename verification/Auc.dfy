/** `auc` (scripts/market_skill.py): the rank-sum formula with averaged tie ranks equals
    the share of positive/negative pairs that the prediction orders correctly, a tie
    counting one half. */
module Auc {
  import opened Helpers

  // ----- pair counting -----

  /** What one comparison is worth: 1 below, 1/2 level, 0 above. */
  ghost function Beats(v: real, w: real): real {
    if w < v then 1.0 else if w == v then 0.5 else 0.0
  }

  /** The value of `v` against every element of `s`. */
  ghost function Score(s: seq<real>, v: real): real {
    if |s| == 0 then 0.0 else Score(s[..|s| - 1], v) + Beats(v, s[|s| - 1])
  }

  /** Pairs won by `a` over `b`, ties at one half. */
  ghost function PairsWon(a: seq<real>, b: seq<real>): real {
    if |a| == 0 then 0.0 else PairsWon(a[..|a| - 1], b) + Score(b, a[|a| - 1])
  }

  lemma {:induction false} ScoreConcat(s: seq<real>, t: seq<real>, v: real)
    ensures Score(s + t, v) == Score(s, v) + Score(t, v)
  {
    if |t| == 0 {
      assert s + t == s;
    } else {
      ScoreConcat(s, t[..|t| - 1], v);
      assert (s + t)[..|s + t| - 1] == s + t[..|t| - 1];
    }
  }

  /** Adding one opponent. */
  lemma {:induction false} PairsWonAppend(a: seq<real>, b: seq<real>, w: real)
    ensures PairsWon(a, b + [w]) == PairsWon(a, b) + |a| as real - Score(a, w)
  {
    if |a| > 0 {
      PairsWonAppend(a[..|a| - 1], b, w);
      assert (b + [w])[..|b|] == b;
    }
  }

  /** Every pair is won by one side or shared. */
  lemma {:induction false} PairsShared(a: seq<real>, b: seq<real>)
    ensures PairsWon(a, b) + PairsWon(b, a) == (|a| * |b|) as real
  {
    if |b| == 0 {
      NothingWon(a);
    } else {
      var front, w := b[..|b| - 1], b[|b| - 1];
      PairsShared(a, front);
      PairsWonAppend(a, front, w);
      assert b == front + [w];
      assert |a| * |b| == |a| * |front| + |a|;
    }
  }

  lemma {:induction false} NothingWon(a: seq<real>)
    ensures PairsWon(a, []) == 0.0
  {
    if |a| > 0 {
      NothingWon(a[..|a| - 1]);
    }
  }

  /** The pairs that the one side wins, and those it ties. */
  ghost function Wins(a: seq<real>, b: seq<real>): set<(nat, nat)> {
    set i: nat, j: nat | i < |a| && j < |b| && a[i] > b[j] :: (i, j)
  }

  ghost function Ties(a: seq<real>, b: seq<real>): set<(nat, nat)> {
    set i: nat, j: nat | i < |a| && j < |b| && a[i] == b[j] :: (i, j)
  }

  ghost function Won(v: real, b: seq<real>, i: nat): set<(nat, nat)> {
    set j: nat | j < |b| && v > b[j] :: (i, j)
  }

  ghost function Tied(v: real, b: seq<real>, i: nat): set<(nat, nat)> {
    set j: nat | j < |b| && v == b[j] :: (i, j)
  }

  lemma WonHas(v: real, b: seq<real>, i: nat, p: (nat, nat))
    ensures p in Won(v, b, i) <==> p.0 == i && p.1 < |b| && v > b[p.1]
    ensures p in Tied(v, b, i) <==> p.0 == i && p.1 < |b| && v == b[p.1]
  {
  }

  lemma OneMorePair(s: set<(nat, nat)>, t: set<(nat, nat)>, p: (nat, nat), more: bool)
    requires p !in s && forall q :: q in t <==> q in s || (more && q == p)
    ensures |t| == |s| + if more then 1 else 0
  {
    if more {
      assert t == s + {p};
    } else {
      assert t == s;
    }
  }

  /** One more opponent: one more pair won, or one more level, or neither. */
  lemma OneMoreOpponent(v: real, b: seq<real>, w: real, i: nat)
    ensures |Won(v, b + [w], i)| == |Won(v, b, i)| + if v > w then 1 else 0
    ensures |Tied(v, b + [w], i)| == |Tied(v, b, i)| + if v == w then 1 else 0
  {
    hide Won, Tied;
    var p: (nat, nat) := (i, |b|);
    forall q: (nat, nat)
      ensures q in Won(v, b + [w], i) <==> q in Won(v, b, i) || (v > w && q == p)
      ensures q in Tied(v, b + [w], i) <==> q in Tied(v, b, i) || (v == w && q == p)
    {
      WonHas(v, b, i, q);
      WonHas(v, b + [w], i, q);
    }
    WonHas(v, b, i, p);
    OneMorePair(Won(v, b, i), Won(v, b + [w], i), p, v > w);
    OneMorePair(Tied(v, b, i), Tied(v, b + [w], i), p, v == w);
  }

  lemma {:induction false} ScoreCounts(b: seq<real>, v: real, i: nat)
    ensures Score(b, v) == |Won(v, b, i)| as real + |Tied(v, b, i)| as real / 2.0
  {
    if |b| == 0 {
      assert Won(v, b, i) == {} && Tied(v, b, i) == {};
    } else {
      hide Won, Tied;
      var front, w := b[..|b| - 1], b[|b| - 1];
      assert b == front + [w];
      ScoreCounts(front, v, i);
      OneMoreOpponent(v, front, w, i);
    }
  }

  lemma WinsSplit(a: seq<real>, b: seq<real>)
    requires |a| > 0
    ensures |Wins(a, b)| == |Wins(a[..|a| - 1], b)| + |Won(a[|a| - 1], b, |a| - 1)|
  {
    var front, last := a[..|a| - 1], |a| - 1;
    var before, mine := Wins(front, b), Won(a[last], b, last);
    forall p: (nat, nat) ensures p in Wins(a, b) <==> p in before || p in mine {
    }
    assert Wins(a, b) == before + mine;
    assert before !! mine;
  }

  lemma TiesSplit(a: seq<real>, b: seq<real>)
    requires |a| > 0
    ensures |Ties(a, b)| == |Ties(a[..|a| - 1], b)| + |Tied(a[|a| - 1], b, |a| - 1)|
  {
    var front, last := a[..|a| - 1], |a| - 1;
    var before, mine := Ties(front, b), Tied(a[last], b, last);
    forall p: (nat, nat) ensures p in Ties(a, b) <==> p in before || p in mine {
    }
    assert Ties(a, b) == before + mine;
    assert before !! mine;
  }

  /** The pairs won are the pairs ordered correctly plus half of those level. */
  lemma {:induction false} PairsWonCounts(a: seq<real>, b: seq<real>)
    ensures PairsWon(a, b) == |Wins(a, b)| as real + |Ties(a, b)| as real / 2.0
  {
    hide Wins, Ties, Won, Tied, Score;
    if |a| == 0 {
      NoPairs(a, b);
    } else {
      var last := |a| - 1;
      PairsWonCounts(a[..last], b);
      ScoreCounts(b, a[last], last);
      WinsSplit(a, b);
      TiesSplit(a, b);
    }
  }

  lemma NoPairs(a: seq<real>, b: seq<real>)
    requires |a| == 0
    ensures Wins(a, b) == {} && Ties(a, b) == {}
  {
  }

  // ----- the sort -----

  ghost predicate Permutes(order: seq<nat>, n: nat) {
    && |order| == n
    && (forall k | 0 <= k < n :: order[k] < n)
    && (forall i, j | 0 <= i < j < n :: order[i] != order[j])
    && forall x: nat | x < n :: x in order
  }

  /** Any answer `np.argsort` may give: ties in any order. */
  ghost predicate IsArgsort(order: seq<nat>, s: seq<real>) {
    && Permutes(order, |s|)
    && forall i, j | 0 <= i < j < |s| :: s[order[i]] <= s[order[j]]
  }

  /** Equal values keep the order of the list, as a merge sort leaves them. */
  ghost predicate KeepsTies(order: seq<nat>, s: seq<real>)
    requires forall k | 0 <= k < |order| :: order[k] < |s|
  {
    forall i, j | 0 <= i < j < |order| && s[order[i]] == s[order[j]] :: order[i] < order[j]
  }

  function Pick(s: seq<real>, order: seq<nat>): (r: seq<real>)
    requires forall k | 0 <= k < |order| :: order[k] < |s|
    ensures |r| == |order|
    ensures forall k | 0 <= k < |order| :: r[k] == s[order[k]]
  {
    seq(|order|, k requires 0 <= k < |order| => s[order[k]])
  }

  /** Insertion of the last position after its equals: a stable argsort. */
  function Argsort(s: seq<real>): (order: seq<nat>)
    ensures forall k | 0 <= k < |order| :: order[k] < |s|
  {
    if |s| == 0 then []
    else
      var front := Argsort(s[..|s| - 1]);
      var at := Place(s, front, s[|s| - 1]);
      front[..at] + [|s| - 1] + front[at..]
  }

  /** Where `v` goes among the sorted earlier values: after its equals. */
  function Place(s: seq<real>, order: seq<nat>, v: real): (at: nat)
    requires forall k | 0 <= k < |order| :: order[k] < |s|
    ensures at <= |order|
    ensures at > 0 ==> s[order[at - 1]] <= v
    ensures forall k | at <= k < |order| :: v < s[order[k]]
  {
    if |order| == 0 then 0
    else if s[order[|order| - 1]] <= v then |order|
    else Place(s, order[..|order| - 1], v)
  }

  lemma InsertKeepsPermutation(front: seq<nat>, n: nat, at: nat)
    requires Permutes(front, n) && at <= n
    ensures Permutes(front[..at] + [n] + front[at..], n + 1)
  {
    var order := front[..at] + [n] + front[at..];
    forall x: nat | x < n + 1 ensures x in order {
      if x == n {
        assert order[at] == n;
      } else {
        assert x in front;
        assert front == front[..at] + front[at..];
      }
    }
  }

  lemma NoTies(s: seq<real>)
    ensures KeepsTies([], s)
  {
  }

  lemma EmptySorts(s: seq<real>)
    requires |s| == 0
    ensures IsArgsort([], s)
  {
  }

  lemma InsertSorts(s: seq<real>, front: seq<nat>, at: nat, n: nat)
    requires |s| == n + 1 && IsArgsort(front, s[..n]) && at <= |front|
    requires at > 0 ==> front[at - 1] < n && s[front[at - 1]] <= s[n]
    requires forall k | at <= k < |front| :: front[k] < n && s[n] < s[front[k]]
    ensures IsArgsort(front[..at] + [n] + front[at..], s)
  {
    hide Place, Score, Argsort;
    assert forall k | 0 <= k < n :: s[..n][front[k]] == s[front[k]];
    InsertKeepsPermutation(front, n, at);
    InsertKeepsOrder(s, front, at, n);
  }

  lemma InsertKeepsTies(s: seq<real>, front: seq<nat>, at: nat, n: nat)
    requires |s| == n + 1 && at <= |front| && forall k | 0 <= k < |front| :: front[k] < n
    requires KeepsTies(front, s[..n])
    requires forall k | at <= k < |front| :: s[n] < s[front[k]]
    ensures forall k | 0 <= k < |front[..at] + [n] + front[at..]| :: (front[..at] + [n] + front[at..])[k] < |s|
    ensures KeepsTies(front[..at] + [n] + front[at..], s)
  {
    var order := front[..at] + [n] + front[at..];
    forall i, j | 0 <= i < j < |order| && s[order[i]] == s[order[j]] ensures order[i] < order[j] {
      if i != at && j != at {
        var a, b := if i < at then i else i - 1, if j < at then j else j - 1;
        assert order[i] == front[a] && order[j] == front[b];
        assert s[..n][front[a]] == s[..n][front[b]];
      }
    }
  }

  /** An argsort exists for every list, and this one is stable. */
  lemma {:induction false} ArgsortSorts(s: seq<real>)
    ensures IsArgsort(Argsort(s), s) && KeepsTies(Argsort(s), s)
  {
    hide Place, IsArgsort, KeepsTies;
    if |s| > 0 {
      var n := |s| - 1;
      ArgsortSorts(s[..n]);
      InsertSorts(s, Argsort(s[..n]), Place(s, Argsort(s[..n]), s[n]), n);
      InsertKeepsTies(s, Argsort(s[..n]), Place(s, Argsort(s[..n]), s[n]), n);
    } else {
      NoTies(s);
      EmptySorts(s);
    }
  }

  lemma InsertKeepsOrder(s: seq<real>, front: seq<nat>, at: nat, n: nat)
    requires n < |s| && at <= |front| == n
    requires forall k | 0 <= k < n :: front[k] < n
    requires forall i, j | 0 <= i < j < n :: s[front[i]] <= s[front[j]]
    requires at > 0 ==> s[front[at - 1]] <= s[n]
    requires forall k | at <= k < n :: s[n] < s[front[k]]
    ensures var order := front[..at] + [n] + front[at..];
            forall i, j | 0 <= i < j <= n :: s[order[i]] <= s[order[j]]
  {
    var order := front[..at] + [n] + front[at..];
    assert forall k | 0 <= k < at :: s[front[k]] <= s[n];
    assert forall k | 0 <= k < at :: order[k] == front[k];
    assert forall k | at < k <= n :: order[k] == front[k - 1];
  }

  // ----- scores do not depend on the order -----

  lemma {:induction false} ScorePullOut(s: seq<real>, j: nat, v: real)
    requires j < |s|
    ensures Score(s, v) == Score(s[..j] + s[j + 1..], v) + Beats(v, s[j])
  {
    var rest := s[..j] + s[j + 1..];
    if j == |s| - 1 {
      assert rest == s[..|s| - 1];
    } else {
      var front := s[..|s| - 1];
      ScorePullOut(front, j, v);
      assert front[..j] + front[j + 1..] == rest[..|rest| - 1];
      assert rest[|rest| - 1] == s[|s| - 1];
    }
  }

  lemma RemoveKeepsPermutation(order: seq<nat>, n: nat, j: nat)
    requires Permutes(order, n + 1) && j <= n && order[j] == n
    ensures Permutes(order[..j] + order[j + 1..], n)
  {
    var rest := order[..j] + order[j + 1..];
    forall k | 0 <= k < n ensures rest[k] < n {
      assert rest[k] == order[if k < j then k else k + 1];
    }
    forall x: nat | x < n ensures x in rest {
      assert x in order;
      assert order == order[..j] + [n] + order[j + 1..];
    }
  }

  lemma {:induction false} ScoreLast(s: seq<real>, v: real)
    requires |s| > 0
    ensures Score(s, v) == Score(s[..|s| - 1], v) + Beats(v, s[|s| - 1])
  {
  }

  lemma PickWithout(s: seq<real>, order: seq<nat>, j: nat)
    requires |order| == |s| && j < |order| && order[j] == |s| - 1
    requires forall k | 0 <= k < |order| :: order[k] < |s|
    requires forall k | 0 <= k < |order| && k != j :: order[k] < |s| - 1
    ensures var n := |s| - 1; var rest := order[..j] + order[j + 1..]; var p := Pick(s, order);
            && (forall k | 0 <= k < |rest| :: rest[k] < n)
            && Pick(s[..n], rest) == p[..j] + p[j + 1..]
            && p[j] == s[n]
  {
    var rest := order[..j] + order[j + 1..];
    assert forall k | 0 <= k < |rest| :: rest[k] == order[if k < j then k else k + 1];
  }

  /** Reading a list in a permuted order keeps its scores. */
  lemma {:induction false} PickKeepsScore(s: seq<real>, order: seq<nat>, v: real)
    requires Permutes(order, |s|)
    ensures Score(Pick(s, order), v) == Score(s, v)
  {
    hide Score, Pick;
    if |s| == 0 {
      assert Pick(s, order) == s;
    } else {
      var n := |s| - 1;
      assert n in order;
      var j :| 0 <= j < |order| && order[j] == n;
      PickWithout(s, order, j);
      RemoveKeepsPermutation(order, n, j);
      PickKeepsScore(s[..n], order[..j] + order[j + 1..], v);
      ScorePullOut(Pick(s, order), j, v);
      ScoreLast(s, v);
    }
  }

  // ----- the average rank of a tie block -----

  lemma {:induction false} ScoreBelow(s: seq<real>, v: real)
    requires forall k | 0 <= k < |s| :: s[k] < v
    ensures Score(s, v) == |s| as real
  {
    if |s| > 0 { ScoreBelow(s[..|s| - 1], v); }
  }

  lemma {:induction false} ScoreLevel(s: seq<real>, v: real)
    requires forall k | 0 <= k < |s| :: s[k] == v
    ensures Score(s, v) == |s| as real / 2.0
  {
    if |s| > 0 { ScoreLevel(s[..|s| - 1], v); }
  }

  lemma {:induction false} ScoreAbove(s: seq<real>, v: real)
    requires forall k | 0 <= k < |s| :: v < s[k]
    ensures Score(s, v) == 0.0
  {
    if |s| > 0 { ScoreAbove(s[..|s| - 1], v); }
  }

  lemma {:induction false} BlockScore(s: seq<real>, i: nat, j: nat, v: real)
    requires i <= j < |s|
    requires forall k | 0 <= k < i :: s[k] < v
    requires forall k | i <= k <= j :: s[k] == v
    requires forall k | j < k < |s| :: v < s[k]
    ensures Score(s, v) == i as real + (j + 1 - i) as real / 2.0
  {
    hide Score;
    var low, mid, top := s[..i], s[i..j + 1], s[j + 1..];
    assert s == low + (mid + top);
    ScoreConcat(low, mid + top, v);
    ScoreConcat(mid, top, v);
    ScoreBelow(low, v);
    ScoreLevel(mid, v);
    ScoreAbove(top, v);
  }

  /** The averaged rank of the block i..j is the block value's score, plus one half. */
  lemma {:induction false} TieRank(all: seq<real>, order: seq<nat>, i: nat, j: nat, v: real)
    requires IsArgsort(order, all)
    requires i <= j < |all|
    requires forall k | 0 <= k < i :: all[order[k]] < v
    requires forall k | i <= k <= j :: all[order[k]] == v
    requires forall k | j < k < |all| :: v < all[order[k]]
    ensures (i + j) as real / 2.0 + 1.0 == Score(all, v) + 0.5
  {
    PickKeepsScore(all, order, v);
    BlockScore(Pick(all, order), i, j, v);
    hide Score;
  }

  // ----- the method -----

  datatype Outcome = Outcome(p: real, y: int)

  /** No value: the source's NaN when one class is empty. */
  datatype Share = Undefined | Share(value: real)

  /** `p[y == label]`. */
  function With(rows: seq<Outcome>, y: int): seq<real> {
    if |rows| == 0 then []
    else With(rows[..|rows| - 1], y)
         + if rows[|rows| - 1].y == y then [rows[|rows| - 1].p] else []
  }

  /** The rows of one label stand behind `With` at these rising positions. */
  ghost predicate Behind(ix: seq<nat>, rows: seq<Outcome>, y: int) {
    && |ix| == |With(rows, y)|
    && (forall a, b | 0 <= a < b < |ix| :: ix[a] < ix[b])
    && (forall k | 0 <= k < |ix| :: ix[k] < |rows| && With(rows, y)[k] == rows[ix[k]].p)
    && forall i: nat :: i in ix <==> i < |rows| && rows[i].y == y
  }

  lemma {:induction false} WithMeans(rows: seq<Outcome>, y: int) returns (ix: seq<nat>)
    ensures Behind(ix, rows, y)
  {
    hide Behind;
    if |rows| == 0 {
      ix := [];
      BehindNone(rows, y);
    } else {
      var last := |rows| - 1;
      var before := WithMeans(rows[..last], y);
      if rows[last].y == y {
        ix := before + [last];
        BehindTaken(before, rows, y);
      } else {
        ix := before;
        BehindSkipped(before, rows, y);
      }
    }
  }

  lemma {:induction false} BehindNone(rows: seq<Outcome>, y: int)
    requires |rows| == 0
    ensures Behind([], rows, y)
  {
  }

  lemma {:induction false} WithLast(rows: seq<Outcome>, y: int)
    requires |rows| > 0
    ensures var front, last := rows[..|rows| - 1], rows[|rows| - 1];
            With(rows, y) == if last.y == y then With(front, y) + [last.p] else With(front, y)
  {
  }

  lemma BehindTaken(before: seq<nat>, rows: seq<Outcome>, y: int)
    requires |rows| > 0 && Behind(before, rows[..|rows| - 1], y) && rows[|rows| - 1].y == y
    ensures Behind(before + [|rows| - 1], rows, y)
  {
    hide With;
    WithLast(rows, y);
    var last := |rows| - 1;
    assert forall k | 0 <= k < |before| :: before[k] in before;
    forall i: nat ensures i in before + [last] <==> i < |rows| && rows[i].y == y {
      InOneMore(before, last, i);
    }
  }

  lemma BehindSkipped(before: seq<nat>, rows: seq<Outcome>, y: int)
    requires |rows| > 0 && Behind(before, rows[..|rows| - 1], y) && rows[|rows| - 1].y != y
    ensures Behind(before, rows, y)
  {
    hide With;
    WithLast(rows, y);
    assert forall k | 0 <= k < |before| :: before[k] in before;
  }

  /** The rows of one label. */
  ghost function Labelled(rows: seq<Outcome>, y: int): set<nat> {
    set i: nat | i < |rows| && rows[i].y == y :: i
  }

  /** The pairs of a positive and a negative row that the prediction puts in the right order. */
  ghost function RightPairs(rows: seq<Outcome>): set<(nat, nat)> {
    set i: nat, j: nat |
      i < |rows| && j < |rows| && rows[i].y == 1 && rows[j].y == 0 && rows[i].p > rows[j].p :: (i, j)
  }

  /** The pairs that the prediction does not tell apart. */
  ghost function LevelPairs(rows: seq<Outcome>): set<(nat, nat)> {
    set i: nat, j: nat |
      i < |rows| && j < |rows| && rows[i].y == 1 && rows[j].y == 0 && rows[i].p == rows[j].p :: (i, j)
  }

  /** A one-to-one image is as large as its source. */
  lemma {:induction false} ImageSize<T, U>(s: set<T>, f: T -> U, image: set<U>)
    requires forall x, y | x in s && y in s && f(x) == f(y) :: x == y
    requires forall x | x in s :: f(x) in image
    requires forall u | u in image :: exists x :: x in s && f(x) == u
    ensures |image| == |s|
  {
    if exists x :: x in s {
      var x :| x in s;
      var fewer, rest := s - {x}, image - {f(x)};
      forall u | u in rest ensures exists z :: z in fewer && f(z) == u {
        var z :| z in s && f(z) == u;
        assert z in fewer;
      }
      ImageSize(fewer, f, rest);
      assert f(x) in image;
    } else {
      assert s == {};
      assert forall u :: u !in image;
      assert image == {};
    }
  }

  ghost function UpTo(n: nat): (r: set<nat>)
    ensures forall k: nat :: k in r <==> k < n
    ensures |r| == n
  {
    if n == 0 then {} else UpTo(n - 1) + {n - 1}
  }

  lemma {:induction false} RowsCount(rows: seq<Outcome>, y: int)
    ensures |Labelled(rows, y)| == |With(rows, y)|
  {
    hide With, Behind, Rises;
    var ix := WithMeans(rows, y);
    BehindMeans(ix, rows, y);
    ImageOfPositions(ix, Labelled(rows, y));
  }

  /** Rising positions are as many as the numbers at them. */
  lemma ImageOfPositions(ix: seq<nat>, image: set<nat>)
    requires Rises(ix) && forall i: nat :: i in image <==> i in ix
    ensures |image| == |ix|
  {
    hide Rises;
    var f := (k: nat) => if k < |ix| then ix[k] else 0;
    forall x: nat, y: nat | x in UpTo(|ix|) && y in UpTo(|ix|) && f(x) == f(y) ensures x == y {
      RisesOnce(ix, x, y);
    }
    forall i: nat | i in image ensures exists k: nat :: k in UpTo(|ix|) && f(k) == i {
      var k: nat :| k < |ix| && ix[k] == i;
      assert k in UpTo(|ix|) && f(k) == i;
    }
    ImageSize(UpTo(|ix|), f, image);
  }

  function PairAt(ix: seq<nat>, jx: seq<nat>, w: (nat, nat)): (nat, nat) {
    (if w.0 < |ix| then ix[w.0] else 0, if w.1 < |jx| then jx[w.1] else 0)
  }

  ghost predicate Rises(ix: seq<nat>) {
    forall a, b | 0 <= a < b < |ix| :: ix[a] < ix[b]
  }

  lemma RisesOnce(ix: seq<nat>, a: nat, b: nat)
    requires Rises(ix) && a < |ix| && b < |ix| && ix[a] == ix[b]
    ensures a == b
  {
  }

  /** Pairs of positions, and the pairs of rows behind them: as many. */
  lemma PairsBehind(ix: seq<nat>, jx: seq<nat>, s: set<(nat, nat)>, image: set<(nat, nat)>)
    requires Rises(ix) && Rises(jx)
    requires forall w | w in s :: w.0 < |ix| && w.1 < |jx| && (ix[w.0], jx[w.1]) in image
    requires forall u | u in image :: u.0 in ix && u.1 in jx
    requires forall a: nat, b: nat | a < |ix| && b < |jx| && (ix[a], jx[b]) in image :: (a, b) in s
    ensures |image| == |s|
  {
    hide Rises;
    var f := (w: (nat, nat)) => PairAt(ix, jx, w);
    forall x, y | x in s && y in s && f(x) == f(y) ensures x == y {
      RisesOnce(ix, x.0, y.0);
      RisesOnce(jx, x.1, y.1);
    }
    forall u | u in image ensures exists w :: w in s && f(w) == u {
      var a: nat :| a < |ix| && ix[a] == u.0;
      var b: nat :| b < |jx| && jx[b] == u.1;
      assert (ix[a], jx[b]) == u;
      assert f((a, b)) == u;
    }
    ImageSize(s, f, image);
  }

  lemma {:induction false} BehindMeans(ix: seq<nat>, rows: seq<Outcome>, y: int)
    requires Behind(ix, rows, y)
    ensures Rises(ix) && |ix| == |With(rows, y)|
    ensures forall k | 0 <= k < |ix| :: ix[k] < |rows| && rows[ix[k]].y == y && With(rows, y)[k] == rows[ix[k]].p
    ensures forall i: nat :: i in ix <==> i < |rows| && rows[i].y == y
  {
    assert forall k | 0 <= k < |ix| :: ix[k] in ix;
  }

  lemma {:induction false} RightPairsCount(rows: seq<Outcome>)
    ensures |RightPairs(rows)| == |Wins(With(rows, 1), With(rows, 0))|
  {
    hide With, Behind, Rises;
    var ix := WithMeans(rows, 1);
    var jx := WithMeans(rows, 0);
    BehindMeans(ix, rows, 1);
    BehindMeans(jx, rows, 0);
    PairsBehind(ix, jx, Wins(With(rows, 1), With(rows, 0)), RightPairs(rows));
  }

  lemma {:induction false} LevelPairsCount(rows: seq<Outcome>)
    ensures |LevelPairs(rows)| == |Ties(With(rows, 1), With(rows, 0))|
  {
    hide With, Behind, Rises;
    var ix := WithMeans(rows, 1);
    var jx := WithMeans(rows, 0);
    BehindMeans(ix, rows, 1);
    BehindMeans(jx, rows, 0);
    PairsBehind(ix, jx, Ties(With(rows, 1), With(rows, 0)), LevelPairs(rows));
  }

  ghost function SumTo(r: seq<real>, n: nat): real
    requires n <= |r|
  {
    if n == 0 then 0.0 else SumTo(r, n - 1) + r[n - 1]
  }

  /** The ranks the loop must produce: one score each, plus one half. */
  ghost predicate Ranked(ranks: seq<real>, all: seq<real>) {
    |ranks| == |all| && forall e | 0 <= e < |all| :: ranks[e] == Score(all, all[e]) + 0.5
  }

  /** The sum of the positives' ranks counts the pairs they win, plus a fixed amount. */
  lemma {:induction false} RankSum(ranks: seq<real>, pos: seq<real>, neg: seq<real>, n: nat)
    requires Ranked(ranks, pos + neg) && n <= |pos|
    ensures SumTo(ranks, n) == PairsWon(pos[..n], pos) + PairsWon(pos[..n], neg) + n as real / 2.0
  {
    if n > 0 {
      RankSum(ranks, pos, neg, n - 1);
      assert pos[..n][..n - 1] == pos[..n - 1];
      assert (pos + neg)[n - 1] == pos[n - 1];
      ScoreConcat(pos, neg, pos[n - 1]);
    }
  }

  lemma {:induction false} SelfPairs(pos: seq<real>)
    ensures PairsWon(pos, pos) == (|pos| * |pos|) as real / 2.0
  {
    PairsShared(pos, pos);
  }

  /** The last position whose value ties the one at `i`. */
  method TieEnd(all: seq<real>, order: seq<nat>, i: nat) returns (j: nat)
    requires IsArgsort(order, all) && i < |all|
    ensures i <= j < |all|
    ensures forall k | i <= k <= j :: all[order[k]] == all[order[i]]
    ensures forall k | j < k < |all| :: all[order[i]] < all[order[k]]
  {
    j := i;
    while j + 1 < |all| && all[order[j + 1]] == all[order[i]]
      invariant i <= j < |all|
      invariant forall k | i <= k <= j :: all[order[k]] == all[order[i]]
    {
      j := j + 1;
    }
    forall k | j < k < |all| ensures all[order[i]] < all[order[k]] {
      assert all[order[i]] <= all[order[j + 1]] <= all[order[k]];
    }
  }

  /** The rank loop: each block of equal values gets the mean of its ranks. */
  method AverageRanks(all: seq<real>, order: seq<nat>) returns (ranks: seq<real>)
    requires IsArgsort(order, all)
    ensures Ranked(ranks, all)
  {
    hide Score;
    var n := |all|;
    var a := new real[n];
    var i := 0;
    while i < n
      invariant 0 <= i <= n
      invariant forall k | 0 <= k < i :: a[order[k]] == Score(all, all[order[k]]) + 0.5
      invariant forall k, m | 0 <= k < i <= m < n :: all[order[k]] < all[order[m]]
    {
      var j := TieEnd(all, order, i);
      TieRank(all, order, i, j, all[order[i]]);
      var rank := (i + j) as real / 2.0 + 1.0;
      var k := i;
      while k <= j
        invariant i <= k <= j + 1
        invariant forall h | 0 <= h < i :: a[order[h]] == Score(all, all[order[h]]) + 0.5
        invariant forall h | i <= h < k :: a[order[h]] == rank
      {
        a[order[k]] := rank;
        k := k + 1;
      }
      i := j + 1;
    }
    ranks := a[..];
    forall e | 0 <= e < n ensures ranks[e] == Score(all, all[e]) + 0.5 {
      assert e in order;
    }
  }

  /** `auc` after the sort, for any argsort of the predictions. */
  method RankSumShare(pos: seq<real>, neg: seq<real>, order: seq<nat>) returns (r: real)
    requires |pos| > 0 && |neg| > 0
    requires IsArgsort(order, pos + neg)
    ensures r == PairsWon(pos, neg) / (|pos| * |neg|) as real
  {
    var ranks := AverageRanks(pos + neg, order);
    var sum := 0.0;
    var k := 0;
    while k < |pos|
      invariant 0 <= k <= |pos|
      invariant sum == SumTo(ranks, k)
    {
      sum := sum + ranks[k];
      k := k + 1;
    }
    RankSum(ranks, pos, neg, |pos|);
    assert pos[..|pos|] == pos;
    SelfPairs(pos);
    var np, nn := |pos|, |neg|;
    assert (np * (np + 1)) as real == (np * np) as real + np as real;
    r := (sum - (np * (np + 1)) as real / 2.0) / (np * nn) as real;
  }

  /** `auc`: the share of the pairs of a positive and a negative row that the prediction orders
      correctly, a level pair counting half; no value when a class is empty. */
  method AreaUnderCurve(rows: seq<Outcome>) returns (r: Share)
    ensures var np, nn := |Labelled(rows, 1)|, |Labelled(rows, 0)|;
            r == if np == 0 || nn == 0 then Undefined
                 else Share((|RightPairs(rows)| as real + |LevelPairs(rows)| as real / 2.0) / (np * nn) as real)
  {
    hide Labelled, RightPairs, LevelPairs, Wins, Ties;
    var pos, neg := With(rows, 1), With(rows, 0);
    RowsCount(rows, 1);
    RowsCount(rows, 0);
    RightPairsCount(rows);
    LevelPairsCount(rows);
    PairsWonCounts(pos, neg);
    if |pos| == 0 || |neg| == 0 {
      return Undefined;
    }
    ArgsortSorts(pos + neg);
    var value := RankSumShare(pos, neg, Argsort(pos + neg));
    return Share(value);
  }

  /** Swapping the classes reverses the share: the two shares add up to one. */
  lemma {:induction false} SharesAddUp(pos: seq<real>, neg: seq<real>)
    requires |pos| > 0 && |neg| > 0
    ensures |pos| * |neg| > 0 && |neg| * |pos| > 0
    ensures PairsWon(pos, neg) / (|pos| * |neg|) as real + PairsWon(neg, pos) / (|neg| * |pos|) as real == 1.0
  {
    PairsShared(pos, neg);
    assert |pos| * |neg| == |neg| * |pos| > 0;
    AddsToOne(PairsWon(pos, neg), PairsWon(neg, pos), (|pos| * |neg|) as real);
    hide PairsWon;
  }

  lemma AddsToOne(x: real, y: real, n: real)
    requires n > 0.0 && x + y == n
    ensures x / n + y / n == 1.0
  {
    assert x / n + y / n == (x + y) / n;
  }
}
