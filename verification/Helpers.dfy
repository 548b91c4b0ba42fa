/** What several models share: optional values and facts about finite sets. */
module Helpers {
  datatype Option<+T> = None | Some(value: T)

  lemma {:induction false} SubsetSize<T>(a: set<T>, b: set<T>)
    requires a <= b
    ensures |a| <= |b|
  {
    if exists x :: x in a {
      var x :| x in a;
      SubsetSize(a - {x}, b - {x});
    } else {
      assert a == {};
    }
  }

  lemma ProperSubsetSize<T>(a: set<T>, b: set<T>)
    requires a < b
    ensures |a| < |b|
  {
    var x :| x in b && x !in a;
    SubsetSize(a, b - {x});
  }

  ghost predicate Greatest(s: set<int>, m: int) {
    m in s && forall x | x in s :: x <= m
  }

  lemma {:induction false} GreatestExists(s: set<int>)
    requires exists x :: x in s
    ensures exists m :: Greatest(s, m)
  {
    var x :| x in s;
    var above := set y | y in s && y > x;
    if exists y :: y in above {
      assert above < s by { assert x !in above; }
      GreatestExists(above);
      var m :| Greatest(above, m);
      assert Greatest(s, m) by {
        assert forall y | y in s :: y in above || y <= x;
      }
    } else {
      assert Greatest(s, x) by {
        assert forall y | y in s :: y in above || y <= x;
      }
    }
  }

  function Max(s: set<int>): (m: int)
    requires exists x :: x in s
    ensures m in s && forall x | x in s :: x <= m
  {
    GreatestExists(s);
    assert exists m :: m in s && forall x | x in s :: x <= m by {
      var m :| Greatest(s, m);
    }
    var m :| m in s && forall x | x in s :: x <= m;
    m
  }

  /** The least element: the greatest of the negated ones, negated. */
  function Min(s: set<int>): (m: int)
    requires exists x :: x in s
    ensures m in s && forall x | x in s :: m <= x
  {
    var negated := set x | x in s :: -x;
    assert exists a :: a in negated by {
      var x :| x in s;
      assert -x in negated;
    }
    assert forall x | x in s :: -x in negated;
    -Max(negated)
  }

  // ----- what a filtering loop leaves -----

  /** `r` is what stands in `list` at the rising positions `ix`. */
  ghost predicate Picks<T>(ix: seq<nat>, list: seq<T>, r: seq<T>) {
    && |ix| == |r|
    && (forall a, b | 0 <= a < b < |ix| :: ix[a] < ix[b])
    && (forall k | 0 <= k < |ix| :: ix[k] < |list| && r[k] == list[ix[k]])
  }

  /** `r` holds exactly the entries of `list` that pass, in their order. */
  ghost predicate Filters<T>(list: seq<T>, r: seq<T>, keep: T -> bool) {
    exists ix :: Picks(ix, list, r) && forall k: nat | k < |list| :: k in ix <==> keep(list[k])
  }

  lemma FiltersNone<T>(keep: T -> bool)
    ensures Filters([], [], keep)
  {
    var ix: seq<nat> := [];
    var none: seq<T> := [];
    assert Picks(ix, none, none);
  }

  lemma PicksBack<T>(ix: seq<nat>, list: seq<T>, r: seq<T>, x: T, take: bool)
    requires Picks(ix, list, r)
    ensures Picks(if take then ix + [|list|] else ix, list + [x], if take then r + [x] else r)
  {
  }

  lemma InOneMore(ix: seq<nat>, last: nat, k: nat)
    ensures k in ix + [last] <==> k in ix || k == last
  {
  }

  lemma FiltersBack<T>(list: seq<T>, r: seq<T>, x: T, keep: T -> bool)
    requires Filters(list, r, keep)
    ensures Filters(list + [x], if keep(x) then r + [x] else r, keep)
  {
    hide Picks;
    var ix: seq<nat> :| Picks(ix, list, r) && forall k: nat | k < |list| :: k in ix <==> keep(list[k]);
    var more: seq<nat> := if keep(x) then ix + [|list|] else ix;
    PicksBack(ix, list, r, x, keep(x));
    forall k: nat | k < |list| + 1 ensures k in more <==> keep((list + [x])[k]) {
      InOneMore(ix, |list|, k);
      if |list| in ix {
        BelowLength(ix, list, r, |list|);
      }
      assert k < |list| ==> (k in ix <==> keep(list[k]));
    }
    var all, rest := list + [x], if keep(x) then r + [x] else r;
    Witnessed(more, all, rest, keep);
  }

  lemma BelowLength<T>(ix: seq<nat>, list: seq<T>, r: seq<T>, k: nat)
    requires Picks(ix, list, r) && k in ix
    ensures k < |list|
  {
  }

  lemma Witnessed<T>(ix: seq<nat>, list: seq<T>, r: seq<T>, keep: T -> bool)
    requires Picks(ix, list, r) && forall k: nat | k < |list| :: k in ix <==> keep(list[k])
    ensures Filters(list, r, keep)
  {
  }

  /** The positions, one further on. */
  function Shifted(ix: seq<nat>): (r: seq<nat>)
    ensures |r| == |ix| && forall k | 0 <= k < |ix| :: r[k] == ix[k] + 1
  {
    seq(|ix|, k requires 0 <= k < |ix| => ix[k] + 1)
  }

  lemma ShiftedHas(ix: seq<nat>, k: nat)
    ensures k in Shifted(ix) <==> k > 0 && k - 1 in ix
  {
    if k > 0 && k - 1 in ix {
      var a :| 0 <= a < |ix| && ix[a] == k - 1;
      assert Shifted(ix)[a] == k;
    }
  }

  lemma FiltersFront<T>(x: T, list: seq<T>, r: seq<T>, keep: T -> bool)
    requires Filters(list, r, keep)
    ensures Filters([x] + list, if keep(x) then [x] + r else r, keep)
  {
    hide Shifted, Picks;
    var ix: seq<nat> :| Picks(ix, list, r) && forall k: nat | k < |list| :: k in ix <==> keep(list[k]);
    var more: seq<nat> := if keep(x) then [0] + Shifted(ix) else Shifted(ix);
    PicksFront(ix, x, list, r, keep(x));
    forall k: nat | k < |list| + 1 ensures k in more <==> keep(([x] + list)[k]) {
      ShiftedHas(ix, k);
      assert k in more <==> k in Shifted(ix) || (keep(x) && k == 0);
      assert k > 0 ==> (k - 1 in ix <==> keep(list[k - 1]));
    }
    var all, rest := [x] + list, if keep(x) then [x] + r else r;
    Witnessed(more, all, rest, keep);
  }

  lemma PicksFront<T>(ix: seq<nat>, x: T, list: seq<T>, r: seq<T>, take: bool)
    requires Picks(ix, list, r)
    ensures Picks(if take then [0] + Shifted(ix) else Shifted(ix), [x] + list, if take then [x] + r else r)
  {
    hide Shifted;
    var shifted := Shifted(ix);
    assert forall k | 0 <= k < |ix| :: ([x] + list)[shifted[k]] == list[ix[k]];
    assert Picks(shifted, [x] + list, r);
    if take {
      var more := [0] + shifted;
      assert forall k | 0 < k < |more| :: more[k] == shifted[k - 1] && ([x] + r)[k] == r[k - 1];
    }
  }
}
