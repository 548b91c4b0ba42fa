/** Alias groups of the two-way products of a two-level design
    (scripts/designed_experiment.py, `alias_groups`).

    A design is a list of columns of -1 and +1, one per factor. The loop sorts every
    two-way product column into a group of columns equal up to sign, or drops it. */
module AliasGroups {
  type Column = seq<int>

  /** A product of factors `i` and `j`; `negated` is the minus sign in the group's name. */
  datatype Member = Member(i: nat, j: nat, negated: bool)

  datatype Group = Group(col: Column, members: seq<Member>)

  datatype State = State(groups: seq<Group>, dropped: seq<(nat, nat)>)

  predicate PlusMinus(c: Column) {
    forall r | 0 <= r < |c| :: c[r] == 1 || c[r] == -1
  }

  predicate IsDesign(X: seq<Column>, n: nat) {
    forall c | 0 <= c < |X| :: |X[c]| == n && PlusMinus(X[c])
  }

  function Product(x: Column, y: Column): Column
    requires |x| == |y|
  {
    seq(|x|, r requires 0 <= r < |x| => x[r] * y[r])
  }

  function Negated(x: Column): Column {
    seq(|x|, r requires 0 <= r < |x| => -x[r])
  }

  function Ones(n: nat): Column {
    seq(n, r => 1)
  }

  /** Equal, or negatives of each other, across the design rows. */
  predicate Aliased(x: Column, y: Column) {
    x == y || x == Negated(y)
  }

  // ----- dot products tell aliases -----

  function Dot(x: Column, y: Column): int
    requires |x| == |y|
  {
    if x == [] then 0 else Dot(x[..|x| - 1], y[..|y| - 1]) + x[|x| - 1] * y[|y| - 1]
  }

  function Sum(x: Column): int {
    if x == [] then 0 else Sum(x[..|x| - 1]) + x[|x| - 1]
  }

  function Abs(z: int): int {
    if z < 0 then -z else z
  }

  lemma {:induction false} DotInRange(x: Column, y: Column)
    requires |x| == |y| && PlusMinus(x) && PlusMinus(y)
    ensures -|x| <= Dot(x, y) <= |x|
  {
    if |x| > 0 {
      var m := |x| - 1;
      DotInRange(x[..m], y[..m]);
    }
  }

  lemma {:induction false} DotTellsEqual(x: Column, y: Column)
    requires |x| == |y| && PlusMinus(x) && PlusMinus(y)
    ensures Dot(x, y) == |x| <==> x == y
  {
    if |x| > 0 {
      var m := |x| - 1;
      DotInRange(x[..m], y[..m]);
      DotTellsEqual(x[..m], y[..m]);
      assert x == x[..m] + [x[m]] && y == y[..m] + [y[m]];
    }
  }

  lemma {:induction false} DotOfNegated(x: Column, y: Column)
    requires |x| == |y|
    ensures Dot(x, Negated(y)) == -Dot(x, y)
  {
    if |x| > 0 {
      var m := |x| - 1;
      DotOfNegated(x[..m], y[..m]);
      assert Negated(y)[..m] == Negated(y[..m]);
    }
  }

  /** The dot product reaches the number of rows exactly on equal columns, and its negative
      exactly on negated ones. */
  lemma {:induction false} DotTellsAliases(x: Column, y: Column)
    requires |x| == |y| && PlusMinus(x) && PlusMinus(y)
    ensures -|x| <= Dot(x, y) <= |x|
    ensures Dot(x, y) == |x| <==> x == y
    ensures Dot(x, y) == -|x| <==> x == Negated(y)
  {
    DotInRange(x, y);
    DotTellsEqual(x, y);
    DotTellsEqual(x, Negated(y));
    DotOfNegated(x, y);
  }

  lemma {:induction false} SumIsDot(x: Column)
    ensures Sum(x) == Dot(x, Ones(|x|))
  {
    if |x| > 0 {
      var m := |x| - 1;
      SumIsDot(x[..m]);
      assert Ones(|x|)[..m] == Ones(m);
    }
  }

  lemma ProductIsPlusMinus(X: seq<Column>, n: nat, i: nat, j: nat)
    requires IsDesign(X, n) && i < j < |X|
    ensures |Product(X[i], X[j])| == n && PlusMinus(Product(X[i], X[j]))
  {
  }

  /** Being aliased is an equivalence. */
  lemma AliasedTransitive(x: Column, y: Column, z: Column)
    requires Aliased(x, y) && Aliased(y, z)
    ensures Aliased(y, x) && Aliased(x, z)
  {
    assert Negated(Negated(x)) == x && Negated(Negated(y)) == y && Negated(Negated(z)) == z;
  }

  // ----- the specification of the loop -----

  /** The product aliases the intercept or a main effect. */
  ghost predicate Confounded(X: seq<Column>, n: nat, col: Column) {
    Aliased(col, Ones(n)) || exists c | 0 <= c < |X| :: Aliased(col, X[c])
  }

  /** The first group from `g` on whose column aliases `col`, or the number of groups. */
  ghost function FirstAlias(groups: seq<Group>, col: Column, g: nat): (found: nat)
    requires g <= |groups|
    ensures g <= found <= |groups|
    ensures forall h | g <= h < found :: !Aliased(col, groups[h].col)
    ensures found < |groups| ==> Aliased(col, groups[found].col)
    decreases |groups| - g
  {
    if g == |groups| || Aliased(col, groups[g].col) then g else FirstAlias(groups, col, g + 1)
  }

  ghost function Grown(group: Group, i: nat, j: nat, col: Column): Group {
    group.(members := group.members + [Member(i, j, col != group.col)])
  }

  ghost function Place(X: seq<Column>, n: nat, st: State, i: nat, j: nat): State
    requires IsDesign(X, n) && i < j < |X|
  {
    var col := Product(X[i], X[j]);
    var g := FirstAlias(st.groups, col, 0);
    if Confounded(X, n, col) then st.(dropped := st.dropped + [(i, j)])
    else if g < |st.groups| then st.(groups := st.groups[g := Grown(st.groups[g], i, j, col)])
    else st.(groups := st.groups + [Group(col, [Member(i, j, false)])])
  }

  /** Where the double loop may stand: about to treat `(i, j)`, or at a row's end. */
  ghost predicate At(k: nat, i: nat, j: nat) {
    i < j && (if i < k then j <= k else i == k && j == k + 1)
  }

  /** The pairs `itertools.combinations` yields before `(i, j)`. */
  ghost predicate Before(p: (nat, nat), i: nat, j: nat) {
    p.0 < i || (p.0 == i && p.1 < j)
  }

  ghost function After(X: seq<Column>, n: nat, i: nat, j: nat): State
    requires IsDesign(X, n) && At(|X|, i, j)
    decreases i, j
  {
    if j > i + 1 then Place(X, n, After(X, n, i, j - 1), i, j - 1)
    else if i == 0 then State([], [])
    else After(X, n, i - 1, |X|)
  }

  ghost function Result(X: seq<Column>, n: nat): State
    requires IsDesign(X, n)
  {
    After(X, n, |X|, |X| + 1)
  }

  // ----- what the loop keeps -----

  ghost predicate IsPair(X: seq<Column>, p: (nat, nat)) {
    p.0 < p.1 < |X|
  }

  ghost function ColumnOf(X: seq<Column>, p: (nat, nat)): Column
    requires IsPair(X, p) && |X[p.0]| == |X[p.1]|
  {
    Product(X[p.0], X[p.1])
  }

  ghost function PairOf(st: State, g: nat, m: nat): (nat, nat)
    requires g < |st.groups| && m < |st.groups[g].members|
  {
    (st.groups[g].members[m].i, st.groups[g].members[m].j)
  }

  ghost predicate Has(st: State, g: nat, m: nat) {
    g < |st.groups| && m < |st.groups[g].members|
  }

  /** Every member is a pair already treated, its column is its group's up to the sign it
      carries, and the first member carries none. */
  ghost predicate MembersOk(X: seq<Column>, n: nat, st: State, i: nat, j: nat)
    requires IsDesign(X, n)
  {
    && (forall g | 0 <= g < |st.groups| ::
          |st.groups[g].members| > 0 && !st.groups[g].members[0].negated)
    && (forall g: nat, m: nat | Has(st, g, m) ::
          && IsPair(X, PairOf(st, g, m)) && Before(PairOf(st, g, m), i, j)
          && ColumnOf(X, PairOf(st, g, m)) ==
             (if st.groups[g].members[m].negated then Negated(st.groups[g].col) else st.groups[g].col))
  }

  /** The group columns alias neither one another nor the intercept nor a main effect. */
  ghost predicate ColumnsOk(X: seq<Column>, n: nat, groups: seq<Group>) {
    && (forall g | 0 <= g < |groups| :: |groups[g].col| == n && PlusMinus(groups[g].col))
    && (forall g | 0 <= g < |groups| :: !Confounded(X, n, groups[g].col))
    && (forall g, h | 0 <= g < |groups| && 0 <= h < |groups| && g != h ::
          !Aliased(groups[g].col, groups[h].col))
  }

  /** The dropped pairs are the confounded ones treated so far, each once. */
  ghost predicate DroppedOk(X: seq<Column>, n: nat, st: State, i: nat, j: nat)
    requires IsDesign(X, n)
  {
    && (forall d | 0 <= d < |st.dropped| ::
          && IsPair(X, st.dropped[d]) && Before(st.dropped[d], i, j)
          && Confounded(X, n, ColumnOf(X, st.dropped[d])))
    && (forall d, e | 0 <= d < e < |st.dropped| :: st.dropped[d] != st.dropped[e])
  }

  /** Every pair treated so far is somewhere. */
  ghost predicate Covered(X: seq<Column>, st: State, i: nat, j: nat) {
    forall p: (nat, nat) | IsPair(X, p) && Before(p, i, j) ::
      p in st.dropped || exists g: nat, m: nat :: Has(st, g, m) && PairOf(st, g, m) == p
  }

  /** No pair is a member twice. */
  ghost predicate Unique(st: State) {
    forall g: nat, m: nat, h: nat, l: nat |
      Has(st, g, m) && Has(st, h, l) && PairOf(st, g, m) == PairOf(st, h, l) :: g == h && m == l
  }

  ghost predicate Good(X: seq<Column>, n: nat, st: State, i: nat, j: nat)
    requires IsDesign(X, n)
  {
    && MembersOk(X, n, st, i, j)
    && ColumnsOk(X, n, st.groups)
    && DroppedOk(X, n, st, i, j)
    && Covered(X, st, i, j)
    && Unique(st)
  }

  lemma DropCovers(X: seq<Column>, st: State, after: State, i: nat, j: nat)
    requires Covered(X, st, i, j)
    requires after == st.(dropped := st.dropped + [(i, j)])
    ensures Covered(X, after, i, j + 1)
  {
    forall p: (nat, nat) | IsPair(X, p) && Before(p, i, j + 1)
      ensures p in after.dropped || exists g: nat, m: nat :: Has(after, g, m) && PairOf(after, g, m) == p
    {
      if p == (i, j) {
        assert after.dropped[|st.dropped|] == p;
      } else if p in st.dropped {
        assert p in after.dropped;
      } else {
        var g: nat, m: nat :| Has(st, g, m) && PairOf(st, g, m) == p;
        assert Has(after, g, m) && PairOf(after, g, m) == p;
      }
    }
  }

  lemma DropKeepsMembers(X: seq<Column>, n: nat, st: State, after: State, i: nat, j: nat)
    requires IsDesign(X, n) && MembersOk(X, n, st, i, j) && Unique(st)
    requires after.groups == st.groups
    ensures MembersOk(X, n, after, i, j + 1) && Unique(after)
  {
    hide Product, Negated;
    forall g: nat, m: nat | Has(after, g, m)
      ensures Has(st, g, m) && PairOf(after, g, m) == PairOf(st, g, m)
    {
    }
  }

  lemma DropKeepsDropped(X: seq<Column>, n: nat, st: State, after: State, i: nat, j: nat)
    requires IsDesign(X, n) && i < j < |X| && DroppedOk(X, n, st, i, j)
    requires Confounded(X, n, Product(X[i], X[j]))
    requires after.dropped == st.dropped + [(i, j)]
    ensures DroppedOk(X, n, after, i, j + 1)
  {
    hide Confounded, Product;
  }

  lemma SameColumns(X: seq<Column>, n: nat, groups: seq<Group>, after: seq<Group>)
    requires ColumnsOk(X, n, groups) && |after| == |groups|
    requires forall h | 0 <= h < |groups| :: after[h].col == groups[h].col
    ensures ColumnsOk(X, n, after)
  {
    hide Confounded, Aliased, PlusMinus;
  }

  /** The state in which pair `(i, j)` has become the last member of group `g`. */
  ghost predicate Joined(st: State, after: State, g: nat, i: nat, j: nat) {
    && g < |after.groups|
    && after.dropped == st.dropped
    && |after.groups| == (if g < |st.groups| then |st.groups| else |st.groups| + 1)
    && (forall h | 0 <= h < |after.groups| && h != g :: h < |st.groups| && after.groups[h] == st.groups[h])
    && |after.groups[g].members| > 0
    && var last := |after.groups[g].members| - 1;
       && PairOf(after, g, last) == (i, j)
       && (if g < |st.groups| then
             last == |st.groups[g].members| && after.groups[g].members[..last] == st.groups[g].members
             && after.groups[g].col == st.groups[g].col
           else g == |st.groups| && last == 0)
  }

  /** Places in the grown state: the new last one, or an old one. */
  lemma JoinedPlaces(st: State, after: State, g: nat, i: nat, j: nat, h: nat, m: nat)
    requires Joined(st, after, g, i, j)
    requires Has(after, h, m)
    ensures !(h == g && m == |after.groups[g].members| - 1) ==>
              && Has(st, h, m) && PairOf(after, h, m) == PairOf(st, h, m)
              && after.groups[h].members[m] == st.groups[h].members[m]
              && after.groups[h].col == st.groups[h].col
  {
    if h == g && m != |after.groups[g].members| - 1 {
      var last := |after.groups[g].members| - 1;
      assert after.groups[g].members[..last][m] == st.groups[g].members[m];
    }
  }

  lemma OldPlaces(st: State, after: State, g: nat, i: nat, j: nat, h: nat, m: nat)
    requires Joined(st, after, g, i, j)
    requires Has(st, h, m)
    ensures Has(after, h, m) && PairOf(after, h, m) == PairOf(st, h, m)
  {
    if h == g {
      var last := |after.groups[g].members| - 1;
      assert after.groups[g].members[..last][m] == st.groups[g].members[m];
    }
  }

  lemma JoinCovers(X: seq<Column>, n: nat, st: State, after: State, g: nat, i: nat, j: nat)
    requires IsDesign(X, n) && i < j < |X| && Joined(st, after, g, i, j)
    requires Covered(X, st, i, j)
    ensures Covered(X, after, i, j + 1)
  {
    forall p: (nat, nat) | IsPair(X, p) && Before(p, i, j + 1)
      ensures p in after.dropped || exists h: nat, m: nat :: Has(after, h, m) && PairOf(after, h, m) == p
    {
      if p == (i, j) {
        var last: nat := |after.groups[g].members| - 1;
        assert Has(after, g, last) && PairOf(after, g, last) == p;
      } else if p !in st.dropped {
        var h: nat, m: nat :| Has(st, h, m) && PairOf(st, h, m) == p;
        OldPlaces(st, after, g, i, j, h, m);
      }
    }
  }

  lemma MemberIsEarlier(X: seq<Column>, n: nat, st: State, i: nat, j: nat, g: nat, m: nat)
    requires IsDesign(X, n) && MembersOk(X, n, st, i, j) && Has(st, g, m)
    ensures Before(PairOf(st, g, m), i, j)
  {
  }

  lemma JoinStaysUnique(X: seq<Column>, n: nat, st: State, after: State, g: nat, i: nat, j: nat)
    requires IsDesign(X, n) && i < j < |X| && Joined(st, after, g, i, j)
    requires MembersOk(X, n, st, i, j) && Unique(st)
    ensures Unique(after)
  {
    hide MembersOk, PlusMinus;
    forall a: nat, m: nat, b: nat, l: nat |
      Has(after, a, m) && Has(after, b, l) && PairOf(after, a, m) == PairOf(after, b, l)
      ensures a == b && m == l
    {
      JoinedPlaces(st, after, g, i, j, a, m);
      JoinedPlaces(st, after, g, i, j, b, l);
      if Has(st, a, m) {
        MemberIsEarlier(X, n, st, i, j, a, m);
      }
      if Has(st, b, l) {
        MemberIsEarlier(X, n, st, i, j, b, l);
      }
    }
  }

  lemma JoinKeepsMembers(X: seq<Column>, n: nat, st: State, after: State, g: nat, i: nat, j: nat)
    requires IsDesign(X, n) && i < j < |X| && Joined(st, after, g, i, j)
    requires MembersOk(X, n, st, i, j)
    requires var last := |after.groups[g].members| - 1;
             Product(X[i], X[j]) == (if after.groups[g].members[last].negated
                                     then Negated(after.groups[g].col) else after.groups[g].col)
             && (g == |st.groups| ==> !after.groups[g].members[last].negated)
    ensures MembersOk(X, n, after, i, j + 1)
  {
    hide Product, Negated;
    forall h: nat, m: nat | Has(after, h, m)
      ensures IsPair(X, PairOf(after, h, m)) && Before(PairOf(after, h, m), i, j + 1)
      ensures ColumnOf(X, PairOf(after, h, m)) ==
              (if after.groups[h].members[m].negated then Negated(after.groups[h].col) else after.groups[h].col)
    {
      JoinedPlaces(st, after, g, i, j, h, m);
      assert Has(st, h, m) ==> IsPair(X, PairOf(st, h, m)) && Before(PairOf(st, h, m), i, j);
    }
    forall h | 0 <= h < |after.groups|
      ensures |after.groups[h].members| > 0 && !after.groups[h].members[0].negated
    {
      assert Has(after, h, 0);
      JoinedPlaces(st, after, g, i, j, h, 0);
    }
  }

  lemma OpenKeepsColumns(X: seq<Column>, n: nat, groups: seq<Group>, col: Column, members: seq<Member>)
    requires ColumnsOk(X, n, groups) && |col| == n && PlusMinus(col)
    requires !Confounded(X, n, col)
    requires forall h | 0 <= h < |groups| :: !Aliased(col, groups[h].col)
    ensures ColumnsOk(X, n, groups + [Group(col, members)])
  {
    hide Confounded;
    forall h | 0 <= h < |groups| ensures !Aliased(groups[h].col, col) {
      if Aliased(groups[h].col, col) {
        AliasedTransitive(groups[h].col, col, col);
      }
    }
  }

  lemma PlaceKeepsGood(X: seq<Column>, n: nat, st: State, i: nat, j: nat)
    requires IsDesign(X, n) && i < j < |X| && Good(X, n, st, i, j)
    ensures Good(X, n, Place(X, n, st, i, j), i, j + 1)
  {
    hide Confounded, MembersOk, ColumnsOk, Covered, Unique, PlusMinus, Product;
    var col, after := Product(X[i], X[j]), Place(X, n, st, i, j);
    var g := FirstAlias(st.groups, col, 0);
    if Confounded(X, n, col) {
      DropKeepsMembers(X, n, st, after, i, j);
      DropKeepsDropped(X, n, st, after, i, j);
      DropCovers(X, st, after, i, j);
    } else {
      ProductIsPlusMinus(X, n, i, j);
      if g == |st.groups| {
        OpenKeepsColumns(X, n, st.groups, col, [Member(i, j, false)]);
      } else {
        SameColumns(X, n, st.groups, after.groups);
      }
      assert Joined(st, after, g, i, j);
      JoinKeepsMembers(X, n, st, after, g, i, j);
      JoinStaysUnique(X, n, st, after, g, i, j);
      JoinCovers(X, n, st, after, g, i, j);
    }
  }

  lemma GoodAtRowEnd(X: seq<Column>, n: nat, st: State, i: nat)
    requires IsDesign(X, n) && i < |X| && Good(X, n, st, i, |X|)
    ensures Good(X, n, st, i + 1, i + 2)
  {
    hide Confounded, ColumnsOk, Unique, Product, Negated;
    assert forall p: (nat, nat) | IsPair(X, p) :: Before(p, i, |X|) <==> Before(p, i + 1, i + 2);
  }

  lemma {:induction false} AfterIsGood(X: seq<Column>, n: nat, i: nat, j: nat)
    requires IsDesign(X, n) && At(|X|, i, j)
    ensures Good(X, n, After(X, n, i, j), i, j)
    decreases i, j
  {
    hide Good, Place;
    if j > i + 1 {
      AfterIsGood(X, n, i, j - 1);
      PlaceKeepsGood(X, n, After(X, n, i, j - 1), i, j - 1);
    } else if i == 0 {
      StartIsGood(X, n);
    } else {
      AfterIsGood(X, n, i - 1, |X|);
      GoodAtRowEnd(X, n, After(X, n, i - 1, |X|), i - 1);
    }
  }

  lemma StartIsGood(X: seq<Column>, n: nat)
    requires IsDesign(X, n)
    ensures Good(X, n, State([], []), 0, 1)
  {
  }

  // ----- the theorems -----

  /** Aliases of a confounded column are confounded. */
  lemma ConfoundedUpToSign(X: seq<Column>, n: nat, x: Column, y: Column)
    requires Aliased(x, y) && Confounded(X, n, y)
    ensures Confounded(X, n, x)
  {
    if Aliased(y, Ones(n)) {
      AliasedTransitive(x, y, Ones(n));
    } else {
      var c :| 0 <= c < |X| && Aliased(y, X[c]);
      AliasedTransitive(x, y, X[c]);
    }
  }

  lemma MemberIsAliased(X: seq<Column>, n: nat, g: nat, m: nat)
    requires IsDesign(X, n) && Has(Result(X, n), g, m)
    ensures IsPair(X, PairOf(Result(X, n), g, m))
    ensures var group := Result(X, n).groups[g];
            var col := ColumnOf(X, PairOf(Result(X, n), g, m));
            col == (if group.members[m].negated then Negated(group.col) else group.col)
            && Aliased(col, group.col)
  {
    hide After, ColumnsOk, Covered, Unique, DroppedOk;
    AfterIsGood(X, n, |X|, |X| + 1);
  }

  /** Every two-way product is dropped, when it aliases the intercept or a main effect, or
      else stands at exactly one place of exactly one group. */
  lemma PlacedExactlyOnce(X: seq<Column>, n: nat, p: (nat, nat))
    requires IsDesign(X, n) && IsPair(X, p)
    ensures var st := Result(X, n);
      && (p in st.dropped <==> Confounded(X, n, ColumnOf(X, p)))
      && (p in st.dropped <==> !exists g: nat, m: nat :: Has(st, g, m) && PairOf(st, g, m) == p)
      && (forall d, e | 0 <= d < e < |st.dropped| :: st.dropped[d] != st.dropped[e])
      && Unique(st)
  {
    hide After, Confounded, Aliased, Product, MembersOk;
    var st := Result(X, n);
    AfterIsGood(X, n, |X|, |X| + 1);
    assert Before(p, |X|, |X| + 1);
    if p in st.dropped {
      assert Confounded(X, n, ColumnOf(X, p));
    }
    forall g: nat, m: nat | Has(st, g, m) && PairOf(st, g, m) == p
      ensures !Confounded(X, n, ColumnOf(X, p))
    {
      MemberIsAliased(X, n, g, m);
      if Confounded(X, n, ColumnOf(X, p)) {
        AliasedSymmetric(ColumnOf(X, p), st.groups[g].col);
        ConfoundedUpToSign(X, n, st.groups[g].col, ColumnOf(X, p));
      }
    }
  }

  lemma AliasedSymmetric(x: Column, y: Column)
    requires Aliased(x, y)
    ensures Aliased(y, x)
  {
    AliasedTransitive(x, y, y);
  }

  /** Two kept products share a group exactly when their columns are equal or negated. */
  lemma ShareGroupIffAliased(X: seq<Column>, n: nat, g: nat, m: nat, h: nat, l: nat)
    requires IsDesign(X, n) && Has(Result(X, n), g, m) && Has(Result(X, n), h, l)
    requires IsPair(X, PairOf(Result(X, n), g, m)) && IsPair(X, PairOf(Result(X, n), h, l))
    ensures g == h <==>
            Aliased(ColumnOf(X, PairOf(Result(X, n), g, m)), ColumnOf(X, PairOf(Result(X, n), h, l)))
  {
    hide After, Confounded, Aliased, Product, MembersOk, Covered, Unique, DroppedOk;
    var st := Result(X, n);
    var x, y := ColumnOf(X, PairOf(st, g, m)), ColumnOf(X, PairOf(st, h, l));
    MemberIsAliased(X, n, g, m);
    MemberIsAliased(X, n, h, l);
    AliasedSymmetric(x, st.groups[g].col);
    AliasedSymmetric(y, st.groups[h].col);
    if g == h {
      AliasedTransitive(x, st.groups[g].col, y);
    }
    if Aliased(x, y) {
      AliasedTransitive(st.groups[g].col, x, y);
      AliasedTransitive(st.groups[g].col, y, st.groups[h].col);
      AfterIsGood(X, n, |X|, |X| + 1);
    }
  }

  /** A member carries the minus sign exactly when its column is the negative of the first
      member's, and otherwise its column is the first member's. */
  lemma SignMarksNegated(X: seq<Column>, n: nat, g: nat, m: nat)
    requires IsDesign(X, n) && Has(Result(X, n), g, m)
    requires IsPair(X, PairOf(Result(X, n), g, m)) && IsPair(X, PairOf(Result(X, n), g, 0))
    ensures var st := Result(X, n);
      var x, first := ColumnOf(X, PairOf(st, g, m)), ColumnOf(X, PairOf(st, g, 0));
      && first == st.groups[g].col
      && (st.groups[g].members[m].negated <==> x == Negated(first))
      && (!st.groups[g].members[m].negated <==> x == first)
  {
    hide After, Product, Covered, Unique, DroppedOk;
    var st := Result(X, n);
    AfterIsGood(X, n, |X|, |X| + 1);
    var col := st.groups[g].col;
    assert Has(st, g, 0);
    assert n == 0 ==> Aliased(col, Ones(n));
    assert col[0] != Negated(col)[0];
  }

  /** Row by row: the group's column is the product of the two factors of its first member, and
      of every further member up to the member's sign. */
  lemma GroupColumnMultiplies(X: seq<Column>, n: nat, g: nat, m: nat, r: nat)
    requires IsDesign(X, n) && Has(Result(X, n), g, m) && r < n
    ensures var group := Result(X, n).groups[g]; var member := group.members[m];
      && member.i < member.j < |X| && |group.col| == n && !group.members[0].negated
      && X[member.i][r] * X[member.j][r] == if member.negated then -group.col[r] else group.col[r]
  {
    hide After, Covered, Unique, DroppedOk, Confounded, Aliased;
    AfterIsGood(X, n, |X|, |X| + 1);
    var st := Result(X, n);
    var group, p := st.groups[g], PairOf(st, g, m);
    assert IsPair(X, p) && |group.col| == n;
    assert Product(X[p.0], X[p.1]) == if group.members[m].negated then Negated(group.col) else group.col;
    assert Product(X[p.0], X[p.1])[r] == X[p.0][r] * X[p.1][r];
    assert Negated(group.col)[r] == -group.col[r];
  }

  /** No two group columns alias each other, the intercept or a main effect. */
  lemma GroupColumnsSeparate(X: seq<Column>, n: nat, g: nat)
    requires IsDesign(X, n) && g < |Result(X, n).groups|
    ensures var cols := Result(X, n).groups;
      && !Aliased(cols[g].col, Ones(n))
      && (forall c | 0 <= c < |X| :: !Aliased(cols[g].col, X[c]))
      && (forall h | 0 <= h < |cols| && h != g :: !Aliased(cols[g].col, cols[h].col))
  {
    hide After, Aliased, Product, Covered, Unique, DroppedOk, MembersOk;
    AfterIsGood(X, n, |X|, |X| + 1);
  }

  // ----- in which order -----

  ghost predicate Earlier(p: (nat, nat), q: (nat, nat)) {
    p.0 < q.0 || (p.0 == q.0 && p.1 < q.1)
  }

  /** Dropped pairs, the members of each group, and the groups by their first members stand in
      the order the combinations come in. */
  ghost predicate InOrder(st: State) {
    && (forall d, e | 0 <= d < e < |st.dropped| :: Earlier(st.dropped[d], st.dropped[e]))
    && (forall g: nat, m: nat, l: nat | Has(st, g, l) && m < l :: Earlier(PairOf(st, g, m), PairOf(st, g, l)))
    && (forall g: nat, h: nat | Has(st, g, 0) && Has(st, h, 0) && g < h :: Earlier(PairOf(st, g, 0), PairOf(st, h, 0)))
  }

  lemma PlaceKeepsOrder(X: seq<Column>, n: nat, st: State, i: nat, j: nat)
    requires IsDesign(X, n) && i < j < |X| && Good(X, n, st, i, j) && InOrder(st)
    ensures InOrder(Place(X, n, st, i, j))
  {
    hide Confounded, ColumnsOk, Covered, Unique, PlusMinus, Product, Negated, FirstAlias;
    var col, after := Product(X[i], X[j]), Place(X, n, st, i, j);
    var found := FirstAlias(st.groups, col, 0);
    forall g: nat, m: nat | Has(st, g, m) ensures Earlier(PairOf(st, g, m), (i, j)) {
    }
    forall g: nat, m: nat | Has(after, g, m)
      ensures (Has(st, g, m) && PairOf(after, g, m) == PairOf(st, g, m))
              || (PairOf(after, g, m) == (i, j) && m == |after.groups[g].members| - 1 && g == found
                  && (m == 0 ==> g == |st.groups|))
    {
    }
  }

  lemma {:induction false} AfterInOrder(X: seq<Column>, n: nat, i: nat, j: nat)
    requires IsDesign(X, n) && At(|X|, i, j)
    ensures InOrder(After(X, n, i, j))
    decreases i, j
  {
    hide Good, Place, InOrder;
    if j > i + 1 {
      AfterInOrder(X, n, i, j - 1);
      AfterIsGood(X, n, i, j - 1);
      PlaceKeepsOrder(X, n, After(X, n, i, j - 1), i, j - 1);
    } else if i == 0 {
      NothingOutOfOrder();
    } else {
      AfterInOrder(X, n, i - 1, |X|);
    }
  }

  lemma NothingOutOfOrder()
    ensures InOrder(State([], []))
  {
  }

  /** The three lists come in the order of the combinations. */
  lemma ListedInOrder(X: seq<Column>, n: nat)
    requires IsDesign(X, n)
    ensures InOrder(Result(X, n))
  {
    AfterInOrder(X, n, |X|, |X| + 1);
  }

  /** A group's name: the first product, then each further one behind an equals sign, with a
      minus sign when its column is the negative. */
  lemma {:induction false} NameMeans(names: seq<string>, members: seq<Member>)
    requires InRange(|names|, members) && |members| > 0
    ensures var last := members[|members| - 1];
      var product := names[last.i] + "\U{D7}" + names[last.j];
      Name(names, members) ==
      if |members| == 1 then product
      else Name(names, members[..|members| - 1]) + (if last.negated then "=\U{2212}" else "=") + product
  {
  }

  // ----- names and the loop itself -----

  function Label(names: seq<string>, i: nat, j: nat): string
    requires i < |names| && j < |names|
  {
    names[i] + "\U{D7}" + names[j]
  }

  ghost predicate InRange(k: nat, members: seq<Member>) {
    forall m | 0 <= m < |members| :: members[m].i < k && members[m].j < k
  }

  /** The first label, then each further one after `=`, with a minus sign when negated. */
  ghost function Name(names: seq<string>, members: seq<Member>): string
    requires InRange(|names|, members)
  {
    if |members| == 0 then ""
    else
      var m := members[|members| - 1];
      if |members| == 1 then Label(names, m.i, m.j)
      else Name(names, members[..|members| - 1])
           + (if m.negated then "=\U{2212}" else "=") + Label(names, m.i, m.j)
  }

  /** `dot_one == n or any(abs(int(col @ m)) == n for m in mains)`. */
  method IsConfounded(X: seq<Column>, n: nat, col: Column) returns (b: bool)
    requires IsDesign(X, n) && |col| == n && PlusMinus(col)
    ensures b <==> Confounded(X, n, col)
  {
    SumIsDot(col);
    DotTellsAliases(col, Ones(n));
    b := Abs(Sum(col)) == n;
    var c := 0;
    while c < |X| && !b
      invariant 0 <= c <= |X|
      invariant b ==> Confounded(X, n, col)
      invariant !b ==> !Aliased(col, Ones(n)) && forall a | 0 <= a < c :: !Aliased(col, X[a])
    {
      DotTellsAliases(col, X[c]);
      b := Abs(Dot(col, X[c])) == n;
      c := c + 1;
    }
  }

  /** The inner scan over the groups: the first whose column is equal or negated. */
  method FindGroup(cols: seq<Column>, n: nat, col: Column, ghost groups: seq<Group>)
    returns (g: nat, negated: bool)
    requires |col| == n && PlusMinus(col) && n > 0
    requires |cols| == |groups|
    requires forall h | 0 <= h < |cols| ::
               cols[h] == groups[h].col && |cols[h]| == n && PlusMinus(cols[h])
    ensures g == FirstAlias(groups, col, 0)
    ensures g < |groups| ==> negated == (col != groups[g].col)
  {
    g, negated := 0, false;
    while g < |cols|
      invariant 0 <= g <= |cols|
      invariant FirstAlias(groups, col, 0) == FirstAlias(groups, col, g)
    {
      DotTellsAliases(col, cols[g]);
      var d := Dot(col, cols[g]);
      if d == n {
        return g, false;
      }
      if -d == n {
        return g, true;
      }
      g := g + 1;
    }
  }

  /** The three lists of the source, against the specification's state. */
  ghost predicate Shows(names: seq<string>, st: State,
                        groupNames: seq<string>, groupCols: seq<Column>, dropped: seq<string>)
  {
    && |groupNames| == |st.groups| && |groupCols| == |st.groups| && |dropped| == |st.dropped|
    && (forall g | 0 <= g < |st.groups| ::
          && groupCols[g] == st.groups[g].col
          && InRange(|names|, st.groups[g].members) && groupNames[g] == Name(names, st.groups[g].members))
    && (forall d | 0 <= d < |st.dropped| ::
          && st.dropped[d].0 < |names| && st.dropped[d].1 < |names|
          && dropped[d] == Label(names, st.dropped[d].0, st.dropped[d].1))
  }

  lemma {:induction false} ShowsStart(X: seq<Column>, n: nat, names: seq<string>)
    requires IsDesign(X, n)
    ensures Shows(names, After(X, n, 0, 1), [], [], [])
  {
  }

  lemma {:induction false} NameGrows(names: seq<string>, members: seq<Member>, i: nat, j: nat, negated: bool)
    requires InRange(|names|, members) && |members| > 0 && i < |names| && j < |names|
    ensures InRange(|names|, members + [Member(i, j, negated)])
    ensures Name(names, members + [Member(i, j, negated)])
            == Name(names, members) + ((if negated then "=\U{2212}" else "=") + Label(names, i, j))
  {
    var grown := members + [Member(i, j, negated)];
    assert grown[..|grown| - 1] == members;
  }

  lemma ShowsJoin(names: seq<string>, st: State, groupNames: seq<string>, groupCols: seq<Column>,
                  dropped: seq<string>, g: nat, m: Member)
    requires Shows(names, st, groupNames, groupCols, dropped)
    requires g < |st.groups| && |st.groups[g].members| > 0 && m.i < |names| && m.j < |names|
    ensures Shows(names,
                  st.(groups := st.groups[g := st.groups[g].(members := st.groups[g].members + [m])]),
                  groupNames[g := groupNames[g] + ((if m.negated then "=\U{2212}" else "=") + Label(names, m.i, m.j))],
                  groupCols, dropped)
  {
    hide Label, Name;
    NameGrows(names, st.groups[g].members, m.i, m.j, m.negated);
  }

  lemma ShowsOpen(names: seq<string>, st: State, groupNames: seq<string>, groupCols: seq<Column>,
                  dropped: seq<string>, col: Column, i: nat, j: nat)
    requires Shows(names, st, groupNames, groupCols, dropped)
    requires i < |names| && j < |names|
    ensures Shows(names, st.(groups := st.groups + [Group(col, [Member(i, j, false)])]),
                  groupNames + [Label(names, i, j)], groupCols + [col], dropped)
  {
    hide Label;
  }

  lemma ShowsDrop(names: seq<string>, st: State, groupNames: seq<string>, groupCols: seq<Column>,
                  dropped: seq<string>, i: nat, j: nat)
    requires Shows(names, st, groupNames, groupCols, dropped)
    requires i < |names| && j < |names|
    ensures Shows(names, st.(dropped := st.dropped + [(i, j)]),
                  groupNames, groupCols, dropped + [Label(names, i, j)])
  {
    hide Label, Name;
  }

  /** The columns the scan compares with are as long as the design and hold only signs. */
  lemma ShownColumns(X: seq<Column>, n: nat, names: seq<string>, st: State,
                     groupNames: seq<string>, groupCols: seq<Column>, dropped: seq<string>)
    requires ColumnsOk(X, n, st.groups) && Shows(names, st, groupNames, groupCols, dropped)
    ensures |groupCols| == |st.groups| == |groupNames|
    ensures forall h | 0 <= h < |groupCols| ::
              groupCols[h] == st.groups[h].col && |groupCols[h]| == n && PlusMinus(groupCols[h])
  {
    hide Confounded, Aliased, Label, Name;
  }

  lemma RowsNeeded(X: seq<Column>, n: nat, col: Column)
    requires |col| == n && !Confounded(X, n, col)
    ensures n > 0
  {
    assert n == 0 ==> col == Ones(n);
  }

  /** One turn of the double loop. */
  method PlaceProduct(X: seq<Column>, n: nat, names: seq<string>, i: nat, j: nat, ghost st: State,
                      groupNames0: seq<string>, groupCols0: seq<Column>, dropped0: seq<string>)
    returns (groupNames: seq<string>, groupCols: seq<Column>, dropped: seq<string>)
    requires IsDesign(X, n) && |names| == |X| && i < j < |X|
    requires Good(X, n, st, i, j)
    requires Shows(names, st, groupNames0, groupCols0, dropped0)
    ensures Shows(names, Place(X, n, st, i, j), groupNames, groupCols, dropped)
  {
    hide Shows, Label, Name, Aliased, ColumnsOk, Covered, Unique, DroppedOk, Product;
    groupNames, groupCols, dropped := groupNames0, groupCols0, dropped0;
    ShownColumns(X, n, names, st, groupNames, groupCols, dropped);
    var col := Product(X[i], X[j]);
    ProductIsPlusMinus(X, n, i, j);
    var name := Label(names, i, j);
    var confounded := IsConfounded(X, n, col);
    if confounded {
      ShowsDrop(names, st, groupNames, groupCols, dropped, i, j);
      dropped := dropped + [name];
      return;
    }
    RowsNeeded(X, n, col);
    var g, negated := FindGroup(groupCols, n, col, st.groups);
    if g < |groupCols| {
      ShowsJoin(names, st, groupNames, groupCols, dropped, g, Member(i, j, negated));
      groupNames := groupNames[g := groupNames[g] + ((if negated then "=\U{2212}" else "=") + name)];
    } else {
      ShowsOpen(names, st, groupNames, groupCols, dropped, col, i, j);
      groupNames := groupNames + [name];
      groupCols := groupCols + [col];
    }
  }

  method AliasGroups(X: seq<Column>, n: nat, names: seq<string>)
    returns (groupNames: seq<string>, groupCols: seq<Column>, dropped: seq<string>)
    requires IsDesign(X, n) && |names| == |X|
    ensures Shows(names, Result(X, n), groupNames, groupCols, dropped)
  {
    hide Good, Place, Shows;
    groupNames, groupCols, dropped := [], [], [];
    ShowsStart(X, n, names);
    var i := 0;
    while i < |X|
      invariant i <= |X|
      invariant Shows(names, After(X, n, i, i + 1), groupNames, groupCols, dropped)
    {
      var j := i + 1;
      while j < |X|
        invariant i + 1 <= j <= |X|
        invariant Shows(names, After(X, n, i, j), groupNames, groupCols, dropped)
      {
        AfterIsGood(X, n, i, j);
        groupNames, groupCols, dropped :=
          PlaceProduct(X, n, names, i, j, After(X, n, i, j), groupNames, groupCols, dropped);
        j := j + 1;
      }
      i := i + 1;
    }
  }
}
