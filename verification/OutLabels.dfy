/** The out labels and base destinations (pipeline/statcast_events.py) as SQL expressions,
    under SQL's three-valued logic. */
module OutLabels {
  import opened Helpers

  // ----- SQL expressions -----

  datatype Base = First | Second | Third

  datatype StealBase = ToSecond | ToThird | ToHome

  /** The columns of `raw.pitches` the expressions read. */
  datatype Column =
    | Events
    | Type
    | SbAttempt(target: StealBase)
    | SbSuccess(target: StealBase)
    | On(base: Base)
    | PostOn(base: Base)
    | Scored(base: Base)
    | Batter
    | RunsOnPitch

  datatype Value = Null | Int(i: int) | Bool(b: bool) | Text(s: string)

  type Row = Column -> Value

  datatype Expr =
    | Col(c: Column)
    | Lit(v: Value)
    | InList(e: Expr, members: seq<string>)
    | IsNull(e: Expr)
    | Not(e: Expr)
    | And(l: Expr, r: Expr)
    | Or(l: Expr, r: Expr)
    | Eq(l: Expr, r: Expr)
    | Greater(l: Expr, r: Expr)
    | Plus(l: Expr, r: Expr)
    | AsInt(e: Expr)
    | Coalesce(e: Expr, otherwise: Expr)
    // CASE WHEN test THEN result, then the further branches
    | When(test: Expr, result: Expr, otherwise: Expr)

  function AndValue(a: Value, b: Value): Value {
    if a == Bool(false) || b == Bool(false) then Bool(false)
    else if a == Bool(true) && b == Bool(true) then Bool(true)
    else Null
  }

  function NotValue(a: Value): Value {
    if a.Bool? then Bool(!a.b) else Null
  }

  function OrValue(a: Value, b: Value): Value {
    NotValue(AndValue(NotValue(a), NotValue(b)))
  }

  function Eval(e: Expr, row: Row): Value {
    match e
    case Col(c) => row(c)
    case Lit(v) => v
    case InList(x, members) =>
      var v := Eval(x, row);
      if v.Text? then Bool(v.s in members) else Null
    case IsNull(x) => Bool(Eval(x, row) == Null)
    case Not(x) => NotValue(Eval(x, row))
    case And(l, r) => AndValue(Eval(l, row), Eval(r, row))
    case Or(l, r) => OrValue(Eval(l, row), Eval(r, row))
    case Eq(l, r) =>
      var a, b := Eval(l, row), Eval(r, row);
      if a == Null || b == Null then Null else Bool(a == b)
    case Greater(l, r) =>
      var a, b := Eval(l, row), Eval(r, row);
      if a.Int? && b.Int? then Bool(a.i > b.i) else Null
    case Plus(l, r) =>
      var a, b := Eval(l, row), Eval(r, row);
      if a.Int? && b.Int? then Int(a.i + b.i) else Null
    case AsInt(x) =>
      var v := Eval(x, row);
      if v.Bool? then Int(if v.b then 1 else 0) else v
    case Coalesce(x, otherwise) =>
      if Eval(x, row) == Null then Eval(otherwise, row) else Eval(x, row)
    case When(test, result, otherwise) =>
      if Eval(test, row) == Bool(true) then Eval(result, row) else Eval(otherwise, row)
  }

  ghost predicate TextOrNull(v: Value) { v == Null || v.Text? }

  ghost predicate BoolOrNull(v: Value) { v == Null || v.Bool? }

  ghost predicate IntOrNull(v: Value) { v == Null || v.Int? }

  /** Every column holds its type or NULL. */
  ghost predicate Typed(row: Row) {
    && TextOrNull(row(Events)) && TextOrNull(row(Type)) && IntOrNull(row(RunsOnPitch))
    && (forall t :: BoolOrNull(row(SbAttempt(t))) && BoolOrNull(row(SbSuccess(t))))
    && (forall b :: BoolOrNull(row(Scored(b))) && IntOrNull(row(On(b))) && IntOrNull(row(PostOn(b))))
    && row(Batter).Int?
  }

  // ----- the vocabulary -----

  const PLAY_OUTS_BY_EVENT: map<string, int> := map[
    "strikeout" := 1, "field_out" := 1, "force_out" := 1, "fielders_choice_out" := 1,
    "other_out" := 1, "sac_fly" := 1, "sac_bunt" := 1,
    "caught_stealing_2b" := 1, "caught_stealing_3b" := 1, "caught_stealing_home" := 1,
    "pickoff_caught_stealing_2b" := 1, "pickoff_caught_stealing_3b" := 1,
    "pickoff_caught_stealing_home" := 1,
    "grounded_into_double_play" := 2, "double_play" := 2, "strikeout_double_play" := 2,
    "sac_fly_double_play" := 2, "sac_bunt_double_play" := 2,
    "triple_play" := 3,
    "single" := 0, "double" := 0, "triple" := 0, "home_run" := 0, "walk" := 0,
    "intent_walk" := 0, "hit_by_pitch" := 0, "field_error" := 0, "fielders_choice" := 0,
    "catcher_interf" := 0, "wild_pitch" := 0, "passed_ball" := 0, "stolen_base_2b" := 0,
    "stolen_base_3b" := 0, "stolen_base_home" := 0, "game_advisory" := 0, "truncated_pa" := 0]

  const STEAL_OUT_EVENTS: seq<string> := [
    "caught_stealing_2b", "caught_stealing_3b", "caught_stealing_home",
    "pickoff_caught_stealing_2b", "pickoff_caught_stealing_3b", "pickoff_caught_stealing_home",
    "strikeout_double_play"]

  /** `play_outs`: the Python reading of the same two columns. */
  function PlayOuts(table: map<string, int>, event: Value, code: Value): int {
    var outs := if event.Text? && event.s in table then table[event.s] else 0;
    if code == Text("X") && outs == 0 then 1 else outs
  }

  // ----- grouping the vocabulary -----

  /** The entries of a table, each key once. */
  ghost predicate Lists(items: seq<(string, int)>, table: map<string, int>) {
    && (forall k | 0 <= k < |items| :: items[k].0 in table && table[items[k].0] == items[k].1)
    && (forall e | e in table :: (e, table[e]) in items)
  }

  /** Groups of a table: ascending positive counts, each with exactly its events. */
  ghost predicate GroupsOf(groups: seq<(int, seq<string>)>, table: map<string, int>) {
    && (forall g | 0 <= g < |groups| :: groups[g].0 > 0)
    && (forall g, h | 0 <= g < h < |groups| :: groups[g].0 < groups[h].0)
    && (forall g, e | 0 <= g < |groups| ::
          e in groups[g].1 <==> e in table && table[e] == groups[g].0)
    && (forall e | e in table && table[e] > 0 :: exists g :: 0 <= g < |groups| && groups[g].0 == table[e])
  }

  /** `groups.setdefault(n, []).append(e)`. */
  function Filed(byCount: map<int, seq<string>>, n: int, e: string): map<int, seq<string>> {
    byCount[n := (if n in byCount then byCount[n] else []) + [e]]
  }

  ghost predicate FiledOk(byCount: map<int, seq<string>>, items: seq<(string, int)>) {
    && (forall n | n in byCount :: n > 0)
    && (forall n, e | n in byCount :: e in byCount[n] <==> (e, n) in items)
    && (forall k | 0 <= k < |items| && items[k].1 > 0 :: items[k].1 in byCount)
  }

  lemma FiledKeeps(byCount: map<int, seq<string>>, items: seq<(string, int)>, n: int, e: string)
    requires FiledOk(byCount, items) && n > 0
    ensures FiledOk(Filed(byCount, n, e), items + [(e, n)])
  {
    var after, more := Filed(byCount, n, e), items + [(e, n)];
    forall m, x | m in after ensures x in after[m] <==> (x, m) in more {
      assert (x, m) in more <==> (x, m) in items || (x, m) == (e, n);
      if m == n && n !in byCount {
        assert (x, m) !in items;
      }
    }
  }

  lemma SkippedKeeps(byCount: map<int, seq<string>>, items: seq<(string, int)>, n: int, e: string)
    requires FiledOk(byCount, items) && n <= 0
    ensures FiledOk(byCount, items + [(e, n)])
  {
    var more := items + [(e, n)];
    forall m, x | m in byCount ensures x in byCount[m] <==> (x, m) in more {
      assert (x, m) in more <==> (x, m) in items || (x, m) == (e, n);
    }
  }

  /** `_outs_groups`: the dict is filled item by item, then listed by ascending count. */
  method OutsGroups(items: seq<(string, int)>, ghost table: map<string, int>)
    returns (groups: seq<(int, seq<string>)>)
    requires Lists(items, table)
    ensures GroupsOf(groups, table)
  {
    var byCount: map<int, seq<string>> := map[];
    var k := 0;
    while k < |items|
      invariant 0 <= k <= |items|
      invariant FiledOk(byCount, items[..k])
    {
      var (e, n) := items[k];
      assert items[..k + 1] == items[..k] + [(e, n)];
      if n > 0 {
        FiledKeeps(byCount, items[..k], n, e);
        byCount := Filed(byCount, n, e);
      } else {
        SkippedKeeps(byCount, items[..k], n, e);
      }
      k := k + 1;
    }
    assert items[..k] == items;
    groups := SortedItems(byCount);
    FiledGroups(byCount, items, groups, table);
  }

  /** The listing so far holds the counts no longer in `left`, ascending and below those in it. */
  ghost predicate Listed(byCount: map<int, seq<string>>, left: set<int>, groups: seq<(int, seq<string>)>) {
    && left <= byCount.Keys
    && (forall g | 0 <= g < |groups| :: groups[g].0 in byCount && groups[g].1 == byCount[groups[g].0])
    && (forall g, h | 0 <= g < h < |groups| :: groups[g].0 < groups[h].0)
    && (forall g, n | 0 <= g < |groups| && n in left :: groups[g].0 < n)
    && (forall n | n in byCount && n !in left :: exists g :: 0 <= g < |groups| && groups[g].0 == n)
  }

  lemma ListedGrows(byCount: map<int, seq<string>>, left: set<int>, groups: seq<(int, seq<string>)>, least: int)
    requires Listed(byCount, left, groups)
    requires least in left && forall n | n in left :: least <= n
    ensures Listed(byCount, left - {least}, groups + [(least, byCount[least])])
  {
    var more := groups + [(least, byCount[least])];
    forall n | n in byCount && n !in left - {least} ensures exists g :: 0 <= g < |more| && more[g].0 == n {
      if n == least {
        assert more[|groups|].0 == n;
      } else {
        var g :| 0 <= g < |groups| && groups[g].0 == n;
        assert more[g].0 == n;
      }
    }
    forall g | 0 <= g < |more| ensures more[g].0 in byCount && more[g].1 == byCount[more[g].0] {
      if g < |groups| {
        assert more[g] == groups[g];
      }
    }
    forall g, h | 0 <= g < h < |more| ensures more[g].0 < more[h].0 {
      assert more[g] == groups[g];
      assert h < |groups| ==> more[h] == groups[h];
    }
    forall g, n | 0 <= g < |more| && n in left - {least} ensures more[g].0 < n {
      assert g < |groups| ==> more[g] == groups[g];
    }
  }

  /** `sorted(groups.items())`. */
  method SortedItems(byCount: map<int, seq<string>>) returns (groups: seq<(int, seq<string>)>)
    ensures Listed(byCount, {}, groups)
  {
    hide Listed;
    groups := [];
    var left := byCount.Keys;
    ListedStart(byCount);
    while exists n :: n in left
      invariant Listed(byCount, left, groups)
      decreases left
    {
      var least := Min(left);
      assert least in byCount by { ListedKeys(byCount, left, groups); }
      ListedGrows(byCount, left, groups, least);
      groups := groups + [(least, byCount[least])];
      left := left - {least};
    }
    assert left == {};
  }

  lemma ListedStart(byCount: map<int, seq<string>>)
    ensures Listed(byCount, byCount.Keys, [])
  {
  }

  lemma ListedKeys(byCount: map<int, seq<string>>, left: set<int>, groups: seq<(int, seq<string>)>)
    requires Listed(byCount, left, groups)
    ensures left <= byCount.Keys
  {
  }

  lemma FiledGroups(byCount: map<int, seq<string>>, items: seq<(string, int)>,
                    groups: seq<(int, seq<string>)>, table: map<string, int>)
    requires FiledOk(byCount, items) && Lists(items, table)
    requires Listed(byCount, {}, groups)
    ensures GroupsOf(groups, table)
  {
    forall g, e | 0 <= g < |groups|
      ensures e in groups[g].1 <==> e in table && table[e] == groups[g].0
    {
      var n := groups[g].0;
      assert e in byCount[n] <==> (e, n) in items;
      if (e, n) in items {
        var k :| 0 <= k < |items| && items[k] == (e, n);
      }
    }
    forall e | e in table && table[e] > 0
      ensures exists g :: 0 <= g < |groups| && groups[g].0 == table[e]
    {
      var k :| 0 <= k < |items| && items[k] == (e, table[e]);
      assert items[k].1 in byCount;
    }
  }

  /** `FIELDING_OUT_EVENTS`: the events with at least one out. */
  function FieldingOuts(items: seq<(string, int)>): seq<string> {
    if items == [] then []
    else if items[0].1 > 0 then [items[0].0] + FieldingOuts(items[1..])
    else FieldingOuts(items[1..])
  }

  ghost predicate FieldingOf(fielding: seq<string>, table: map<string, int>) {
    forall e :: e in fielding <==> e in table && table[e] > 0
  }

  lemma {:induction false} FieldingOutsAre(items: seq<(string, int)>, e: string)
    ensures e in FieldingOuts(items) <==> exists k :: 0 <= k < |items| && items[k].0 == e && items[k].1 > 0
  {
    if items != [] {
      var rest := items[1..];
      FieldingOutsAre(rest, e);
      if k :| 0 <= k < |rest| && rest[k].0 == e && rest[k].1 > 0 {
        assert items[k + 1] == rest[k];
      }
      if k :| 0 <= k < |items| && items[k].0 == e && items[k].1 > 0 {
        assert k > 0 ==> rest[k - 1] == items[k];
      }
    }
  }

  lemma {:induction false} FieldingOutsOf(items: seq<(string, int)>, table: map<string, int>)
    requires Lists(items, table)
    ensures FieldingOf(FieldingOuts(items), table)
  {
    forall e ensures e in FieldingOuts(items) <==> e in table && table[e] > 0 {
      FieldingOutsAre(items, e);
      if e in table {
        var k :| 0 <= k < |items| && items[k] == (e, table[e]);
      }
    }
  }

  // ----- the rendered expressions -----

  /** `sql_event_outs`: one `IN` list per out count. */
  function SqlEventOuts(groups: seq<(int, seq<string>)>): Expr {
    if groups == [] then Lit(Int(0))
    else When(InList(Col(Events), groups[0].1), Lit(Int(groups[0].0)), SqlEventOuts(groups[1..]))
  }

  /** `sql_hidden_runner_out`. */
  function SqlHiddenRunnerOut(fielding: seq<string>): Expr {
    When(And(Eq(Col(Type), Lit(Text("X"))),
             Or(IsNull(Col(Events)), Not(InList(Col(Events), fielding)))),
         Lit(Int(1)), Lit(Int(0)))
  }

  /** `sql_play_outs`. */
  function SqlPlayOuts(groups: seq<(int, seq<string>)>, fielding: seq<string>): Expr {
    Plus(SqlEventOuts(groups), SqlHiddenRunnerOut(fielding))
  }

  /** `COALESCE(column, FALSE)`. */
  function Flag(c: Column): Expr {
    Coalesce(Col(c), Lit(Bool(false)))
  }

  /** `sql_cs_out`. */
  function SqlCsOut(): Expr {
    When(And(And(And(And(
             Or(Or(Flag(SbAttempt(ToSecond)), Flag(SbAttempt(ToThird))), Flag(SbAttempt(ToHome))),
             Not(Flag(SbSuccess(ToSecond)))), Not(Flag(SbSuccess(ToThird)))), Not(Flag(SbSuccess(ToHome)))),
             Or(IsNull(Col(Events)), Not(InList(Col(Events), STEAL_OUT_EVENTS)))),
         Lit(Int(1)), Lit(Int(0)))
  }

  /** `sql_outs_recorded`. */
  function SqlOutsRecorded(groups: seq<(int, seq<string>)>, fielding: seq<string>): Expr {
    Plus(SqlPlayOuts(groups, fielding), SqlCsOut())
  }

  /** `sql_runner_dest`. */
  function SqlRunnerDest(base: Base): Expr {
    var r := Col(On(base));
    When(IsNull(r), Lit(Null),
    When(Flag(Scored(base)), Lit(Int(4)),
    When(Eq(Col(PostOn(Third)), r), Lit(Int(3)),
    When(Eq(Col(PostOn(Second)), r), Lit(Int(2)),
    When(Eq(Col(PostOn(First)), r), Lit(Int(1)),
    Lit(Int(0)))))))
  }

  /** The play's runs exceed the named runner-scored flags. */
  function ExtraRun(): Expr {
    Greater(Coalesce(Col(RunsOnPitch), Lit(Int(0))),
            Plus(Plus(AsInt(Flag(Scored(First))), AsInt(Flag(Scored(Second)))),
                 AsInt(Flag(Scored(Third)))))
  }

  /** `sql_batter_dest`. */
  function SqlBatterDest(): Expr {
    var b := Col(Batter);
    When(Eq(Col(PostOn(First)), b), Lit(Int(1)),
    When(Eq(Col(PostOn(Second)), b), Lit(Int(2)),
    When(Eq(Col(PostOn(Third)), b), Lit(Int(3)),
    When(Eq(Col(Events), Lit(Text("home_run"))), Lit(Int(4)),
    When(ExtraRun(), Lit(Int(4)),
    Lit(Int(0)))))))
  }

  /** `sql_steal_attempt`; `caught` and `stolen` are the two event names of the base. */
  function SqlStealAttempt(target: StealBase, caught: string, stolen: string): Expr {
    Or(Flag(SbAttempt(target)), Coalesce(InList(Col(Events), [caught, stolen]), Lit(Bool(false))))
  }

  // ----- what they mean -----

  /** One step of evaluation at a branch. */
  lemma {:induction false} EvalWhen(test: Expr, result: Value, otherwise: Expr, row: Row)
    ensures Eval(When(test, Lit(result), otherwise), row)
            == if Eval(test, row) == Bool(true) then result else Eval(otherwise, row)
  {
  }

  lemma {:induction false} EvalLit(v: Value, row: Row)
    ensures Eval(Lit(v), row) == v
  {
  }

  /** `COALESCE(flag, FALSE)` is true exactly on a true flag, and never NULL. */
  lemma EvalFlag(c: Column, row: Row)
    requires BoolOrNull(row(c))
    ensures Eval(Flag(c), row) == Bool(row(c) == Bool(true))
  {
  }

  lemma {:induction false} EvalEq(a: Column, b: Column, row: Row)
    ensures Eval(Eq(Col(a), Col(b)), row) == Bool(true) <==> row(a) != Null && row(a) == row(b)
  {
  }

  /** `events IS NULL OR events NOT IN (...)`. */
  lemma EvalUnlisted(members: seq<string>, row: Row)
    requires TextOrNull(row(Events))
    ensures Eval(Or(IsNull(Col(Events)), Not(InList(Col(Events), members))), row)
            == Bool(!(row(Events).Text? && row(Events).s in members))
  {
    var listed := InList(Col(Events), members);
    assert Eval(listed, row) == (if row(Events).Text? then Bool(row(Events).s in members) else Null);
    assert Eval(Not(listed), row) == NotValue(Eval(listed, row));
    assert Eval(IsNull(Col(Events)), row) == Bool(row(Events) == Null);
  }

  lemma {:induction false} EvalAnd(l: Expr, r: Expr, row: Row)
    requires Eval(l, row).Bool? && Eval(r, row).Bool?
    ensures Eval(And(l, r), row) == Bool(Eval(l, row).b && Eval(r, row).b)
  {
  }

  lemma {:induction false} EvalOr(l: Expr, r: Expr, row: Row)
    requires Eval(l, row).Bool? && Eval(r, row).Bool?
    ensures Eval(Or(l, r), row) == Bool(Eval(l, row).b || Eval(r, row).b)
  {
  }

  lemma {:induction false} EvalAsInt(e: Expr, row: Row)
    requires Eval(e, row).Bool?
    ensures Eval(AsInt(e), row) == Int(if Eval(e, row).b then 1 else 0)
  {
  }

  lemma {:induction false} EvalPlus(l: Expr, r: Expr, row: Row)
    requires Eval(l, row).Int? && Eval(r, row).Int?
    ensures Eval(Plus(l, r), row) == Int(Eval(l, row).i + Eval(r, row).i)
  {
  }

  lemma {:induction false} EvalGreater(l: Expr, r: Expr, row: Row)
    requires Eval(l, row).Int? && Eval(r, row).Int?
    ensures Eval(Greater(l, r), row) == Bool(Eval(l, row).i > Eval(r, row).i)
  {
  }

  lemma {:induction false} EvalNot(e: Expr, row: Row)
    requires Eval(e, row).Bool?
    ensures Eval(Not(e), row) == Bool(!Eval(e, row).b)
  {
  }

  /** `sql_hidden_runner_out`: an X-typed play whose event counts no out. */
  lemma HiddenRunnerOutMeans(fielding: seq<string>, row: Row)
    requires Typed(row)
    ensures Eval(SqlHiddenRunnerOut(fielding), row) ==
            Int(if row(Type) == Text("X") && !(row(Events).Text? && row(Events).s in fielding) then 1 else 0)
  {
    var isX := Eq(Col(Type), Lit(Text("X")));
    var unlisted := Or(IsNull(Col(Events)), Not(InList(Col(Events), fielding)));
    EvalUnlisted(fielding, row);
    assert Eval(isX, row) == (if row(Type) == Null then Null else Bool(row(Type) == Text("X")));
    assert Eval(And(isX, unlisted), row) == AndValue(Eval(isX, row), Eval(unlisted, row));
    EvalWhen(And(isX, unlisted), Int(1), Lit(Int(0)), row);
  }

  ghost predicate InGroup(groups: seq<(int, seq<string>)>, row: Row, h: int) {
    0 <= h < |groups| && row(Events).Text? && row(Events).s in groups[h].1
  }

  /** The branches of `sql_event_outs` from `g` on: the first group holding the event, if any. */
  lemma {:induction false} EventOutsFrom(groups: seq<(int, seq<string>)>, g: nat, row: Row) returns (found: nat)
    requires g <= |groups| && TextOrNull(row(Events))
    ensures g <= found <= |groups| && forall h | g <= h < found :: !InGroup(groups, row, h)
    ensures found < |groups| ==> InGroup(groups, row, found)
    ensures Eval(SqlEventOuts(groups[g..]), row) == Int(if found < |groups| then groups[found].0 else 0)
    decreases |groups| - g
  {
    found := g;
    if g < |groups| {
      assert groups[g..][0] == groups[g] && groups[g..][1..] == groups[g + 1..];
      var listed := InList(Col(Events), groups[g].1);
      assert Eval(listed, row) == if row(Events).Text? then Bool(row(Events).s in groups[g].1) else Null;
      EvalWhen(listed, Int(groups[g].0), SqlEventOuts(groups[g + 1..]), row);
      if !InGroup(groups, row, g) {
        found := EventOutsFrom(groups, g + 1, row);
      }
    }
  }

  /** `sql_event_outs` reads the table's positive counts. */
  lemma {:induction false} EventOutsMeans(groups: seq<(int, seq<string>)>, table: map<string, int>, row: Row)
    requires GroupsOf(groups, table) && Typed(row)
    ensures var event := row(Events);
      Eval(SqlEventOuts(groups), row) ==
      Int(if event.Text? && event.s in table && table[event.s] > 0 then table[event.s] else 0)
  {
    hide Eval, SqlEventOuts;
    var found := EventOutsFrom(groups, 0, row);
    assert groups[0..] == groups;
    var event := row(Events);
    if event.Text? && event.s in table && table[event.s] > 0 {
      var g :| 0 <= g < |groups| && groups[g].0 == table[event.s];
      assert event.s in groups[g].1;
      assert InGroup(groups, row, g);
    }
  }

  /** The SQL and the Python read the same play outs, on every event and type code, NULLs
      included, exactly when the event's count in the table is not negative. */
  lemma PlayOutsAgree(groups: seq<(int, seq<string>)>, fielding: seq<string>,
                      table: map<string, int>, row: Row)
    requires GroupsOf(groups, table) && FieldingOf(fielding, table) && Typed(row)
    ensures Eval(SqlPlayOuts(groups, fielding), row) == Int(PlayOuts(table, row(Events), row(Type)))
            <==> !(row(Events).Text? && row(Events).s in table && table[row(Events).s] < 0)
    ensures Eval(SqlPlayOuts(groups, fielding), row).Int?
  {
    hide GroupsOf, SqlEventOuts, SqlHiddenRunnerOut;
    EventOutsMeans(groups, table, row);
    HiddenRunnerOutMeans(fielding, row);
    assert Eval(SqlPlayOuts(groups, fielding), row)
        == Int(Eval(SqlEventOuts(groups), row).i + Eval(SqlHiddenRunnerOut(fielding), row).i);
  }

  lemma VocabularyCounts(e: string)
    ensures e in PLAY_OUTS_BY_EVENT ==> 0 <= PLAY_OUTS_BY_EVENT[e] <= 3
  {
  }

  lemma StealsCountOne(i: nat)
    requires i < 3
    ensures STEAL_OUT_EVENTS[i] in PLAY_OUTS_BY_EVENT && PLAY_OUTS_BY_EVENT[STEAL_OUT_EVENTS[i]] == 1
  {
  }

  lemma PickoffsCountOne(i: nat)
    requires 3 <= i < 6
    ensures STEAL_OUT_EVENTS[i] in PLAY_OUTS_BY_EVENT && PLAY_OUTS_BY_EVENT[STEAL_OUT_EVENTS[i]] == 1
  {
  }

  lemma StrikeoutDoublePlayCountsTwo()
    ensures STEAL_OUT_EVENTS[6] in PLAY_OUTS_BY_EVENT && PLAY_OUTS_BY_EVENT[STEAL_OUT_EVENTS[6]] == 2
  {
  }

  /** Every event that stands for a steal out counts one or two in the table. */
  lemma StealOutsCount(e: string)
    requires e in STEAL_OUT_EVENTS
    ensures e in PLAY_OUTS_BY_EVENT && 1 <= PLAY_OUTS_BY_EVENT[e] <= 2
  {
    hide PLAY_OUTS_BY_EVENT;
    var i :| 0 <= i < |STEAL_OUT_EVENTS| && STEAL_OUT_EVENTS[i] == e;
    if i < 3 {
      StealsCountOne(i);
    } else if i < 6 {
      PickoffsCountOne(i);
    } else {
      StrikeoutDoublePlayCountsTwo();
    }
  }

  /** With the measured vocabulary, a play records 0 to 3 outs in either reading, and they
      are the same number. */
  lemma PlayOutsInRange(groups: seq<(int, seq<string>)>, fielding: seq<string>, row: Row)
    requires GroupsOf(groups, PLAY_OUTS_BY_EVENT) && FieldingOf(fielding, PLAY_OUTS_BY_EVENT) && Typed(row)
    ensures Eval(SqlPlayOuts(groups, fielding), row) == Int(PlayOuts(PLAY_OUTS_BY_EVENT, row(Events), row(Type)))
    ensures 0 <= PlayOuts(PLAY_OUTS_BY_EVENT, row(Events), row(Type)) <= 3
  {
    hide GroupsOf, FieldingOf, SqlPlayOuts, PLAY_OUTS_BY_EVENT;
    PlayOutsAgree(groups, fielding, PLAY_OUTS_BY_EVENT, row);
    if row(Events).Text? {
      VocabularyCounts(row(Events).s);
    }
  }

  ghost predicate CaughtStealing(row: Row) {
    && (exists t :: row(SbAttempt(t)) == Bool(true))
    && (forall t :: row(SbSuccess(t)) != Bool(true))
    && !(row(Events).Text? && row(Events).s in STEAL_OUT_EVENTS)
  }

  lemma AttemptedMeans(row: Row)
    requires Typed(row)
    ensures Eval(Or(Or(Flag(SbAttempt(ToSecond)), Flag(SbAttempt(ToThird))), Flag(SbAttempt(ToHome))), row)
            == Bool(exists t :: row(SbAttempt(t)) == Bool(true))
  {
    hide Eval, Flag;
    var second, third, home := Flag(SbAttempt(ToSecond)), Flag(SbAttempt(ToThird)), Flag(SbAttempt(ToHome));
    EvalFlag(SbAttempt(ToSecond), row);
    EvalFlag(SbAttempt(ToThird), row);
    EvalFlag(SbAttempt(ToHome), row);
    EvalOr(second, third, row);
    EvalOr(Or(second, third), home, row);
    if t :| row(SbAttempt(t)) == Bool(true) {
      assert t == ToSecond || t == ToThird || t == ToHome;
    }
  }

  lemma NoSuccess(row: Row)
    ensures (forall t :: row(SbSuccess(t)) != Bool(true)) <==>
            row(SbSuccess(ToSecond)) != Bool(true) && row(SbSuccess(ToThird)) != Bool(true)
            && row(SbSuccess(ToHome)) != Bool(true)
  {
    if t :| row(SbSuccess(t)) == Bool(true) {
      assert t == ToSecond || t == ToThird || t == ToHome;
    }
  }

  /** `sql_cs_out` is 1 exactly on an attempt with no success whose event counts no steal
      out, and 0, never NULL, on every other row. */
  lemma CsOutMeans(row: Row)
    requires Typed(row)
    ensures Eval(SqlCsOut(), row) == Int(if CaughtStealing(row) then 1 else 0)
  {
    hide Eval, Flag, STEAL_OUT_EVENTS;
    var attempted := Or(Or(Flag(SbAttempt(ToSecond)), Flag(SbAttempt(ToThird))), Flag(SbAttempt(ToHome)));
    var second, third, home := Flag(SbSuccess(ToSecond)), Flag(SbSuccess(ToThird)), Flag(SbSuccess(ToHome));
    var unlisted := Or(IsNull(Col(Events)), Not(InList(Col(Events), STEAL_OUT_EVENTS)));
    AttemptedMeans(row);
    NoSuccess(row);
    EvalUnlisted(STEAL_OUT_EVENTS, row);
    EvalFlag(SbSuccess(ToSecond), row);
    EvalFlag(SbSuccess(ToThird), row);
    EvalFlag(SbSuccess(ToHome), row);
    EvalNot(second, row);
    EvalNot(third, row);
    EvalNot(home, row);
    var a1 := And(attempted, Not(second));
    var a2 := And(a1, Not(third));
    var a3 := And(a2, Not(home));
    EvalAnd(attempted, Not(second), row);
    EvalAnd(a1, Not(third), row);
    EvalAnd(a2, Not(home), row);
    EvalAnd(a3, unlisted, row);
    EvalWhen(And(a3, unlisted), Int(1), Lit(Int(0)), row);
    EvalLit(Int(0), row);
  }

  /** A row whose event already counts a steal out is counted once: the total is the
      event's own count, whatever the steal columns and the type code say. */
  lemma StealOutsCountedOnce(groups: seq<(int, seq<string>)>, fielding: seq<string>, row: Row)
    requires GroupsOf(groups, PLAY_OUTS_BY_EVENT) && FieldingOf(fielding, PLAY_OUTS_BY_EVENT) && Typed(row)
    requires row(Events).Text? && row(Events).s in STEAL_OUT_EVENTS
    ensures row(Events).s in PLAY_OUTS_BY_EVENT
    ensures Eval(SqlOutsRecorded(groups, fielding), row) == Int(PLAY_OUTS_BY_EVENT[row(Events).s])
  {
    hide GroupsOf, FieldingOf, SqlPlayOuts, SqlCsOut, PLAY_OUTS_BY_EVENT, STEAL_OUT_EVENTS;
    assert Eval(SqlOutsRecorded(groups, fielding), row)
        == Int(Eval(SqlPlayOuts(groups, fielding), row).i + Eval(SqlCsOut(), row).i) by {
      PlayOutsInRange(groups, fielding, row);
      CsOutMeans(row);
    }
    StealOutsCount(row(Events).s);
    PlayOutsInRange(groups, fielding, row);
    CsOutMeans(row);
  }

  /** NULL-safe: never NULL, and true exactly when the column or the event says so. */
  lemma StealAttemptMeans(target: StealBase, caught: string, stolen: string, row: Row)
    requires Typed(row)
    ensures Eval(SqlStealAttempt(target, caught, stolen), row) ==
            Bool(row(SbAttempt(target)) == Bool(true) || row(Events) == Text(caught) || row(Events) == Text(stolen))
  {
    EvalFlag(SbAttempt(target), row);
    var named := InList(Col(Events), [caught, stolen]);
    assert Eval(named, row) == (if row(Events).Text? then Bool(row(Events).s in [caught, stolen]) else Null);
    var safe := Coalesce(named, Lit(Bool(false)));
    assert Eval(safe, row) == Bool(row(Events) == Text(caught) || row(Events) == Text(stolen)) by {
      assert Eval(safe, row) == (if Eval(named, row) == Null then Eval(Lit(Bool(false)), row) else Eval(named, row));
    }
    EvalOr(Flag(SbAttempt(target)), safe, row);
  }

  // ----- destinations rebuild the bases -----

  /** Who stands on the field before the pitch. */
  datatype Body = Runner(base: Base) | Hitter

  function Id(row: Row, body: Body): Value {
    match body case Runner(b) => row(On(b)) case Hitter => row(Batter)
  }

  function Dest(row: Row, body: Body): Value {
    match body case Runner(b) => Eval(SqlRunnerDest(b), row) case Hitter => Eval(SqlBatterDest(), row)
  }

  function Number(base: Base): int {
    match base case First => 1 case Second => 2 case Third => 3
  }

  /** The occupant the destinations put on a base. */
  function Rebuilt(row: Row, base: Base): Value {
    var n := Int(Number(base));
    if Dest(row, Runner(First)) == n then Id(row, Runner(First))
    else if Dest(row, Runner(Second)) == n then Id(row, Runner(Second))
    else if Dest(row, Runner(Third)) == n then Id(row, Runner(Third))
    else if Dest(row, Hitter) == n then Id(row, Hitter)
    else Null
  }

  /** One person is one body. */
  ghost predicate Distinct(row: Row) {
    forall a, b | a != b && Id(row, a) != Null :: Id(row, a) != Id(row, b)
  }

  /** Every post-play occupant is one of the four, no one stands on two bases, and no
      runner flagged as scored stands on one. */
  ghost predicate Sound(row: Row) {
    && (forall base | row(PostOn(base)) != Null :: exists body :: Id(row, body) == row(PostOn(base)))
    && (forall a, b | a != b && row(PostOn(a)) != Null :: row(PostOn(a)) != row(PostOn(b)))
    && (forall a, b | row(Scored(a)) == Bool(true) && row(On(a)) != Null :: row(PostOn(b)) != row(On(a)))
  }

  /** `sql_runner_dest`, branch by branch. */
  lemma RunnerDestMeans(row: Row, base: Base)
    requires Typed(row)
    ensures var r := row(On(base));
      Eval(SqlRunnerDest(base), row) ==
      if r == Null then Null
      else if row(Scored(base)) == Bool(true) then Int(4)
      else if row(PostOn(Third)) == r then Int(3)
      else if row(PostOn(Second)) == r then Int(2)
      else if row(PostOn(First)) == r then Int(1)
      else Int(0)
  {
    var r := Col(On(base));
    assert Eval(IsNull(r), row) == Bool(row(On(base)) == Null);
    EvalFlag(Scored(base), row);
    EvalEq(PostOn(Third), On(base), row);
    EvalEq(PostOn(Second), On(base), row);
    EvalEq(PostOn(First), On(base), row);
    hide Eval, Flag;
    EvalLit(Int(0), row);
    var first := When(Eq(Col(PostOn(First)), r), Lit(Int(1)), Lit(Int(0)));
    var second := When(Eq(Col(PostOn(Second)), r), Lit(Int(2)), first);
    var third := When(Eq(Col(PostOn(Third)), r), Lit(Int(3)), second);
    var scored := When(Flag(Scored(base)), Lit(Int(4)), third);
    EvalWhen(Eq(Col(PostOn(First)), r), Int(1), Lit(Int(0)), row);
    EvalWhen(Eq(Col(PostOn(Second)), r), Int(2), first, row);
    EvalWhen(Eq(Col(PostOn(Third)), r), Int(3), second, row);
    EvalWhen(Flag(Scored(base)), Int(4), third, row);
    EvalWhen(IsNull(r), Null, scored, row);
  }

  /** The runs the named runners scored. */
  function ScoredRunners(row: Row): int {
    (if row(Scored(First)) == Bool(true) then 1 else 0)
    + (if row(Scored(Second)) == Bool(true) then 1 else 0)
    + (if row(Scored(Third)) == Bool(true) then 1 else 0)
  }

  lemma ExtraRunMeans(row: Row)
    requires Typed(row)
    ensures Eval(ExtraRun(), row) ==
            Bool((if row(RunsOnPitch) == Null then 0 else row(RunsOnPitch).i) > ScoredRunners(row))
  {
    var first, second, third := Flag(Scored(First)), Flag(Scored(Second)), Flag(Scored(Third));
    EvalFlag(Scored(First), row);
    EvalFlag(Scored(Second), row);
    EvalFlag(Scored(Third), row);
    var runs := Coalesce(Col(RunsOnPitch), Lit(Int(0)));
    assert Eval(runs, row) == Int(if row(RunsOnPitch) == Null then 0 else row(RunsOnPitch).i);
    hide Flag, Eval;
    EvalAsInt(first, row);
    EvalAsInt(second, row);
    EvalAsInt(third, row);
    EvalPlus(AsInt(first), AsInt(second), row);
    EvalPlus(Plus(AsInt(first), AsInt(second)), AsInt(third), row);
    EvalGreater(runs, Plus(Plus(AsInt(first), AsInt(second)), AsInt(third)), row);
  }

  /** `sql_batter_dest`, branch by branch: on a base, scored on a home run or on a run no
      named runner accounts for, or out. */
  lemma BatterDestMeans(row: Row)
    requires Typed(row)
    ensures var b := row(Batter);
      Eval(SqlBatterDest(), row) ==
      if row(PostOn(First)) == b then Int(1)
      else if row(PostOn(Second)) == b then Int(2)
      else if row(PostOn(Third)) == b then Int(3)
      else if row(Events) == Text("home_run")
           || (if row(RunsOnPitch) == Null then 0 else row(RunsOnPitch).i) > ScoredRunners(row) then Int(4)
      else Int(0)
  {
    var b := Col(Batter);
    EvalEq(PostOn(First), Batter, row);
    EvalEq(PostOn(Second), Batter, row);
    EvalEq(PostOn(Third), Batter, row);
    ExtraRunMeans(row);
    var homeRun := Eq(Col(Events), Lit(Text("home_run")));
    assert Eval(homeRun, row) == Bool(true) <==> row(Events) == Text("home_run");
    hide Eval, Flag, ExtraRun, ScoredRunners;
    EvalLit(Int(0), row);
    var byRuns := When(ExtraRun(), Lit(Int(4)), Lit(Int(0)));
    var scored := When(homeRun, Lit(Int(4)), byRuns);
    var third := When(Eq(Col(PostOn(Third)), b), Lit(Int(3)), scored);
    var second := When(Eq(Col(PostOn(Second)), b), Lit(Int(2)), third);
    EvalWhen(ExtraRun(), Int(4), Lit(Int(0)), row);
    EvalWhen(homeRun, Int(4), byRuns, row);
    EvalWhen(Eq(Col(PostOn(Third)), b), Int(3), scored, row);
    EvalWhen(Eq(Col(PostOn(Second)), b), Int(2), third, row);
    EvalWhen(Eq(Col(PostOn(First)), b), Int(1), second, row);
  }

  /** A body sent to a base stands there. */
  lemma SentStandsThere(row: Row, body: Body, base: Base)
    requires Typed(row) && Dest(row, body) == Int(Number(base))
    ensures row(PostOn(base)) == Id(row, body) && Id(row, body) != Null
    ensures body.Runner? ==> row(Scored(body.base)) != Bool(true)
  {
    hide Eval, SqlRunnerDest, SqlBatterDest;
    if body.Runner? {
      RunnerDestMeans(row, body.base);
    } else {
      BatterDestMeans(row);
    }
  }

  /** A body standing on one base only, and not flagged as scored, is sent there. */
  lemma StandingIsSent(row: Row, body: Body, base: Base)
    requires Typed(row) && Sound(row)
    requires Id(row, body) != Null && row(PostOn(base)) == Id(row, body)
    ensures Dest(row, body) == Int(Number(base))
  {
    hide Eval, SqlRunnerDest, SqlBatterDest;
    assert forall other | other != base :: row(PostOn(other)) != Id(row, body);
    if body.Runner? {
      RunnerDestMeans(row, body.base);
      assert row(Scored(body.base)) != Bool(true);
    } else {
      BatterDestMeans(row);
    }
  }

  lemma RebuiltIsSent(row: Row, base: Base) returns (body: Body)
    requires Typed(row) && Rebuilt(row, base) != Null
    ensures Dest(row, body) == Int(Number(base)) && Id(row, body) == Rebuilt(row, base)
  {
    hide Dest;
    var n := Int(Number(base));
    body := if Dest(row, Runner(First)) == n then Runner(First)
            else if Dest(row, Runner(Second)) == n then Runner(Second)
            else if Dest(row, Runner(Third)) == n then Runner(Third) else Hitter;
  }

  /** With four distinct bodies, the four destinations rebuild the post-play bases exactly
      when the row is sound. */
  lemma DestinationsRebuildBases(row: Row)
    requires Typed(row) && Distinct(row)
    ensures (forall base :: Rebuilt(row, base) == row(PostOn(base))) <==> Sound(row)
  {
    if Sound(row) {
      forall base ensures Rebuilt(row, base) == row(PostOn(base)) {
        SoundRebuilds(row, base);
      }
    }
    if forall base :: Rebuilt(row, base) == row(PostOn(base)) {
      RebuildsMeansSound(row);
    }
  }

  lemma SoundRebuilds(row: Row, base: Base)
    requires Typed(row) && Distinct(row) && Sound(row)
    ensures Rebuilt(row, base) == row(PostOn(base))
  {
    hide Dest;
    if row(PostOn(base)) != Null {
      var body :| Id(row, body) == row(PostOn(base));
      StandingIsSent(row, body, base);
      forall other | Dest(row, other) == Int(Number(base)) ensures other == body {
        SentStandsThere(row, other, base);
      }
    } else {
      forall other ensures Dest(row, other) != Int(Number(base)) {
        if Dest(row, other) == Int(Number(base)) {
          SentStandsThere(row, other, base);
        }
      }
    }
  }

  lemma RebuildsMeansSound(row: Row)
    requires Typed(row) && Distinct(row)
    requires forall base :: Rebuilt(row, base) == row(PostOn(base))
    ensures Sound(row)
  {
    hide Dest, Rebuilt;
    forall base | row(PostOn(base)) != Null
      ensures exists body :: Id(row, body) == row(PostOn(base))
    {
      var body := OccupantIsSent(row, base);
    }
    forall a, b | a != b && row(PostOn(a)) != Null ensures row(PostOn(a)) != row(PostOn(b)) {
      var x := OccupantIsSent(row, a);
      if row(PostOn(b)) != Null {
        var y := OccupantIsSent(row, b);
        assert x != y;
        assert Id(row, x) != Id(row, y);
      }
    }
    forall a, b | row(Scored(a)) == Bool(true) && row(On(a)) != Null ensures row(PostOn(b)) != row(On(a)) {
      if row(PostOn(b)) != Null {
        var x := OccupantIsSent(row, b);
        SentStandsThere(row, x, b);
        assert x != Runner(a);
        assert Id(row, Runner(a)) == row(On(a));
      }
    }
  }

  lemma OccupantIsSent(row: Row, base: Base) returns (body: Body)
    requires Typed(row) && row(PostOn(base)) != Null
    requires forall b :: Rebuilt(row, b) == row(PostOn(b))
    ensures Id(row, body) == row(PostOn(base)) && Dest(row, body) == Int(Number(base))
  {
    hide Dest, Rebuilt;
    assert Rebuilt(row, base) == row(PostOn(base));
    body := RebuiltIsSent(row, base);
  }
}
