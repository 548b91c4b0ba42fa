/** Player totals derived from pitch rows (scripts/boxscore_audit.py, `derive_totals` and the
    chunked loop of `run`).

    The totals are dictionaries of dictionaries. Every update adds to one stat of one
    player-game, so a run is a list of credits, and what the loop leaves is, per player-game
    and stat, the sum of its credits. */
module Boxscore {
  import opened Helpers

  datatype Stat = H | HR | TB | Singles | Doubles | Triples | R | SB | RBI | K | BB | HAllowed | Outs | ER

  /** A player-game: game, then player. */
  type Key = (int, int)

  type Totals = map<Key, map<Stat, int>>

  /** First, second and third base. */
  type Runners = s: seq<Option<int>> | |s| == 3 witness [None, None, None]

  type Flags = s: seq<bool> | |s| == 3 witness [false, false, false]

  /** A row of the pitch query. `event` is the stripped lower-case label, empty when NULL. */
  datatype PitchRow = PitchRow(
    game: int, batter: Option<int>, pitcher: Option<int>, event: string,
    on: Runners, scored: Flags, stole: Flags,
    runs: int, rbis: int, earned: int, outs: int)

  /** A row of the play-event query. */
  datatype PlayRow = PlayRow(game: int, pitcher: Option<int>, isOut: bool, intentWalk: bool)

  const BATTER_STATS: set<Stat> := {H, HR, TB, Singles, Doubles, Triples, R, SB, RBI}
  const PITCHER_STATS: set<Stat> := {K, BB, HAllowed, Outs, ER}

  // ----- credits -----

  /** `who[stat] += n`, or nothing when the row names no such player. */
  datatype Credit = Credit(who: Option<Key>, stat: Stat, n: int)

  function Blank(stats: set<Stat>): map<Stat, int> {
    map s | s in stats :: 0
  }

  /** `totals.setdefault(key, blank)[stat] += n`. */
  function Add(totals: Totals, stats: set<Stat>, c: Credit): Totals {
    match c.who
    case None => totals
    case Some(key) =>
      var line := if key in totals then totals[key] else Blank(stats);
      totals[key := line[c.stat := (if c.stat in line then line[c.stat] else 0) + c.n]]
  }

  function Apply(totals: Totals, stats: set<Stat>, cs: seq<Credit>): Totals {
    if cs == [] then totals else Add(Apply(totals, stats, cs[..|cs| - 1]), stats, cs[|cs| - 1])
  }

  function Value(totals: Totals, key: Key, stat: Stat): int {
    if key in totals && stat in totals[key] then totals[key][stat] else 0
  }

  function Amount(c: Credit, key: Key, stat: Stat): int {
    if c.who == Some(key) && c.stat == stat then c.n else 0
  }

  /** What a list of credits gives one stat of one player-game. */
  function Sum(cs: seq<Credit>, key: Key, stat: Stat): int {
    if cs == [] then 0 else Sum(cs[..|cs| - 1], key, stat) + Amount(cs[|cs| - 1], key, stat)
  }

  ghost predicate Names(cs: seq<Credit>, key: Key) {
    exists i :: 0 <= i < |cs| && cs[i].who == Some(key)
  }

  ghost predicate StatsIn(cs: seq<Credit>, stats: set<Stat>) {
    forall i | 0 <= i < |cs| :: cs[i].stat in stats
  }

  /** The totals hold exactly the named player-games, each with every stat of its kind, and
      the sums of their credits. */
  ghost predicate Holds(totals: Totals, stats: set<Stat>, cs: seq<Credit>) {
    && (forall key :: key in totals <==> Names(cs, key))
    && (forall key | key in totals :: totals[key].Keys == stats)
    && (forall key, stat :: Value(totals, key, stat) == Sum(cs, key, stat))
  }

  lemma {:induction false} ApplyHolds(stats: set<Stat>, cs: seq<Credit>)
    requires StatsIn(cs, stats)
    ensures Holds(Apply(map[], stats, cs), stats, cs)
  {
    if cs != [] {
      var before, c := cs[..|cs| - 1], cs[|cs| - 1];
      ApplyHolds(stats, before);
      AddHolds(Apply(map[], stats, before), stats, before, c);
      assert before + [c] == cs;
    }
  }

  lemma NamesGrows(cs: seq<Credit>, c: Credit, key: Key)
    ensures Names(cs + [c], key) <==> Names(cs, key) || c.who == Some(key)
  {
    var more := cs + [c];
    if i :| 0 <= i < |cs| && cs[i].who == Some(key) {
      assert more[i].who == Some(key);
    }
    if c.who == Some(key) {
      assert more[|cs|].who == Some(key);
    }
  }

  lemma AddHolds(totals: Totals, stats: set<Stat>, cs: seq<Credit>, c: Credit)
    requires Holds(totals, stats, cs) && c.stat in stats
    ensures Holds(Add(totals, stats, c), stats, cs + [c])
  {
    var after := Add(totals, stats, c);
    forall key ensures key in after <==> Names(cs + [c], key) {
      NamesGrows(cs, c, key);
    }
    forall key, stat ensures Value(after, key, stat) == Sum(cs + [c], key, stat) {
      assert (cs + [c])[..|cs|] == cs;
      assert Value(totals, key, stat) == Sum(cs, key, stat);
    }
  }

  /** Totals are determined by what they hold. */
  lemma {:induction false} HoldsDetermines(a: Totals, b: Totals, stats: set<Stat>, cs: seq<Credit>, ds: seq<Credit>)
    requires Holds(a, stats, cs) && Holds(b, stats, ds)
    requires forall key :: Names(cs, key) <==> Names(ds, key)
    requires forall key, stat :: Sum(cs, key, stat) == Sum(ds, key, stat)
    ensures a == b
  {
    hide Sum, Names;
    forall key ensures key in a <==> key in b {
      assert key in a <==> Names(cs, key);
      assert key in b <==> Names(ds, key);
    }
    forall key | key in a ensures a[key] == b[key] {
      assert a[key].Keys == stats && b[key].Keys == stats;
      forall stat | stat in stats ensures a[key][stat] == b[key][stat] {
        assert Value(a, key, stat) == Value(b, key, stat);
      }
    }
    assert a.Keys == b.Keys;
  }

  lemma {:induction false} SumConcat(cs: seq<Credit>, ds: seq<Credit>, key: Key, stat: Stat)
    ensures Sum(cs + ds, key, stat) == Sum(cs, key, stat) + Sum(ds, key, stat)
  {
    if ds == [] {
      assert cs + ds == cs;
    } else {
      SumConcat(cs, ds[..|ds| - 1], key, stat);
      assert (cs + ds)[..|cs + ds| - 1] == cs + ds[..|ds| - 1];
    }
  }

  lemma NamesConcat(cs: seq<Credit>, ds: seq<Credit>, key: Key)
    ensures Names(cs + ds, key) <==> Names(cs, key) || Names(ds, key)
  {
    var all := cs + ds;
    if i :| 0 <= i < |cs| && cs[i].who == Some(key) {
      assert all[i].who == Some(key);
    }
    if i :| 0 <= i < |ds| && ds[i].who == Some(key) {
      assert all[|cs| + i].who == Some(key);
    }
    if i :| 0 <= i < |all| && all[i].who == Some(key) {
      assert i < |cs| ==> cs[i].who == Some(key);
      assert i >= |cs| ==> ds[i - |cs|].who == Some(key);
    }
  }

  lemma {:induction false} ApplyConcat(totals: Totals, stats: set<Stat>, cs: seq<Credit>, ds: seq<Credit>)
    ensures Apply(totals, stats, cs + ds) == Apply(Apply(totals, stats, cs), stats, ds)
  {
    if ds == [] {
      assert cs + ds == cs;
    } else {
      ApplyConcat(totals, stats, cs, ds[..|ds| - 1]);
      assert (cs + ds)[..|cs + ds| - 1] == cs + ds[..|ds| - 1];
    }
  }

  // ----- what one row credits -----

  function HitBases(event: string): int {
    if event == "single" then 1
    else if event == "double" then 2
    else if event == "triple" then 3
    else if event == "home_run" then 4
    else 0
  }

  function HitStat(event: string): Stat {
    if event == "single" then Singles
    else if event == "double" then Doubles
    else if event == "triple" then Triples
    else HR
  }

  predicate IsHit(row: PitchRow) { HitBases(row.event) > 0 }

  predicate IsStrikeout(row: PitchRow) {
    row.event == "strikeout" || row.event == "strikeout_double_play"
  }

  predicate IsWalk(row: PitchRow) { row.event == "walk" || row.event == "intent_walk" }

  function KeyOf(game: int, player: Option<int>): Option<Key> {
    if player.Some? then Some((game, player.value)) else None
  }

  /** The player credited when a condition holds. */
  function If(condition: bool, who: Option<Key>): Option<Key> {
    if condition then who else None
  }

  function Flagged(row: PitchRow): int {
    (if row.scored[0] then 1 else 0) + (if row.scored[1] then 1 else 0) + (if row.scored[2] then 1 else 0)
  }

  /** The batter's own runs: those no flagged runner accounts for. */
  function OwnRuns(row: PitchRow): int {
    row.runs - Flagged(row)
  }

  function HitCredits(row: PitchRow): seq<Credit> {
    var b := KeyOf(row.game, row.batter);
    [Credit(b, H, 0),
     Credit(If(IsHit(row), b), H, 1),
     Credit(If(IsHit(row), b), TB, HitBases(row.event)),
     Credit(If(IsHit(row), b), HitStat(row.event), 1)]
  }

  function RunCredits(row: PitchRow): seq<Credit> {
    [Credit(If(row.scored[0], KeyOf(row.game, row.on[0])), R, 1),
     Credit(If(row.scored[1], KeyOf(row.game, row.on[1])), R, 1),
     Credit(If(row.scored[2], KeyOf(row.game, row.on[2])), R, 1),
     Credit(If(OwnRuns(row) > 0, KeyOf(row.game, row.batter)), R, OwnRuns(row))]
  }

  function StealCredits(row: PitchRow): seq<Credit> {
    [Credit(If(row.stole[0], KeyOf(row.game, row.on[0])), SB, 1),
     Credit(If(row.stole[1], KeyOf(row.game, row.on[1])), SB, 1),
     Credit(If(row.stole[2], KeyOf(row.game, row.on[2])), SB, 1),
     Credit(KeyOf(row.game, row.batter), RBI, row.rbis)]
  }

  function BatterCredits(row: PitchRow): seq<Credit> {
    HitCredits(row) + RunCredits(row) + StealCredits(row)
  }

  function PitcherCredits(row: PitchRow): seq<Credit> {
    var p := KeyOf(row.game, row.pitcher);
    [Credit(If(IsHit(row), p), HAllowed, 1),
     Credit(If(IsStrikeout(row), p), K, 1),
     Credit(If(!IsStrikeout(row) && IsWalk(row), p), BB, 1)]
    + [Credit(p, ER, row.earned), Credit(p, Outs, row.outs)]
  }

  function PlayCredits(row: PlayRow): seq<Credit> {
    var p := KeyOf(row.game, row.pitcher);
    [Credit(p, Outs, 0), Credit(If(row.isOut, p), Outs, 1), Credit(If(row.intentWalk, p), BB, 1)]
  }

  /** What a list of rows credits, row by row. */
  function Credited<T>(rows: seq<T>, give: T -> seq<Credit>): seq<Credit> {
    if rows == [] then [] else Credited(rows[..|rows| - 1], give) + give(rows[|rows| - 1])
  }

  function AllBatterCredits(rows: seq<PitchRow>): seq<Credit> {
    Credited(rows, BatterCredits)
  }

  function PitchCredits(rows: seq<PitchRow>): seq<Credit> {
    Credited(rows, PitcherCredits)
  }

  function EventCredits(plays: seq<PlayRow>): seq<Credit> {
    Credited(plays, PlayCredits)
  }

  function AllPitcherCredits(rows: seq<PitchRow>, plays: seq<PlayRow>): seq<Credit> {
    PitchCredits(rows) + EventCredits(plays)
  }

  function BattersOf(rows: seq<PitchRow>): Totals {
    Apply(map[], BATTER_STATS, AllBatterCredits(rows))
  }

  function PitchersOf(rows: seq<PitchRow>, plays: seq<PlayRow>): Totals {
    Apply(map[], PITCHER_STATS, AllPitcherCredits(rows, plays))
  }

  lemma {:induction false} ApplyThree(t: Totals, stats: set<Stat>, a: Credit, b: Credit, c: Credit)
    ensures Apply(t, stats, [a, b, c]) == Add(Add(Add(t, stats, a), stats, b), stats, c)
  {
    hide Add;
    assert [a, b, c][..2] == [a, b] && [a, b][..1] == [a] && [a][..0] == [];
    assert Apply(t, stats, []) == t;
    assert Apply(t, stats, [a]) == Add(t, stats, a);
    assert Apply(t, stats, [a, b]) == Add(Add(t, stats, a), stats, b);
  }

  lemma {:induction false} ApplyFour(t: Totals, stats: set<Stat>, a: Credit, b: Credit, c: Credit, d: Credit)
    ensures Apply(t, stats, [a, b, c, d]) == Add(Add(Add(Add(t, stats, a), stats, b), stats, c), stats, d)
  {
    hide Add;
    ApplyThree(t, stats, a, b, c);
    assert [a, b, c, d][..3] == [a, b, c];
  }

  // ----- the loops -----

  method CreditHit(totals: Totals, row: PitchRow) returns (batters: Totals)
    ensures batters == Apply(totals, BATTER_STATS, HitCredits(row))
  {
    var b := KeyOf(row.game, row.batter);
    batters := Add(totals, BATTER_STATS, Credit(b, H, 0));
    if IsHit(row) {
      batters := Add(batters, BATTER_STATS, Credit(b, H, 1));
      batters := Add(batters, BATTER_STATS, Credit(b, TB, HitBases(row.event)));
      batters := Add(batters, BATTER_STATS, Credit(b, HitStat(row.event), 1));
    }
    var hit := If(IsHit(row), b);
    ApplyFour(totals, BATTER_STATS, Credit(b, H, 0), Credit(hit, H, 1),
              Credit(hit, TB, HitBases(row.event)), Credit(hit, HitStat(row.event), 1));
  }

  /** `for base in ("1b", "2b", "3b")`: the flagged runners, then the batter's own runs. */
  method CreditRuns(totals: Totals, row: PitchRow) returns (batters: Totals)
    ensures batters == Apply(totals, BATTER_STATS, RunCredits(row))
  {
    hide Add;
    batters := totals;
    var flagged := 0;
    var base := 0;
    while base < 3
      invariant 0 <= base <= 3
      invariant flagged == (if base > 0 && row.scored[0] then 1 else 0)
                         + (if base > 1 && row.scored[1] then 1 else 0)
                         + (if base > 2 && row.scored[2] then 1 else 0)
      invariant batters == Apply(totals, BATTER_STATS, RunCredits(row)[..base])
    {
      assert RunCredits(row)[..base + 1][..base] == RunCredits(row)[..base];
      if row.scored[base] {
        flagged := flagged + 1;
        batters := Add(batters, BATTER_STATS, Credit(KeyOf(row.game, row.on[base]), R, 1));
      } else {
        AddNobody(batters, BATTER_STATS, R, 1);
      }
      base := base + 1;
    }
    assert RunCredits(row)[..4] == RunCredits(row) && RunCredits(row)[..4][..3] == RunCredits(row)[..3];
    var own := row.runs - flagged;
    if own > 0 {
      batters := Add(batters, BATTER_STATS, Credit(KeyOf(row.game, row.batter), R, own));
    } else {
      AddNobody(batters, BATTER_STATS, R, own);
    }
  }

  lemma AddNobody(totals: Totals, stats: set<Stat>, stat: Stat, n: int)
    ensures Add(totals, stats, Credit(None, stat, n)) == totals
  {
  }

  method CreditSteals(totals: Totals, row: PitchRow) returns (batters: Totals)
    ensures batters == Apply(totals, BATTER_STATS, StealCredits(row))
  {
    hide Add;
    batters := totals;
    var base := 0;
    while base < 3
      invariant 0 <= base <= 3
      invariant batters == Apply(totals, BATTER_STATS, StealCredits(row)[..base])
    {
      assert StealCredits(row)[..base + 1][..base] == StealCredits(row)[..base];
      if row.stole[base] {
        batters := Add(batters, BATTER_STATS, Credit(KeyOf(row.game, row.on[base]), SB, 1));
      } else {
        AddNobody(batters, BATTER_STATS, SB, 1);
      }
      base := base + 1;
    }
    assert StealCredits(row)[..4] == StealCredits(row) && StealCredits(row)[..4][..3] == StealCredits(row)[..3];
    batters := Add(batters, BATTER_STATS, Credit(KeyOf(row.game, row.batter), RBI, row.rbis));
  }

  method CreditPitcher(totals: Totals, row: PitchRow) returns (pitchers: Totals)
    ensures pitchers == Apply(totals, PITCHER_STATS, PitcherCredits(row))
  {
    hide Add;
    var p := KeyOf(row.game, row.pitcher);
    pitchers := totals;
    if IsHit(row) {
      pitchers := Add(pitchers, PITCHER_STATS, Credit(p, HAllowed, 1));
    }
    if IsStrikeout(row) {
      pitchers := Add(pitchers, PITCHER_STATS, Credit(p, K, 1));
    } else if IsWalk(row) {
      pitchers := Add(pitchers, PITCHER_STATS, Credit(p, BB, 1));
    }
    var hit, strikeout := Credit(If(IsHit(row), p), HAllowed, 1), Credit(If(IsStrikeout(row), p), K, 1);
    var walk := Credit(If(!IsStrikeout(row) && IsWalk(row), p), BB, 1);
    AddNobody(totals, PITCHER_STATS, HAllowed, 1);
    var afterHit := Add(totals, PITCHER_STATS, hit);
    AddNobody(afterHit, PITCHER_STATS, K, 1);
    AddNobody(Add(afterHit, PITCHER_STATS, strikeout), PITCHER_STATS, BB, 1);
    ApplyThree(totals, PITCHER_STATS, hit, strikeout, walk);
    assert pitchers == Apply(totals, PITCHER_STATS, [hit, strikeout, walk]);
    pitchers := Add(pitchers, PITCHER_STATS, Credit(p, ER, row.earned));
    pitchers := Add(pitchers, PITCHER_STATS, Credit(p, Outs, row.outs));
    var tail := [Credit(p, ER, row.earned), Credit(p, Outs, row.outs)];
    ApplyConcat(totals, PITCHER_STATS, [hit, strikeout, walk], tail);
    ApplyTwo(Apply(totals, PITCHER_STATS, [hit, strikeout, walk]), PITCHER_STATS, tail[0], tail[1]);
  }

  lemma {:induction false} ApplyTwo(t: Totals, stats: set<Stat>, a: Credit, b: Credit)
    ensures Apply(t, stats, [a, b]) == Add(Add(t, stats, a), stats, b)
  {
    hide Add;
    assert [a, b][..1] == [a] && [a][..0] == [];
    assert Apply(t, stats, [a]) == Add(t, stats, a);
  }

  method DeriveTotals(rows: seq<PitchRow>, plays: seq<PlayRow>) returns (batters: Totals, pitchers: Totals)
    ensures batters == BattersOf(rows) && pitchers == PitchersOf(rows, plays)
  {
    hide Apply, HitCredits, RunCredits, StealCredits, PitcherCredits, PlayCredits;
    batters, pitchers := map[], map[];
    ApplyNothing(map[], BATTER_STATS);
    ApplyNothing(map[], PITCHER_STATS);
    var i := 0;
    while i < |rows|
      invariant 0 <= i <= |rows|
      invariant batters == Apply(map[], BATTER_STATS, AllBatterCredits(rows[..i]))
      invariant pitchers == Apply(map[], PITCHER_STATS, PitchCredits(rows[..i]))
    {
      var row := rows[i];
      assert rows[..i + 1][..i] == rows[..i];
      pitchers := CreditPitcher(pitchers, row);
      batters := CreditHit(batters, row);
      batters := CreditRuns(batters, row);
      batters := CreditSteals(batters, row);
      ApplyBatter(AllBatterCredits(rows[..i]), row);
      ApplyConcat(map[], PITCHER_STATS, PitchCredits(rows[..i]), PitcherCredits(row));
      i := i + 1;
    }
    assert rows[..i] == rows;
    var j := 0;
    ghost var pitched := pitchers;
    ApplyNothing(pitched, PITCHER_STATS);
    while j < |plays|
      invariant 0 <= j <= |plays|
      invariant batters == BattersOf(rows)
      invariant pitchers == Apply(pitched, PITCHER_STATS, EventCredits(plays[..j]))
    {
      assert plays[..j + 1][..j] == plays[..j];
      var play := plays[j];
      ApplyConcat(pitched, PITCHER_STATS, EventCredits(plays[..j]), PlayCredits(play));
      pitchers := CreditPlay(pitchers, play);
      j := j + 1;
    }
    assert plays[..j] == plays;
    ApplyConcat(map[], PITCHER_STATS, PitchCredits(rows), EventCredits(plays));
  }

  lemma {:induction false} ApplyNothing(totals: Totals, stats: set<Stat>)
    ensures Apply(totals, stats, []) == totals
  {
  }

  lemma {:induction false} ApplyBatter(before: seq<Credit>, row: PitchRow)
    ensures Apply(map[], BATTER_STATS, before + BatterCredits(row)) ==
            Apply(Apply(Apply(Apply(map[], BATTER_STATS, before), BATTER_STATS, HitCredits(row)),
                        BATTER_STATS, RunCredits(row)), BATTER_STATS, StealCredits(row))
  {
    hide Apply, HitCredits, RunCredits, StealCredits;
    var t := Apply(map[], BATTER_STATS, before);
    ApplyConcat(map[], BATTER_STATS, before, BatterCredits(row));
    ApplyConcat(t, BATTER_STATS, HitCredits(row) + RunCredits(row), StealCredits(row));
    ApplyConcat(t, BATTER_STATS, HitCredits(row), RunCredits(row));
  }

  /** A play with no pitcher is skipped. */
  method CreditPlay(totals: Totals, play: PlayRow) returns (pitchers: Totals)
    ensures pitchers == Apply(totals, PITCHER_STATS, PlayCredits(play))
  {
    hide Add;
    var p := KeyOf(play.game, play.pitcher);
    pitchers := totals;
    var seen, out := Credit(p, Outs, 0), Credit(If(play.isOut, p), Outs, 1);
    var walk := Credit(If(play.intentWalk, p), BB, 1);
    ApplyThree(totals, PITCHER_STATS, seen, out, walk);
    AddNobody(totals, PITCHER_STATS, Outs, 0);
    AddNobody(totals, PITCHER_STATS, Outs, 1);
    AddNobody(totals, PITCHER_STATS, BB, 1);
    if play.pitcher.None? {
      return;
    }
    pitchers := Add(pitchers, PITCHER_STATS, seen);
    AddNobody(pitchers, PITCHER_STATS, Outs, 1);
    if play.isOut {
      pitchers := Add(pitchers, PITCHER_STATS, out);
    }
    AddNobody(pitchers, PITCHER_STATS, BB, 1);
    if play.intentWalk {
      pitchers := Add(pitchers, PITCHER_STATS, walk);
    }
  }
}
