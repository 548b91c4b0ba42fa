/** What every derived stat counts, row by row, in the labels of the query. */
module BoxscoreStats {
  import opened Helpers
  import opened Boxscore
  import opened BoxscoreLaws

  /** The sum of `f` over the rows. */
  function Tally<T>(rows: seq<T>, f: T -> int): int {
    if rows == [] then 0 else Tally(rows[..|rows| - 1], f) + f(rows[|rows| - 1])
  }

  lemma {:induction false} CreditedTally<T(!new)>(rows: seq<T>, give: T -> seq<Credit>, key: Key, stat: Stat,
          f: T -> int)
    requires forall row: T :: Sum(give(row), key, stat) == f(row)
    ensures Sum(Credited(rows, give), key, stat) == Tally(rows, f)
  {
    hide Sum;
    if rows == [] {
      EmptySum(key, stat);
    } else {
      var before, row := rows[..|rows| - 1], rows[|rows| - 1];
      CreditedTally(before, give, key, stat, f);
      SumConcat(Credited(before, give), give(row), key, stat);
    }
  }

  lemma {:induction false} EmptySum(key: Key, stat: Stat)
    ensures Sum([], key, stat) == 0
  {
  }

  // ----- who has a line -----

  lemma {:induction false} CreditedNames<T(!new)>(rows: seq<T>, give: T -> seq<Credit>, key: Key, names: T -> bool)
    requires forall row: T :: Names(give(row), key) <==> names(row)
    ensures Names(Credited(rows, give), key) <==> exists i :: 0 <= i < |rows| && names(rows[i])
  {
    hide Names;
    if rows == [] {
      NoNames(key);
    } else {
      var before, row := rows[..|rows| - 1], rows[|rows| - 1];
      CreditedNames(before, give, key, names);
      NamesConcat(Credited(before, give), give(row), key);
      assert forall i | 0 <= i < |before| :: before[i] == rows[i];
      assert row == rows[|before|];
    }
  }

  lemma NoNames(key: Key)
    ensures !Names([], key)
  {
  }

  lemma PitcherNames(row: PitchRow, key: Key)
    ensures Names(PitcherCredits(row), key) <==> row.game == key.0 && row.pitcher == Some(key.1)
  {
    var cs := PitcherCredits(row);
    assert cs[3].who == KeyOf(row.game, row.pitcher);
  }

  lemma PlayNames(play: PlayRow, key: Key)
    ensures Names(PlayCredits(play), key) <==> play.game == key.0 && play.pitcher == Some(key.1)
  {
    var cs := PlayCredits(play);
    assert cs[0].who == KeyOf(play.game, play.pitcher);
  }

  /** A pitcher has a line exactly when a row or a play of the game names him. */
  lemma PitchersListed(rows: seq<PitchRow>, plays: seq<PlayRow>, game: int, p: int)
    ensures (game, p) in PitchersOf(rows, plays) <==>
            || (exists i :: 0 <= i < |rows| && rows[i].game == game && rows[i].pitcher == Some(p))
            || (exists i :: 0 <= i < |plays| && plays[i].game == game && plays[i].pitcher == Some(p))
  {
    hide Names, PitchersOf, Sum, Credited;
    var key := (game, p);
    forall row: PitchRow ensures Names(PitcherCredits(row), key) <==> row.game == game && row.pitcher == Some(p) {
      PitcherNames(row, key);
    }
    forall play: PlayRow ensures Names(PlayCredits(play), key) <==> play.game == game && play.pitcher == Some(p) {
      PlayNames(play, key);
    }
    CreditedNames(rows, PitcherCredits, key, (row: PitchRow) => row.game == game && row.pitcher == Some(p));
    CreditedNames(plays, PlayCredits, key, (play: PlayRow) => play.game == game && play.pitcher == Some(p));
    NamesConcat(PitchCredits(rows), EventCredits(plays), key);
    PitchersHold(rows, plays);
  }

  /** The row gives the man a batter's line: he bats, or he is on a base with a run or a steal. */
  predicate OnTheRow(row: PitchRow, game: int, p: int) {
    && row.game == game
    && (row.batter == Some(p)
        || (row.on[0] == Some(p) && (row.scored[0] || row.stole[0]))
        || (row.on[1] == Some(p) && (row.scored[1] || row.stole[1]))
        || (row.on[2] == Some(p) && (row.scored[2] || row.stole[2])))
  }

  lemma NamesFour(cs: seq<Credit>, key: Key)
    requires |cs| == 4
    ensures Names(cs, key) <==>
            cs[0].who == Some(key) || cs[1].who == Some(key) || cs[2].who == Some(key) || cs[3].who == Some(key)
  {
  }

  lemma BatterNames(row: PitchRow, key: Key)
    ensures Names(BatterCredits(row), key) <==> OnTheRow(row, key.0, key.1)
  {
    hide Names;
    NamesFour(HitCredits(row), key);
    NamesFour(RunCredits(row), key);
    NamesFour(StealCredits(row), key);
    NamesConcat(HitCredits(row), RunCredits(row), key);
    NamesConcat(HitCredits(row) + RunCredits(row), StealCredits(row), key);
  }

  lemma BattersListed(rows: seq<PitchRow>, game: int, p: int)
    ensures (game, p) in BattersOf(rows) <==> exists i :: 0 <= i < |rows| && OnTheRow(rows[i], game, p)
  {
    hide Names, BattersOf, Sum, Credited, OnTheRow;
    var key := (game, p);
    forall row: PitchRow ensures Names(BatterCredits(row), key) <==> OnTheRow(row, game, p) {
      BatterNames(row, key);
    }
    CreditedNames(rows, BatterCredits, key, (row: PitchRow) => OnTheRow(row, game, p));
    BattersHold(rows);
  }

  // ----- the pitchers' stats -----

  lemma {:induction false} SumFive(a: Credit, b: Credit, c: Credit, d: Credit, e: Credit, key: Key, stat: Stat)
    ensures Sum([a, b, c] + [d, e], key, stat)
            == Amount(a, key, stat) + Amount(b, key, stat) + Amount(c, key, stat)
             + Amount(d, key, stat) + Amount(e, key, stat)
  {
    hide Amount;
    var all := [a, b, c] + [d, e];
    assert all[..4] == [a, b, c, d];
    SumFour(a, b, c, d, key, stat);
  }

  lemma {:induction false} SumThree(a: Credit, b: Credit, c: Credit, key: Key, stat: Stat)
    ensures Sum([a, b, c], key, stat) == Amount(a, key, stat) + Amount(b, key, stat) + Amount(c, key, stat)
  {
    hide Amount;
    assert [a, b, c][..2] == [a, b] && [a, b][..1] == [a] && [a][..0] == [];
    assert Sum([a], key, stat) == Amount(a, key, stat);
    assert Sum([a, b], key, stat) == Amount(a, key, stat) + Amount(b, key, stat);
  }

  /** What one pitch row counts for a pitcher. */
  function PitcherGets(row: PitchRow, game: int, p: int, stat: Stat): int {
    if row.game != game || row.pitcher != Some(p) then 0
    else
      match stat
      case K => if row.event in ["strikeout", "strikeout_double_play"] then 1 else 0
      case BB => if row.event in ["walk", "intent_walk"] then 1 else 0
      case HAllowed => if row.event in ["single", "double", "triple", "home_run"] then 1 else 0
      case Outs => row.outs
      case ER => row.earned
      case _ => 0
  }

  /** What one play row counts for a pitcher. */
  function PlayGets(play: PlayRow, game: int, p: int, stat: Stat): int {
    if play.game != game || play.pitcher != Some(p) then 0
    else
      match stat
      case BB => if play.intentWalk then 1 else 0
      case Outs => if play.isOut then 1 else 0
      case _ => 0
  }

  lemma {:induction false} PitcherRow(row: PitchRow, key: Key, stat: Stat)
    requires stat in PITCHER_STATS
    ensures Sum(PitcherCredits(row), key, stat) == PitcherGets(row, key.0, key.1, stat)
  {
    hide Sum;
    var cs := PitcherCredits(row);
    SumFive(cs[0], cs[1], cs[2], cs[3], cs[4], key, stat);
    assert cs == [cs[0], cs[1], cs[2]] + [cs[3], cs[4]];
  }

  lemma {:induction false} PlayRowGets(play: PlayRow, key: Key, stat: Stat)
    requires stat in PITCHER_STATS
    ensures Sum(PlayCredits(play), key, stat) == PlayGets(play, key.0, key.1, stat)
  {
    hide Sum;
    var cs := PlayCredits(play);
    SumThree(cs[0], cs[1], cs[2], key, stat);
    assert cs == [cs[0], cs[1], cs[2]];
  }

  /** Every stat of every pitcher of a game, counted over the rows and the plays. */
  lemma {:induction false} PitcherLine(rows: seq<PitchRow>, plays: seq<PlayRow>, game: int, p: int, stat: Stat)
    requires (game, p) in PitchersOf(rows, plays) && stat in {K, BB, HAllowed, Outs, ER}
    ensures PitchersOf(rows, plays)[(game, p)].Keys == {K, BB, HAllowed, Outs, ER}
    ensures PitchersOf(rows, plays)[(game, p)][stat]
         == Tally(rows, (row: PitchRow) => PitcherGets(row, game, p, stat))
          + Tally(plays, (play: PlayRow) => PlayGets(play, game, p, stat))
  {
    hide PitchersOf, Sum, Credited, PitcherGets, PlayGets, PitcherCredits, PlayCredits;
    var key := (game, p);
    forall row: PitchRow ensures Sum(PitcherCredits(row), key, stat) == PitcherGets(row, game, p, stat) {
      PitcherRow(row, key, stat);
    }
    forall play: PlayRow ensures Sum(PlayCredits(play), key, stat) == PlayGets(play, game, p, stat) {
      PlayRowGets(play, key, stat);
    }
    CreditedTally(rows, PitcherCredits, key, stat, (row: PitchRow) => PitcherGets(row, game, p, stat));
    CreditedTally(plays, PlayCredits, key, stat, (play: PlayRow) => PlayGets(play, game, p, stat));
    SumConcat(PitchCredits(rows), EventCredits(plays), key, stat);
    PitchersHold(rows, plays);
    assert Value(PitchersOf(rows, plays), key, stat) == Sum(AllPitcherCredits(rows, plays), key, stat);
  }

  // ----- the batters' stats -----

  function One(b: bool): int { if b then 1 else 0 }

  /** The runs no flagged runner accounts for, when there are any. */
  function OwnRunsOf(row: PitchRow): int {
    var left := row.runs - One(row.scored[0]) - One(row.scored[1]) - One(row.scored[2]);
    if left > 0 then left else 0
  }

  /** What one pitch row counts for a batter or a runner. */
  function BatterGets(row: PitchRow, game: int, p: int, stat: Stat): int {
    var bats := row.batter == Some(p);
    if row.game != game then 0
    else
      match stat
      case H => One(bats && row.event in ["single", "double", "triple", "home_run"])
      case Singles => One(bats && row.event == "single")
      case Doubles => One(bats && row.event == "double")
      case Triples => One(bats && row.event == "triple")
      case HR => One(bats && row.event == "home_run")
      case TB =>
        One(bats && row.event == "single") + 2 * One(bats && row.event == "double")
        + 3 * One(bats && row.event == "triple") + 4 * One(bats && row.event == "home_run")
      case R =>
        One(row.scored[0] && row.on[0] == Some(p)) + One(row.scored[1] && row.on[1] == Some(p))
        + One(row.scored[2] && row.on[2] == Some(p)) + if bats then OwnRunsOf(row) else 0
      case SB =>
        One(row.stole[0] && row.on[0] == Some(p)) + One(row.stole[1] && row.on[1] == Some(p))
        + One(row.stole[2] && row.on[2] == Some(p))
      case RBI => if bats then row.rbis else 0
      case _ => 0
  }

  lemma {:induction false} HitRow(row: PitchRow, key: Key, stat: Stat)
    requires stat in {H, HR, TB, Singles, Doubles, Triples}
    ensures Sum(HitCredits(row), key, stat) == BatterGets(row, key.0, key.1, stat)
  {
    hide Sum;
    var h := HitCredits(row);
    SumFour(h[0], h[1], h[2], h[3], key, stat);
    assert h == [h[0], h[1], h[2], h[3]];
  }

  lemma {:induction false} RunRow(row: PitchRow, key: Key, stat: Stat)
    requires stat in {R, SB, RBI}
    ensures Sum(RunCredits(row), key, stat) == if stat == R then BatterGets(row, key.0, key.1, R) else 0
  {
    hide Sum;
    var r := RunCredits(row);
    SumFour(r[0], r[1], r[2], r[3], key, stat);
    assert r == [r[0], r[1], r[2], r[3]];
  }

  lemma {:induction false} StealRow(row: PitchRow, key: Key, stat: Stat)
    requires stat in {R, SB, RBI}
    ensures Sum(StealCredits(row), key, stat) == if stat == R then 0 else BatterGets(row, key.0, key.1, stat)
  {
    hide Sum;
    var s := StealCredits(row);
    SumFour(s[0], s[1], s[2], s[3], key, stat);
    assert s == [s[0], s[1], s[2], s[3]];
  }

  lemma {:induction false} NoHits(row: PitchRow, key: Key, stat: Stat)
    requires stat in {R, SB, RBI}
    ensures Sum(HitCredits(row), key, stat) == 0
  {
    hide Sum;
    var h := HitCredits(row);
    SumFour(h[0], h[1], h[2], h[3], key, stat);
    assert h == [h[0], h[1], h[2], h[3]];
  }

  lemma {:induction false} BatterRow(row: PitchRow, key: Key, stat: Stat)
    requires stat in BATTER_STATS
    ensures Sum(BatterCredits(row), key, stat) == BatterGets(row, key.0, key.1, stat)
  {
    hide BatterGets, Sum, HitCredits, RunCredits, StealCredits;
    if stat in {R, SB, RBI} {
      ShareParts(row, key, stat);
      NoHits(row, key, stat);
      RunRow(row, key, stat);
      StealRow(row, key, stat);
    } else {
      HitShare(row, key, stat);
      HitRow(row, key, stat);
    }
  }

  /** Every stat of every batter and runner of a game, counted over the rows. */
  lemma {:induction false} BatterLine(rows: seq<PitchRow>, game: int, p: int, stat: Stat)
    requires (game, p) in BattersOf(rows) && stat in {H, HR, TB, Singles, Doubles, Triples, R, SB, RBI}
    ensures BattersOf(rows)[(game, p)].Keys == {H, HR, TB, Singles, Doubles, Triples, R, SB, RBI}
    ensures BattersOf(rows)[(game, p)][stat] == Tally(rows, (row: PitchRow) => BatterGets(row, game, p, stat))
  {
    hide BattersOf, Sum, Credited, BatterGets, BatterCredits;
    var key := (game, p);
    forall row: PitchRow ensures Sum(BatterCredits(row), key, stat) == BatterGets(row, game, p, stat) {
      BatterRow(row, key, stat);
    }
    CreditedTally(rows, BatterCredits, key, stat, (row: PitchRow) => BatterGets(row, game, p, stat));
    BattersHold(rows);
    assert Value(BattersOf(rows), key, stat) == Sum(AllBatterCredits(rows), key, stat);
  }
}
