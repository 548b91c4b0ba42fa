/** What the derived player totals keep: the identities of a batter's line and the balances
    of a game. */
module BoxscoreLaws {
  import opened Helpers
  import opened Boxscore

  // ----- a batter's line -----

  lemma {:induction false} SumFour(a: Credit, b: Credit, c: Credit, d: Credit, key: Key, stat: Stat)
    ensures Sum([a, b, c, d], key, stat)
            == Amount(a, key, stat) + Amount(b, key, stat) + Amount(c, key, stat) + Amount(d, key, stat)
  {
    assert [a, b, c, d][..3] == [a, b, c] && [a, b, c][..2] == [a, b] && [a, b][..1] == [a] && [a][..0] == [];
    assert Sum([a], key, stat) == Amount(a, key, stat);
    assert Sum([a, b], key, stat) == Amount(a, key, stat) + Amount(b, key, stat);
  }

  /** What one row gives a player-game. */
  function Share(row: PitchRow, key: Key, stat: Stat): int {
    Sum(BatterCredits(row), key, stat)
  }

  lemma {:induction false} ShareParts(row: PitchRow, key: Key, stat: Stat)
    ensures Share(row, key, stat) ==
            Sum(HitCredits(row), key, stat) + Sum(RunCredits(row), key, stat) + Sum(StealCredits(row), key, stat)
  {
    SumConcat(HitCredits(row) + RunCredits(row), StealCredits(row), key, stat);
    SumConcat(HitCredits(row), RunCredits(row), key, stat);
  }

  /** Only the hit credits touch the hit stats. */
  lemma {:induction false} HitShare(row: PitchRow, key: Key, stat: Stat)
    requires stat !in {R, SB, RBI}
    ensures Share(row, key, stat) == Sum(HitCredits(row), key, stat)
  {
    ShareParts(row, key, stat);
    var r, s := RunCredits(row), StealCredits(row);
    SumFour(r[0], r[1], r[2], r[3], key, stat);
    SumFour(s[0], s[1], s[2], s[3], key, stat);
    assert r == [r[0], r[1], r[2], r[3]] && s == [s[0], s[1], s[2], s[3]];
  }

  lemma RowIdentities(row: PitchRow, key: Key)
    ensures Share(row, key, H) == Share(row, key, Singles) + Share(row, key, Doubles)
                                + Share(row, key, Triples) + Share(row, key, HR)
    ensures Share(row, key, TB) == Share(row, key, Singles) + 2 * Share(row, key, Doubles)
                                 + 3 * Share(row, key, Triples) + 4 * Share(row, key, HR)
  {
    hide Share;
    var h := HitCredits(row);
    assert h == [h[0], h[1], h[2], h[3]];
    forall stat | stat in {H, TB, Singles, Doubles, Triples, HR}
      ensures Share(row, key, stat) == Amount(h[0], key, stat) + Amount(h[1], key, stat)
                                     + Amount(h[2], key, stat) + Amount(h[3], key, stat)
    {
      HitShare(row, key, stat);
      SumFour(h[0], h[1], h[2], h[3], key, stat);
    }
  }

  lemma {:induction false} LineIdentities(rows: seq<PitchRow>, key: Key)
    ensures var cs := AllBatterCredits(rows);
      && Sum(cs, key, H) == Sum(cs, key, Singles) + Sum(cs, key, Doubles) + Sum(cs, key, Triples) + Sum(cs, key, HR)
      && Sum(cs, key, TB) == Sum(cs, key, Singles) + 2 * Sum(cs, key, Doubles)
                           + 3 * Sum(cs, key, Triples) + 4 * Sum(cs, key, HR)
  {
    hide BatterCredits;
    if rows != [] {
      var before, row := rows[..|rows| - 1], rows[|rows| - 1];
      LineIdentities(before, key);
      RowIdentities(row, key);
      forall stat ensures Sum(AllBatterCredits(rows), key, stat)
                          == Sum(AllBatterCredits(before), key, stat) + Share(row, key, stat)
      {
        SumConcat(AllBatterCredits(before), BatterCredits(row), key, stat);
      }
    }
  }

  lemma BatterStats(row: PitchRow)
    ensures StatsIn(BatterCredits(row), BATTER_STATS)
  {
    var cs := BatterCredits(row);
    forall i | 0 <= i < |cs| ensures cs[i].stat in BATTER_STATS {
      if i < 4 {
        assert cs[i] == HitCredits(row)[i];
      } else if i < 8 {
        assert cs[i] == RunCredits(row)[i - 4];
      } else {
        assert cs[i] == StealCredits(row)[i - 8];
      }
    }
  }

  lemma {:induction false} AllBatterStats(rows: seq<PitchRow>)
    ensures StatsIn(AllBatterCredits(rows), BATTER_STATS)
  {
    hide BatterCredits;
    if rows != [] {
      AllBatterStats(rows[..|rows| - 1]);
      BatterStats(rows[|rows| - 1]);
    }
  }

  lemma {:induction false} PitchStats(rows: seq<PitchRow>)
    ensures StatsIn(PitchCredits(rows), PITCHER_STATS)
  {
    if rows != [] {
      PitchStats(rows[..|rows| - 1]);
    }
  }

  lemma {:induction false} EventStats(plays: seq<PlayRow>)
    ensures StatsIn(EventCredits(plays), PITCHER_STATS)
  {
    if plays != [] {
      EventStats(plays[..|plays| - 1]);
    }
  }

  lemma BattersHold(rows: seq<PitchRow>)
    ensures Holds(BattersOf(rows), BATTER_STATS, AllBatterCredits(rows))
  {
    AllBatterStats(rows);
    ApplyHolds(BATTER_STATS, AllBatterCredits(rows));
  }

  lemma PitchersHold(rows: seq<PitchRow>, plays: seq<PlayRow>)
    ensures Holds(PitchersOf(rows, plays), PITCHER_STATS, AllPitcherCredits(rows, plays))
  {
    PitchStats(rows);
    EventStats(plays);
    ApplyHolds(PITCHER_STATS, AllPitcherCredits(rows, plays));
  }

  /** Every batter's line keeps H = 1B + 2B + 3B + HR and TB = 1B + 2*2B + 3*3B + 4*HR. */
  lemma BatterIdentities(rows: seq<PitchRow>, key: Key)
    requires key in BattersOf(rows)
    ensures BattersOf(rows)[key].Keys == BATTER_STATS
    ensures var line := BattersOf(rows)[key];
      && line[H] == line[Singles] + line[Doubles] + line[Triples] + line[HR]
      && line[TB] == line[Singles] + 2 * line[Doubles] + 3 * line[Triples] + 4 * line[HR]
  {
    hide BattersOf, AllBatterCredits, Sum;
    var totals, cs := BattersOf(rows), AllBatterCredits(rows);
    BattersHold(rows);
    LineIdentities(rows, key);
    assert forall stat | stat in BATTER_STATS :: totals[key][stat] == Value(totals, key, stat);
    assert forall stat :: Value(totals, key, stat) == Sum(cs, key, stat);
  }

  // ----- a game's balance -----

  ghost predicate Distinct(players: seq<int>) {
    forall a, b | 0 <= a < b < |players| :: players[a] != players[b]
  }

  /** The sum of a stat over listed players of a game. */
  function SumOver(totals: Totals, game: int, players: seq<int>, stat: Stat): int {
    if players == [] then 0
    else SumOver(totals, game, players[..|players| - 1], stat) + Value(totals, (game, players[|players| - 1]), stat)
  }

  /** A listing of all of a game's players in the totals, each once. */
  ghost predicate ListsPlayers(players: seq<int>, totals: Totals, game: int) {
    Distinct(players) && forall p | (game, p) in totals :: p in players
  }

  function GameAmount(c: Credit, game: int, stat: Stat): int {
    if c.who.Some? && c.who.value.0 == game && c.stat == stat then c.n else 0
  }

  /** What a list of credits gives one stat over a whole game. */
  function GameSum(cs: seq<Credit>, game: int, stat: Stat): int {
    if cs == [] then 0 else GameSum(cs[..|cs| - 1], game, stat) + GameAmount(cs[|cs| - 1], game, stat)
  }

  function SumOverCredits(cs: seq<Credit>, game: int, players: seq<int>, stat: Stat): int {
    if players == [] then 0
    else SumOverCredits(cs, game, players[..|players| - 1], stat) + Sum(cs, (game, players[|players| - 1]), stat)
  }

  function OneOver(c: Credit, game: int, players: seq<int>, stat: Stat): int {
    if players == [] then 0
    else OneOver(c, game, players[..|players| - 1], stat) + Amount(c, (game, players[|players| - 1]), stat)
  }

  lemma {:induction false} OneOverIsGame(c: Credit, game: int, players: seq<int>, stat: Stat)
    requires Distinct(players)
    ensures OneOver(c, game, players, stat) ==
            if c.who.Some? && c.who.value.0 == game && c.who.value.1 in players && c.stat == stat then c.n else 0
  {
    if players != [] {
      var before, p := players[..|players| - 1], players[|players| - 1];
      OneOverIsGame(c, game, before, stat);
      assert players == before + [p];
      assert p !in before;
    }
  }

  lemma {:induction false} SumOverGrows(cs: seq<Credit>, game: int, players: seq<int>, stat: Stat)
    requires cs != []
    ensures SumOverCredits(cs, game, players, stat) ==
            SumOverCredits(cs[..|cs| - 1], game, players, stat) + OneOver(cs[|cs| - 1], game, players, stat)
  {
    hide Amount;
    if players != [] {
      SumOverGrows(cs, game, players[..|players| - 1], stat);
    }
  }

  lemma {:induction false} NoCredits(game: int, players: seq<int>, stat: Stat)
    ensures SumOverCredits([], game, players, stat) == 0
  {
    if players != [] {
      NoCredits(game, players[..|players| - 1], stat);
    }
  }

  lemma {:induction false} CreditsAddUp(cs: seq<Credit>, game: int, players: seq<int>, stat: Stat)
    requires Distinct(players)
    requires forall p | Names(cs, (game, p)) :: p in players
    ensures SumOverCredits(cs, game, players, stat) == GameSum(cs, game, stat)
  {
    hide SumOverCredits, OneOver, Distinct;
    if cs == [] {
      NoCredits(game, players, stat);
    } else {
      var before, c := cs[..|cs| - 1], cs[|cs| - 1];
      assert before + [c] == cs;
      forall p | Names(before, (game, p)) ensures p in players {
        NamesGrows(before, c, (game, p));
      }
      CreditsAddUp(before, game, players, stat);
      SumOverGrows(cs, game, players, stat);
      OneOverIsGame(c, game, players, stat);
      if c.who.Some? && c.who.value.0 == game {
        var p := c.who.value.1;
        NamesGrows(before, c, (game, p));
        assert c.who == Some((game, p));
        assert p in players;
      }
      assert GameSum(cs, game, stat) == GameSum(before, game, stat) + GameAmount(c, game, stat);
    }
  }

  lemma {:induction false} SumOverIsCredits(totals: Totals, stats: set<Stat>, cs: seq<Credit>,
                                            game: int, players: seq<int>, stat: Stat)
    requires Holds(totals, stats, cs)
    ensures SumOver(totals, game, players, stat) == SumOverCredits(cs, game, players, stat)
  {
    hide Sum, Value;
    if players != [] {
      SumOverIsCredits(totals, stats, cs, game, players[..|players| - 1], stat);
      assert Value(totals, (game, players[|players| - 1]), stat) == Sum(cs, (game, players[|players| - 1]), stat);
    }
  }

  /** The players of a game add up to the game's credits, however they are listed. */
  lemma {:induction false} PlayersAddUp(totals: Totals, stats: set<Stat>, cs: seq<Credit>, game: int,
          players: seq<int>, stat: Stat)
    requires Holds(totals, stats, cs) && ListsPlayers(players, totals, game)
    ensures SumOver(totals, game, players, stat) == GameSum(cs, game, stat)
  {
    hide SumOver, SumOverCredits, GameSum, Sum;
    SumOverIsCredits(totals, stats, cs, game, players, stat);
    forall p | Names(cs, (game, p)) ensures p in players {
      assert (game, p) in totals;
    }
    CreditsAddUp(cs, game, players, stat);
  }

  lemma {:induction false} GameSumConcat(cs: seq<Credit>, ds: seq<Credit>, game: int, stat: Stat)
    ensures GameSum(cs + ds, game, stat) == GameSum(cs, game, stat) + GameSum(ds, game, stat)
  {
    if ds == [] {
      assert cs + ds == cs;
    } else {
      GameSumConcat(cs, ds[..|ds| - 1], game, stat);
      assert (cs + ds)[..|cs + ds| - 1] == cs + ds[..|ds| - 1];
    }
  }

  lemma {:induction false} GameSumThree(a: Credit, b: Credit, c: Credit, game: int, stat: Stat)
    ensures GameSum([a, b, c], game, stat)
            == GameAmount(a, game, stat) + GameAmount(b, game, stat) + GameAmount(c, game, stat)
  {
    assert [a, b, c][..2] == [a, b] && [a, b][..1] == [a] && [a][..0] == [];
    assert GameSum([a], game, stat) == GameAmount(a, game, stat);
  }

  lemma {:induction false} GameSumTwo(a: Credit, b: Credit, game: int, stat: Stat)
    ensures GameSum([a, b], game, stat) == GameAmount(a, game, stat) + GameAmount(b, game, stat)
  {
    assert [a, b][..1] == [a] && [a][..0] == [];
    assert GameSum([a], game, stat) == GameAmount(a, game, stat);
  }

  lemma {:induction false} GameSumFour(a: Credit, b: Credit, c: Credit, d: Credit, game: int, stat: Stat)
    ensures GameSum([a, b, c, d], game, stat)
            == GameAmount(a, game, stat) + GameAmount(b, game, stat)
             + GameAmount(c, game, stat) + GameAmount(d, game, stat)
  {
    GameSumThree(a, b, c, game, stat);
    assert [a, b, c, d][..3] == [a, b, c];
  }

  /** The hit rows of a game that name their batter, and those that name their pitcher. */
  function BatterHits(rows: seq<PitchRow>, game: int): int {
    if rows == [] then 0
    else
      var row := rows[|rows| - 1];
      BatterHits(rows[..|rows| - 1], game) + if row.game == game && IsHit(row) && row.batter.Some? then 1 else 0
  }

  function PitcherHits(rows: seq<PitchRow>, game: int): int {
    if rows == [] then 0
    else
      var row := rows[|rows| - 1];
      PitcherHits(rows[..|rows| - 1], game) + if row.game == game && IsHit(row) && row.pitcher.Some? then 1 else 0
  }

  lemma {:induction false} RowGameSum(row: PitchRow, game: int, stat: Stat)
    ensures GameSum(BatterCredits(row), game, stat) ==
      var h, r, s := HitCredits(row), RunCredits(row), StealCredits(row);
      GameAmount(h[0], game, stat) + GameAmount(h[1], game, stat)
      + GameAmount(h[2], game, stat) + GameAmount(h[3], game, stat)
      + GameAmount(r[0], game, stat) + GameAmount(r[1], game, stat)
      + GameAmount(r[2], game, stat) + GameAmount(r[3], game, stat)
      + GameAmount(s[0], game, stat) + GameAmount(s[1], game, stat)
      + GameAmount(s[2], game, stat) + GameAmount(s[3], game, stat)
  {
    hide GameSum, GameAmount;
    var h, r, s := HitCredits(row), RunCredits(row), StealCredits(row);
    GameSumConcat(h + r, s, game, stat);
    GameSumConcat(h, r, game, stat);
    GameSumFour(h[0], h[1], h[2], h[3], game, stat);
    GameSumFour(r[0], r[1], r[2], r[3], game, stat);
    GameSumFour(s[0], s[1], s[2], s[3], game, stat);
    assert h == [h[0], h[1], h[2], h[3]] && r == [r[0], r[1], r[2], r[3]] && s == [s[0], s[1], s[2], s[3]];
  }

  lemma {:induction false} BatterHitsAdd(rows: seq<PitchRow>, game: int)
    ensures GameSum(AllBatterCredits(rows), game, H) == BatterHits(rows, game)
  {
    hide BatterCredits, GameSum;
    if rows == [] {
      GameSumEmpty(game, H);
    } else {
      var before, row := rows[..|rows| - 1], rows[|rows| - 1];
      BatterHitsAdd(before, game);
      GameSumConcat(AllBatterCredits(before), BatterCredits(row), game, H);
      RowGameSum(row, game, H);
    }
  }

  lemma {:induction false} GameSumEmpty(game: int, stat: Stat)
    ensures GameSum([], game, stat) == 0
  {
  }

  lemma {:induction false} PitcherRowHits(row: PitchRow, game: int)
    ensures GameSum(PitcherCredits(row), game, HAllowed)
            == if row.game == game && IsHit(row) && row.pitcher.Some? then 1 else 0
  {
    var cs := PitcherCredits(row);
    var front, back := cs[..3], cs[3..];
    assert cs == front + back;
    GameSumConcat(front, back, game, HAllowed);
    GameSumThree(cs[0], cs[1], cs[2], game, HAllowed);
    GameSumTwo(cs[3], cs[4], game, HAllowed);
    assert front == [cs[0], cs[1], cs[2]] && back == [cs[3], cs[4]];
  }

  lemma {:induction false} PitcherHitsAdd(rows: seq<PitchRow>, game: int)
    ensures GameSum(PitchCredits(rows), game, HAllowed) == PitcherHits(rows, game)
  {
    hide PitcherCredits;
    if rows != [] {
      var before, row := rows[..|rows| - 1], rows[|rows| - 1];
      PitcherHitsAdd(before, game);
      GameSumConcat(PitchCredits(before), PitcherCredits(row), game, HAllowed);
      PitcherRowHits(row, game);
    }
  }

  lemma {:induction false} EventsAllowNoHits(plays: seq<PlayRow>, game: int)
    ensures GameSum(EventCredits(plays), game, HAllowed) == 0
  {
    hide PlayCredits;
    if plays != [] {
      var before, play := plays[..|plays| - 1], plays[|plays| - 1];
      EventsAllowNoHits(before, game);
      var cs := PlayCredits(play);
      GameSumConcat(EventCredits(before), cs, game, HAllowed);
      PlayAllowsNoHits(play, game);
    }
  }

  lemma {:induction false} PlayAllowsNoHits(play: PlayRow, game: int)
    ensures GameSum(PlayCredits(play), game, HAllowed) == 0
  {
    var cs := PlayCredits(play);
    GameSumThree(cs[0], cs[1], cs[2], game, HAllowed);
    assert cs == [cs[0], cs[1], cs[2]];
  }

  /** In every game the batters' hits are the hit rows that name a batter and the pitchers'
      hits allowed are those that name a pitcher: the two sums agree exactly when as many
      hit rows name the one as the other. */
  lemma {:induction false} HitsBalance(rows: seq<PitchRow>, plays: seq<PlayRow>, game: int, batters: seq<int>,
          pitchers: seq<int>)
    requires ListsPlayers(batters, BattersOf(rows), game)
    requires ListsPlayers(pitchers, PitchersOf(rows, plays), game)
    ensures SumOver(BattersOf(rows), game, batters, H) == BatterHits(rows, game)
    ensures SumOver(PitchersOf(rows, plays), game, pitchers, HAllowed) == PitcherHits(rows, game)
    ensures (forall i | 0 <= i < |rows| && rows[i].game == game && IsHit(rows[i]) ::
               rows[i].batter.Some? && rows[i].pitcher.Some?) ==>
            BatterHits(rows, game) == PitcherHits(rows, game)
  {
    hide BattersOf, PitchersOf, SumOver, GameSum, BatterHits, PitcherHits, Holds, ListsPlayers;
    BattersHold(rows);
    PitchersHold(rows, plays);
    PlayersAddUp(BattersOf(rows), BATTER_STATS, AllBatterCredits(rows), game, batters, H);
    PlayersAddUp(PitchersOf(rows, plays), PITCHER_STATS, AllPitcherCredits(rows, plays), game, pitchers, HAllowed);
    BatterHitsAdd(rows, game);
    PitcherHitsAdd(rows, game);
    EventsAllowNoHits(plays, game);
    GameSumConcat(PitchCredits(rows), EventCredits(plays), game, HAllowed);
    if forall i | 0 <= i < |rows| && rows[i].game == game && IsHit(rows[i]) ::
         rows[i].batter.Some? && rows[i].pitcher.Some? {
      NamedHitsAgree(rows, game);
    }
  }

  lemma {:induction false} NamedHitsAgree(rows: seq<PitchRow>, game: int)
    requires forall i | 0 <= i < |rows| && rows[i].game == game && IsHit(rows[i]) ::
               rows[i].batter.Some? && rows[i].pitcher.Some?
    ensures BatterHits(rows, game) == PitcherHits(rows, game)
  {
    hide IsHit;
    if rows != [] {
      NamedHitsAgree(rows[..|rows| - 1], game);
    }
  }

  // ----- runs -----

  /** The runs a row credits to someone. */
  function CreditedRuns(row: PitchRow): int {
    (if row.scored[0] && row.on[0].Some? then 1 else 0)
    + (if row.scored[1] && row.on[1].Some? then 1 else 0)
    + (if row.scored[2] && row.on[2].Some? then 1 else 0)
    + (if OwnRuns(row) > 0 && row.batter.Some? then OwnRuns(row) else 0)
  }

  function RunsCredited(rows: seq<PitchRow>, game: int): int {
    if rows == [] then 0
    else RunsCredited(rows[..|rows| - 1], game)
         + if rows[|rows| - 1].game == game then CreditedRuns(rows[|rows| - 1]) else 0
  }

  function RunsScored(rows: seq<PitchRow>, game: int): int {
    if rows == [] then 0
    else RunsScored(rows[..|rows| - 1], game) + if rows[|rows| - 1].game == game then rows[|rows| - 1].runs else 0
  }

  /** A row whose runs are all accounted for: every flagged base names its runner, the runs
      are no fewer than the flags, and a run beyond them has a batter. */
  ghost predicate Accounted(row: PitchRow) {
    && (forall b | 0 <= b < 3 && row.scored[b] :: row.on[b].Some?)
    && OwnRuns(row) >= 0
    && (OwnRuns(row) > 0 ==> row.batter.Some?)
  }

  lemma {:induction false} RunsAdd(rows: seq<PitchRow>, game: int)
    ensures GameSum(AllBatterCredits(rows), game, R) == RunsCredited(rows, game)
  {
    hide BatterCredits, GameSum, CreditedRuns;
    if rows == [] {
      GameSumEmpty(game, R);
    } else {
      var before, row := rows[..|rows| - 1], rows[|rows| - 1];
      RunsAdd(before, game);
      GameSumConcat(AllBatterCredits(before), BatterCredits(row), game, R);
      RowRuns(row, game);
    }
  }

  lemma {:induction false} RowRuns(row: PitchRow, game: int)
    ensures GameSum(BatterCredits(row), game, R) == if row.game == game then CreditedRuns(row) else 0
  {
    RowGameSum(row, game, R);
  }

  lemma {:induction false} AccountedRuns(rows: seq<PitchRow>, game: int)
    requires forall i | 0 <= i < |rows| && rows[i].game == game :: Accounted(rows[i])
    ensures RunsCredited(rows, game) == RunsScored(rows, game)
  {
    if rows != [] {
      AccountedRuns(rows[..|rows| - 1], game);
    }
  }

  /** The batters' runs of a game are the runs of its rows, when every row accounts for its
      own; a row's unaccounted runs are in no one's total. */
  lemma {:induction false} RunsBalance(rows: seq<PitchRow>, game: int, batters: seq<int>)
    requires ListsPlayers(batters, BattersOf(rows), game)
    ensures SumOver(BattersOf(rows), game, batters, R) == RunsCredited(rows, game)
    ensures (forall i | 0 <= i < |rows| && rows[i].game == game :: Accounted(rows[i])) ==>
            SumOver(BattersOf(rows), game, batters, R) == RunsScored(rows, game)
  {
    hide BattersOf, SumOver, GameSum, RunsCredited, RunsScored, Holds, ListsPlayers;
    BattersHold(rows);
    PlayersAddUp(BattersOf(rows), BATTER_STATS, AllBatterCredits(rows), game, batters, R);
    RunsAdd(rows, game);
    if forall i | 0 <= i < |rows| && rows[i].game == game :: Accounted(rows[i]) {
      AccountedRuns(rows, game);
    }
  }
}
