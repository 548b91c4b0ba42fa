/** Deriving player totals chunk by chunk (scripts/boxscore_audit.py, `run`). */
module BoxscoreChunks {
  import opened Helpers
  import opened Boxscore
  import opened BoxscoreLaws

  const CHUNK_GAMES := 100

  /** `WHERE game_pk = ANY($1)`. */
  function RowsOf<T>(rows: seq<T>, gameOf: T -> int, games: seq<int>): seq<T> {
    if rows == [] then []
    else
      var rest := RowsOf(rows[..|rows| - 1], gameOf, games);
      if gameOf(rows[|rows| - 1]) in games then rest + [rows[|rows| - 1]] else rest
  }

  function GameOfPitch(row: PitchRow): int { row.game }

  function GameOfPlay(play: PlayRow): int { play.game }

  function PitchesOf(rows: seq<PitchRow>, games: seq<int>): seq<PitchRow> {
    RowsOf(rows, GameOfPitch, games)
  }

  function PlaysOf(plays: seq<PlayRow>, games: seq<int>): seq<PlayRow> {
    RowsOf(plays, GameOfPlay, games)
  }

  /** The totals of some games only. */
  function Restrict(totals: Totals, games: seq<int>): Totals {
    map key | key in totals && key.0 in games :: totals[key]
  }

  /** A list that credits players of one game only. */
  ghost predicate InGame(cs: seq<Credit>, game: int) {
    forall i | 0 <= i < |cs| && cs[i].who.Some? :: cs[i].who.value.0 == game
  }

  lemma BatterCreditsInGame(row: PitchRow)
    ensures InGame(BatterCredits(row), row.game)
  {
    var cs := BatterCredits(row);
    forall i | 0 <= i < |cs| && cs[i].who.Some? ensures cs[i].who.value.0 == row.game {
      if i < 4 {
        assert cs[i] == HitCredits(row)[i];
      } else if i < 8 {
        assert cs[i] == RunCredits(row)[i - 4];
      } else {
        assert cs[i] == StealCredits(row)[i - 8];
      }
    }
  }

  lemma {:induction false} OtherGames(cs: seq<Credit>, game: int, key: Key, stat: Stat)
    requires InGame(cs, game) && key.0 != game
    ensures Sum(cs, key, stat) == 0 && !Names(cs, key)
  {
    if cs != [] {
      var before, c := cs[..|cs| - 1], cs[|cs| - 1];
      OtherGames(before, game, key, stat);
      NamesGrows(before, c, key);
      assert before + [c] == cs;
    }
  }

  lemma {:induction false} NoCreditsAtAll(key: Key, stat: Stat)
    ensures Sum([], key, stat) == 0 && !Names([], key)
  {
  }

  /** Every row credits players of its own game. */
  ghost predicate CreditsItsGame<T(!new)>(give: T -> seq<Credit>, gameOf: T -> int) {
    forall row: T :: InGame(give(row), gameOf(row))
  }

  lemma RowsCreditTheirGames()
    ensures CreditsItsGame(BatterCredits, GameOfPitch)
    ensures CreditsItsGame(PitcherCredits, GameOfPitch)
    ensures CreditsItsGame(PlayCredits, GameOfPlay)
  {
    forall row: PitchRow ensures InGame(BatterCredits(row), GameOfPitch(row)) {
      BatterCreditsInGame(row);
    }
  }

  lemma {:induction false} CreditedMore<T>(rows: seq<T>, row: T, give: T -> seq<Credit>, key: Key, stat: Stat)
    ensures Sum(Credited(rows + [row], give), key, stat)
            == Sum(Credited(rows, give), key, stat) + Sum(give(row), key, stat)
    ensures Names(Credited(rows + [row], give), key) <==> Names(Credited(rows, give), key) || Names(give(row), key)
  {
    hide Sum, Names;
    assert (rows + [row])[..|rows|] == rows;
    SumConcat(Credited(rows, give), give(row), key, stat);
    NamesConcat(Credited(rows, give), give(row), key);
  }

  /** Keeping the rows of some games keeps exactly the credits of their players. */
  lemma {:induction false} KeptCredits<T(!new)>(rows: seq<T>, gameOf: T -> int, games: seq<int>,
                                                give: T -> seq<Credit>, key: Key, stat: Stat)
    requires CreditsItsGame(give, gameOf)
    ensures Sum(Credited(RowsOf(rows, gameOf, games), give), key, stat)
            == if key.0 in games then Sum(Credited(rows, give), key, stat) else 0
    ensures Names(Credited(RowsOf(rows, gameOf, games), give), key)
            <==> key.0 in games && Names(Credited(rows, give), key)
  {
    hide Sum, Names, InGame, Credited;
    if rows == [] {
      NoCreditsAtAll(key, stat);
      NoRowsNoCredits(give);
    } else {
      var before, row := rows[..|rows| - 1], rows[|rows| - 1];
      var kept := RowsOf(before, gameOf, games);
      KeptCredits(before, gameOf, games, give, key, stat);
      assert rows == before + [row];
      CreditedMore(before, row, give, key, stat);
      CreditedMore(kept, row, give, key, stat);
      if key.0 != gameOf(row) {
        OtherGames(give(row), gameOf(row), key, stat);
      }
    }
  }

  lemma NoRowsNoCredits<T>(give: T -> seq<Credit>)
    ensures Credited([], give) == []
  {
  }

  lemma {:induction false} AllPitchersKeepCredits(rows: seq<PitchRow>, plays: seq<PlayRow>, games: seq<int>,
          key: Key, stat: Stat)
    ensures var some := AllPitcherCredits(PitchesOf(rows, games), PlaysOf(plays, games));
      var whole := AllPitcherCredits(rows, plays);
      && Sum(some, key, stat) == (if key.0 in games then Sum(whole, key, stat) else 0)
      && (Names(some, key) <==> key.0 in games && Names(whole, key))
  {
    hide Sum, Names;
    var some, someP := PitchesOf(rows, games), PlaysOf(plays, games);
    RowsCreditTheirGames();
    KeptCredits(rows, GameOfPitch, games, PitcherCredits, key, stat);
    KeptCredits(plays, GameOfPlay, games, PlayCredits, key, stat);
    SumConcat(PitchCredits(rows), EventCredits(plays), key, stat);
    NamesConcat(PitchCredits(rows), EventCredits(plays), key);
    SumConcat(PitchCredits(some), EventCredits(someP), key, stat);
    NamesConcat(PitchCredits(some), EventCredits(someP), key);
  }

  /** Restricted totals hold the credits of the games kept. */
  lemma {:induction false} RestrictHolds(totals: Totals, stats: set<Stat>, cs: seq<Credit>, kept: seq<Credit>,
          games: seq<int>,
                      part: Totals)
    requires Holds(totals, stats, cs) && Holds(part, stats, kept)
    requires forall key :: Names(kept, key) <==> key.0 in games && Names(cs, key)
    requires forall key, stat :: Sum(kept, key, stat) == if key.0 in games then Sum(cs, key, stat) else 0
    ensures part == Restrict(totals, games)
  {
    hide Sum, Names;
    var whole := Restrict(totals, games);
    forall key ensures key in part <==> key in whole {
      assert key in part <==> Names(kept, key);
      assert key in totals <==> Names(cs, key);
    }
    forall key | key in part ensures part[key] == whole[key] {
      assert part[key].Keys == stats && totals[key].Keys == stats;
      forall stat | stat in stats ensures part[key][stat] == totals[key][stat] {
        assert Value(part, key, stat) == Sum(kept, key, stat);
        assert Value(totals, key, stat) == Sum(cs, key, stat);
      }
    }
  }

  /** Deriving over the rows of some games gives exactly those games' totals. */
  lemma DeriveSomeGames(rows: seq<PitchRow>, plays: seq<PlayRow>, games: seq<int>)
    ensures BattersOf(PitchesOf(rows, games)) == Restrict(BattersOf(rows), games)
    ensures PitchersOf(PitchesOf(rows, games), PlaysOf(plays, games)) == Restrict(PitchersOf(rows, plays), games)
  {
    hide BattersOf, PitchersOf, Sum, Names, Holds, Restrict, CreditsItsGame;
    RowsCreditTheirGames();
    var some, someP := PitchesOf(rows, games), PlaysOf(plays, games);
    BattersHold(rows);
    BattersHold(some);
    PitchersHold(rows, plays);
    PitchersHold(some, someP);
    forall key ensures Names(AllBatterCredits(some), key) <==> key.0 in games && Names(AllBatterCredits(rows), key) {
      KeptCredits(rows, GameOfPitch, games, BatterCredits, key, H);
    }
    forall key, stat ensures Sum(AllBatterCredits(some), key, stat)
                             == if key.0 in games then Sum(AllBatterCredits(rows), key, stat) else 0
    {
      KeptCredits(rows, GameOfPitch, games, BatterCredits, key, stat);
    }
    forall key ensures Names(AllPitcherCredits(some, someP), key)
                       <==> key.0 in games && Names(AllPitcherCredits(rows, plays), key)
    {
      AllPitchersKeepCredits(rows, plays, games, key, H);
    }
    forall key, stat ensures Sum(AllPitcherCredits(some, someP), key, stat)
                             == if key.0 in games then Sum(AllPitcherCredits(rows, plays), key, stat) else 0
    {
      AllPitchersKeepCredits(rows, plays, games, key, stat);
    }
    RestrictHolds(BattersOf(rows), BATTER_STATS, AllBatterCredits(rows),
                  AllBatterCredits(some), games, BattersOf(some));
    RestrictHolds(PitchersOf(rows, plays), PITCHER_STATS, AllPitcherCredits(rows, plays),
                  AllPitcherCredits(some, someP), games, PitchersOf(some, someP));
  }

  // ----- the order a query returns its rows in -----

  lemma {:induction false} CreditedConcat<T>(a: seq<T>, b: seq<T>, give: T -> seq<Credit>)
    ensures Credited(a + b, give) == Credited(a, give) + Credited(b, give)
  {
    if b == [] {
      assert a + b == a;
    } else {
      var all := a + b;
      CreditedConcat(a, b[..|b| - 1], give);
      assert all[..|all| - 1] == a + b[..|b| - 1];
    }
  }

  /** Moving one row to the end changes no sum and no name. */
  lemma {:induction false} MoveToEnd<T>(a: seq<T>, row: T, b: seq<T>, give: T -> seq<Credit>, key: Key, stat: Stat)
    ensures Sum(Credited(a + [row] + b, give), key, stat)
            == Sum(Credited(a + b, give), key, stat) + Sum(give(row), key, stat)
    ensures Names(Credited(a + [row] + b, give), key) <==> Names(Credited(a + b, give), key) || Names(give(row), key)
  {
    hide Credited, Sum, Names;
    CreditedConcat(a + [row], b, give);
    CreditedConcat(a, b, give);
    CreditedMore(a, row, give, key, stat);
    SumConcat(Credited(a + [row], give), Credited(b, give), key, stat);
    SumConcat(Credited(a, give), Credited(b, give), key, stat);
    NamesConcat(Credited(a + [row], give), Credited(b, give), key);
    NamesConcat(Credited(a, give), Credited(b, give), key);
  }

  lemma WithoutLast<T>(rows: seq<T>)
    requires rows != []
    ensures multiset(rows[..|rows| - 1]) == multiset(rows) - multiset{rows[|rows| - 1]}
  {
    assert rows == rows[..|rows| - 1] + [rows[|rows| - 1]];
  }

  lemma WithoutOne<T>(rows: seq<T>, i: nat)
    requires i < |rows|
    ensures multiset(rows[..i] + rows[i + 1..]) == multiset(rows) - multiset{rows[i]}
  {
    assert rows == rows[..i] + [rows[i]] + rows[i + 1..];
  }

  /** The last row of a list, found in a reordering of it. */
  lemma FindLast<T>(rows: seq<T>, other: seq<T>) returns (i: nat)
    requires rows != [] && multiset(rows) == multiset(other)
    ensures i < |other| && other[i] == rows[|rows| - 1]
    ensures multiset(rows[..|rows| - 1]) == multiset(other[..i] + other[i + 1..])
  {
    assert rows[|rows| - 1] in multiset(other);
    i :| 0 <= i < |other| && other[i] == rows[|rows| - 1];
    WithoutLast(rows);
    WithoutOne(other, i);
  }

  lemma {:induction false} SameCredits<T>(rows: seq<T>, other: seq<T>, give: T -> seq<Credit>, key: Key, stat: Stat)
    requires multiset(rows) == multiset(other)
    ensures Sum(Credited(rows, give), key, stat) == Sum(Credited(other, give), key, stat)
    ensures Names(Credited(rows, give), key) <==> Names(Credited(other, give), key)
    decreases |rows|
  {
    hide Credited, Sum, Names;
    if rows == [] {
      assert |multiset(other)| == 0;
      assert other == [];
    } else {
      var before, row := rows[..|rows| - 1], rows[|rows| - 1];
      var i := FindLast(rows, other);
      var a, b := other[..i], other[i + 1..];
      assert other == a + [row] + b && rows == before + [row];
      MoveToEnd(a, row, b, give, key, stat);
      SameCredits(before, a + b, give, key, stat);
      CreditedMore(before, row, give, key, stat);
    }
  }

  lemma {:induction false} SamePitcherCredits(rows: seq<PitchRow>, other: seq<PitchRow>, plays: seq<PlayRow>,
          others: seq<PlayRow>,
                           key: Key, stat: Stat)
    requires multiset(rows) == multiset(other) && multiset(plays) == multiset(others)
    ensures Sum(AllPitcherCredits(rows, plays), key, stat) == Sum(AllPitcherCredits(other, others), key, stat)
    ensures Names(AllPitcherCredits(rows, plays), key) <==> Names(AllPitcherCredits(other, others), key)
  {
    hide Sum, Names, Credited;
    SameCredits(rows, other, PitcherCredits, key, stat);
    SameCredits(plays, others, PlayCredits, key, stat);
    SumConcat(PitchCredits(rows), EventCredits(plays), key, stat);
    SumConcat(PitchCredits(other), EventCredits(others), key, stat);
    NamesConcat(PitchCredits(rows), EventCredits(plays), key);
    NamesConcat(PitchCredits(other), EventCredits(others), key);
  }

  lemma BattersIgnoreOrder(rows: seq<PitchRow>, other: seq<PitchRow>)
    requires multiset(rows) == multiset(other)
    ensures BattersOf(rows) == BattersOf(other)
  {
    hide BattersOf, Sum, Names, Holds;
    BattersHold(rows);
    BattersHold(other);
    forall key ensures Names(AllBatterCredits(rows), key) <==> Names(AllBatterCredits(other), key) {
      SameCredits(rows, other, BatterCredits, key, H);
    }
    forall key, stat ensures Sum(AllBatterCredits(rows), key, stat) == Sum(AllBatterCredits(other), key, stat) {
      SameCredits(rows, other, BatterCredits, key, stat);
    }
    HoldsDetermines(BattersOf(rows), BattersOf(other), BATTER_STATS, AllBatterCredits(rows), AllBatterCredits(other));
  }

  lemma PitchersIgnoreOrder(rows: seq<PitchRow>, other: seq<PitchRow>, plays: seq<PlayRow>, others: seq<PlayRow>)
    requires multiset(rows) == multiset(other) && multiset(plays) == multiset(others)
    ensures PitchersOf(rows, plays) == PitchersOf(other, others)
  {
    hide PitchersOf, Sum, Names, Holds, AllPitcherCredits;
    PitchersHold(rows, plays);
    PitchersHold(other, others);
    forall key ensures Names(AllPitcherCredits(rows, plays), key) <==> Names(AllPitcherCredits(other, others), key) {
      SamePitcherCredits(rows, other, plays, others, key, K);
    }
    forall key, stat
      ensures Sum(AllPitcherCredits(rows, plays), key, stat) == Sum(AllPitcherCredits(other, others), key, stat)
    {
      SamePitcherCredits(rows, other, plays, others, key, stat);
    }
    HoldsDetermines(PitchersOf(rows, plays), PitchersOf(other, others), PITCHER_STATS,
                    AllPitcherCredits(rows, plays), AllPitcherCredits(other, others));
  }

  /** No total, of a batter or of a pitcher, depends on the order in which the database
      returns the rows of either query. */
  lemma OrderIsIrrelevant(rows: seq<PitchRow>, other: seq<PitchRow>, plays: seq<PlayRow>, others: seq<PlayRow>)
    requires multiset(rows) == multiset(other) && multiset(plays) == multiset(others)
    ensures BattersOf(rows) == BattersOf(other)
    ensures PitchersOf(rows, plays) == PitchersOf(other, others)
  {
    BattersIgnoreOrder(rows, other);
    PitchersIgnoreOrder(rows, other, plays, others);
  }

  // ----- the chunked loop -----

  /** `derived_b.update(b)`: totals of some games, then those of more. */
  lemma RestrictMerges(totals: Totals, games: seq<int>, more: seq<int>)
    ensures Restrict(totals, games) + Restrict(totals, more) == Restrict(totals, games + more)
  {
  }

  /** The loop over chunks of games. It leaves what deriving once over all the games' rows
      would leave, even when a game is listed twice. */
  method ChunkedTotals(rows: seq<PitchRow>, plays: seq<PlayRow>, games: seq<int>)
    returns (batters: Totals, pitchers: Totals)
    ensures batters == BattersOf(PitchesOf(rows, games))
    ensures pitchers == PitchersOf(PitchesOf(rows, games), PlaysOf(plays, games))
  {
    hide BattersOf, PitchersOf, Restrict, PitchesOf, PlaysOf;
    batters, pitchers := map[], map[];
    var start := 0;
    RestrictNothing(BattersOf(rows));
    RestrictNothing(PitchersOf(rows, plays));
    while start < |games|
      invariant 0 <= start <= |games|
      invariant batters == Restrict(BattersOf(rows), games[..start])
      invariant pitchers == Restrict(PitchersOf(rows, plays), games[..start])
    {
      var end := if start + CHUNK_GAMES <= |games| then start + CHUNK_GAMES else |games|;
      var chunk := games[start..end];
      DeriveSomeGames(rows, plays, chunk);
      var b, p := DeriveTotals(PitchesOf(rows, chunk), PlaysOf(plays, chunk));
      RestrictMerges(BattersOf(rows), games[..start], chunk);
      RestrictMerges(PitchersOf(rows, plays), games[..start], chunk);
      assert games[..start] + chunk == games[..end];
      batters := batters + b;
      pitchers := pitchers + p;
      start := end;
    }
    assert games[..start] == games;
    DeriveSomeGames(rows, plays, games);
  }

  lemma RestrictNothing(totals: Totals)
    ensures Restrict(totals, []) == map[]
  {
  }
}
