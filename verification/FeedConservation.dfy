/** What the replay conserves: the runs in the inning grids, the pitches charged to
    pitchers, and the batters each pitcher faced. */
module FeedConservation {
  import opened Helpers
  import opened Feed
  import opened FeedPlays
  import opened FeedRoster
  import opened FeedReplay
  import opened FeedSituation

  ghost function Sum(s: seq<int>): int {
    if |s| == 0 then 0 else Sum(s[..|s| - 1]) + s[|s| - 1]
  }

  lemma {:induction false} SumAppend(s: seq<int>, x: int)
    ensures Sum(s + [x]) == Sum(s) + x
  {
    assert (s + [x])[..|s|] == s;
  }

  // ----- the inning grids -----

  /** The runs that side `s` gains on the plays before `n` on which it is in the field. */
  ghost function StrayRuns(plays: seq<Play>, n: nat, s: Side): int
    requires n <= |plays|
  {
    if n == 0 then 0
    else
      StrayRuns(plays, n - 1, s)
      + if Fielding(plays[n - 1].key.isTop) == s
        then RunningScore(plays, n, s) - RunningScore(plays, n - 1, s) else 0
  }

  ghost predicate FirstPitchOf(init: Replay) {
    && init.score == PerSide(0, 0) && init.halfStart == PerSide(0, 0)
    && init.grid == PerSide([], []) && init.key == HalfKey(1, true)
    && init.outs == 0 && init.post == EMPTY_BASES && init.halfPa == 0
    && init.lastSlot == PerSide(None, None)
    && init.field.pitchCounts == map[] && init.battersFaced == map[]
  }

  /** The runs of side `s` that the grid should hold: up to the current half when it
      bats, all of them when it fields. */
  ghost function SettledRuns(st: Replay, s: Side): int {
    if s == Batting(st.key.isTop) then st.halfStart.At(s) else st.score.At(s)
  }

  lemma TurnKeepsSettled(st: Replay, key: HalfKey, s: Side)
    ensures SettledRuns(TurnHalf(st, key), s) - Sum(TurnHalf(st, key).grid.At(s))
         == SettledRuns(st, s) - Sum(st.grid.At(s))
  {
    var side := Batting(st.key.isTop);
    SumAppend(st.grid.At(side), st.score.At(side) - st.halfStart.At(side));
  }

  lemma TurnKeepsField(st: Replay, key: HalfKey)
    ensures TurnHalf(st, key).field == st.field
  {
  }

  lemma {:induction false} AfterNone(init: Replay, plays: seq<Play>)
    ensures After(init, plays, 0) == init
  {
  }

  /** The linescore part of one play. */
  lemma LineAfter(init: Replay, plays: seq<Play>, n: nat)
    requires 0 < n <= |plays|
    ensures var turned := TurnHalf(After(init, plays, n - 1), plays[n - 1].key);
            var st := After(init, plays, n);
            && st.grid == turned.grid && st.halfStart == turned.halfStart
            && st.key == plays[n - 1].key
            && st.score == ScoreAfter(turned.score, plays[n - 1])
  {
    hide PlayEvents, UseNamed, MoveSlot, CreditFaced, TurnEnded;
  }

  /** A play of a half moves the settled runs of the side in the field, and of no other. */
  lemma SettledByPlay(turned: Replay, st: Replay, s: Side)
    requires st.key == turned.key && st.halfStart == turned.halfStart
    ensures SettledRuns(st, s) - SettledRuns(turned, s)
         == if Fielding(st.key.isTop) == s then st.score.At(s) - turned.score.At(s) else 0
  {
  }

  lemma StrayUnfolds(plays: seq<Play>, n: nat, s: Side)
    requires 0 < n <= |plays|
    ensures StrayRuns(plays, n, s) - StrayRuns(plays, n - 1, s)
         == if Fielding(plays[n - 1].key.isTop) == s
            then RunningScore(plays, n, s) - RunningScore(plays, n - 1, s) else 0
  {
    hide RunningScore;
  }

  lemma {:induction false} ScoreAtSide(init: Replay, plays: seq<Play>, n: nat, s: Side)
    requires n <= |plays| && FirstPitchOf(init)
    ensures After(init, plays, n).score.At(s) == RunningScore(plays, n, s)
  {
    hide After, RunningScore;
    Situation(init, plays, n);
  }

  /** What one play adds to the settled runs. */
  lemma SettledStep(init: Replay, plays: seq<Play>, n: nat, s: Side)
    requires 0 < n <= |plays| && FirstPitchOf(init)
    ensures var turned := TurnHalf(After(init, plays, n - 1), plays[n - 1].key);
            var st := After(init, plays, n);
            && st.grid == turned.grid
            && SettledRuns(st, s) - SettledRuns(turned, s)
               == StrayRuns(plays, n, s) - StrayRuns(plays, n - 1, s)
  {
    hide After, TurnHalf, RunningScore, StrayRuns, SettledRuns, FirstPitchOf, ScoreAfter;
    var before := After(init, plays, n - 1);
    LineAfter(init, plays, n);
    TurnKeepsScore(before, plays[n - 1].key);
    SettledByPlay(TurnHalf(before, plays[n - 1].key), After(init, plays, n), s);
    StrayUnfolds(plays, n, s);
    ScoreAtSide(init, plays, n - 1, s);
    ScoreAtSide(init, plays, n, s);
  }

  lemma TurnKeepsScore(st: Replay, key: HalfKey)
    ensures TurnHalf(st, key).score == st.score && TurnHalf(st, key).key == key
  {
  }

  /** The exact law of the grid, for every feed: what a side's grid leaves out is
      exactly the runs the side gained while it was in the field. */
  lemma {:induction false} GridLaw(init: Replay, plays: seq<Play>, n: nat, s: Side)
    requires n <= |plays|
    requires FirstPitchOf(init)
    ensures SettledRuns(After(init, plays, n), s)
         == Sum(After(init, plays, n).grid.At(s)) + StrayRuns(plays, n, s)
  {
    hide After, TurnHalf, SettledRuns, StrayRuns, Sum, FirstPitchOf;
    if n == 0 {
      NoPlaysNoRuns(init, plays, s);
    } else {
      GridLaw(init, plays, n - 1, s);
      TurnKeepsSettled(After(init, plays, n - 1), plays[n - 1].key, s);
      SettledStep(init, plays, n, s);
    }
  }

  lemma {:induction false} NoPlaysNoRuns(init: Replay, plays: seq<Play>, s: Side)
    requires FirstPitchOf(init)
    ensures SettledRuns(After(init, plays, 0), s)
         == Sum(After(init, plays, 0).grid.At(s)) + StrayRuns(plays, 0, s)
  {
    AfterNone(init, plays);
  }

  /** Only the side at bat changes its score. */
  ghost predicate OnlyBattersScore(plays: seq<Play>, n: nat)
    requires n <= |plays|
  {
    forall i | 0 <= i < n ::
      var s := Fielding(plays[i].key.isTop);
      RunningScore(plays, i + 1, s) == RunningScore(plays, i, s)
  }

  /** The side in the field of a state has not scored since the half began. */
  ghost predicate FieldSideStill(st: Replay) {
    var side := Fielding(st.key.isTop);
    st.score.At(side) == st.halfStart.At(side)
  }

  lemma TurnKeepsStill(st: Replay, key: HalfKey)
    requires FieldSideStill(st)
    ensures FieldSideStill(TurnHalf(st, key))
  {
  }

  lemma NoStrayStep(init: Replay, plays: seq<Play>, n: nat)
    requires 0 < n <= |plays| && FirstPitchOf(init)
    requires FieldSideStill(After(init, plays, n - 1))
    requires var side := Fielding(plays[n - 1].key.isTop);
             RunningScore(plays, n, side) == RunningScore(plays, n - 1, side)
    ensures FieldSideStill(After(init, plays, n))
  {
    hide After, TurnHalf, RunningScore, FirstPitchOf, ScoreAfter;
    var before := After(init, plays, n - 1);
    var side := Fielding(plays[n - 1].key.isTop);
    TurnKeepsStill(before, plays[n - 1].key);
    TurnKeepsScore(before, plays[n - 1].key);
    LineAfter(init, plays, n);
    ScoreAtSide(init, plays, n - 1, side);
    ScoreAtSide(init, plays, n, side);
  }

  lemma {:induction false} NoStrayRuns(init: Replay, plays: seq<Play>, n: nat, s: Side)
    requires n <= |plays|
    requires FirstPitchOf(init) && OnlyBattersScore(plays, n)
    ensures StrayRuns(plays, n, s) == 0
    ensures FieldSideStill(After(init, plays, n))
  {
    hide After, RunningScore, FieldSideStill;
    if n == 0 {
      StillAtFirstPitch(init, plays);
    } else {
      NoStrayRuns(init, plays, n - 1, s);
      var fielding := Fielding(plays[n - 1].key.isTop);
      assert RunningScore(plays, n - 1 + 1, fielding) == RunningScore(plays, n - 1, fielding);
      NoStrayStep(init, plays, n);
      StrayUnfolds(plays, n, s);
    }
  }

  lemma {:induction false} StillAtFirstPitch(init: Replay, plays: seq<Play>)
    requires FirstPitchOf(init)
    ensures FieldSideStill(After(init, plays, 0))
  {
    AfterNone(init, plays);
  }

  lemma StateOf(rosters: PerSide<Roster>, plays: seq<Play>, n: nat, k: int) returns (init: Replay, st: Replay)
    requires FirstPitchState(rosters).Ok?
    requires IsTarget(plays, n, k)
    ensures init == FirstPitchState(rosters).value && FirstPitchOf(init)
    ensures st == TurnHalf(After(init, plays, n), plays[n].key)
    ensures StateAt(rosters, plays, Some(k))
         == Ok(Present(rosters, Begin(st, plays[n]), RunnersAt(st, plays[n])))
  {
    assert Find(plays, k, 0) == Some(n);
    init := FirstPitchState(rosters).value;
    st := TurnHalf(After(init, plays, n), plays[n].key);
  }

  /** Conservation of runs: when only the side at bat scores, each grid adds up to the
      side's score at the start of the current half, and with the runs of the current
      half to its score. */
  lemma GridAddsUp(rosters: PerSide<Roster>, plays: seq<Play>, n: nat, k: int, s: Side)
    requires FirstPitchState(rosters).Ok?
    requires IsTarget(plays, n, k)
    requires OnlyBattersScore(plays, n)
    ensures var r := StateAt(rosters, plays, Some(k));
            && r.Ok?
            && Sum(r.value.grid.At(s)) == r.value.halfStart.At(s)
            && (s != r.value.batting ==> r.value.halfStart.At(s) == r.value.score.At(s))
  {
    var init, st := StateOf(rosters, plays, n, k);
    hide StateAt;
    GridLaw(init, plays, n, s);
    NoStrayRuns(init, plays, n, s);
    TurnKeepsSettled(After(init, plays, n), plays[n].key, s);
  }

  /** The half after `k`. */
  function NextHalf(k: HalfKey): HalfKey {
    if k.isTop then HalfKey(k.inning, false) else HalfKey(k.inning + 1, true)
  }

  /** The halves come in the order of the game, from the top of the first. */
  ghost predicate HalvesInOrder(plays: seq<Play>) {
    (|plays| > 0 ==> plays[0].key == HalfKey(1, true))
    && forall i | 0 < i < |plays| ::
         plays[i].key == plays[i - 1].key || plays[i].key == NextHalf(plays[i - 1].key)
  }

  ghost predicate GridFits(st: Replay) {
    && |st.grid.away| == st.key.inning - 1 + (if st.key.isTop then 0 else 1)
    && |st.grid.home| == st.key.inning - 1
  }

  lemma {:induction false} GridShape(init: Replay, plays: seq<Play>, n: nat)
    requires n <= |plays|
    requires FirstPitchOf(init) && HalvesInOrder(plays)
    ensures GridFits(After(init, plays, n))
    ensures n < |plays| ==> GridFits(TurnHalf(After(init, plays, n), plays[n].key))
  {
    if n > 0 {
      GridShape(init, plays, n - 1);
      assert After(init, plays, n).key == plays[n - 1].key;
    }
  }

  /** With the halves in order, entry `i` of a grid is inning `i + 1`: at the target the
      away grid holds every inning the away side has finished batting, the home grid
      every inning the home side has. */
  lemma OneEntryPerInning(rosters: PerSide<Roster>, plays: seq<Play>, n: nat, k: int)
    requires FirstPitchState(rosters).Ok?
    requires IsTarget(plays, n, k)
    requires HalvesInOrder(plays)
    ensures var r := StateAt(rosters, plays, Some(k));
            && r.Ok?
            && |r.value.grid.away| == r.value.key.inning - 1 + (if r.value.key.isTop then 0 else 1)
            && |r.value.grid.home| == r.value.key.inning - 1
  {
    var init, st := StateOf(rosters, plays, n, k);
    GridShape(init, plays, n);
  }

  // ----- pitches -----

  /** The sum of a count map's values over some of its keys. */
  ghost function TotalOver(m: map<int, int>, keys: set<int>): int
    requires keys <= m.Keys
  {
    if exists k :: k in keys then var k :| k in keys; m[k] + TotalOver(m, keys - {k}) else 0
  }

  ghost function Total(m: map<int, int>): int {
    TotalOver(m, m.Keys)
  }

  lemma TotalNone()
    ensures Total(map[]) == 0
  {
  }

  lemma {:induction false} TotalRemove(m: map<int, int>, keys: set<int>, k: int)
    requires k in keys && keys <= m.Keys
    ensures TotalOver(m, keys) == m[k] + TotalOver(m, keys - {k})
  {
    var x :| x in keys && TotalOver(m, keys) == m[x] + TotalOver(m, keys - {x});
    if x != k {
      TotalRemove(m, keys - {x}, k);
      TotalRemove(m, keys - {k}, x);
      assert keys - {x} - {k} == keys - {k} - {x};
    }
  }

  lemma {:induction false} TotalAgree(m: map<int, int>, after: map<int, int>, keys: set<int>)
    requires keys <= m.Keys && keys <= after.Keys
    requires forall k | k in keys :: m[k] == after[k]
    ensures TotalOver(m, keys) == TotalOver(after, keys)
  {
    if exists x :: x in keys {
      var x :| x in keys && TotalOver(m, keys) == m[x] + TotalOver(m, keys - {x});
      TotalAgree(m, after, keys - {x});
      TotalRemove(after, keys, x);
    }
  }

  lemma TotalBump(m: map<int, int>, p: int)
    ensures Total(Bump(m, p)) == Total(m) + 1
  {
    var after := Bump(m, p);
    var rest := m.Keys - {p};
    TotalRemove(after, after.Keys, p);
    TotalAgree(m, after, rest);
    assert after.Keys - {p} == rest;
    if p in m {
      TotalRemove(m, m.Keys, p);
    } else {
      assert rest == m.Keys;
    }
  }

  lemma {:induction false} EveryPitchCharged(field: Field, events: seq<Event>, n: nat, isTop: bool)
    requires n <= |events|
    ensures Total(PlayEvents(field, events, n, isTop).pitchCounts)
         == Total(field.pitchCounts) + |Pitches(events[..n])|
  {
    if n > 0 {
      EveryPitchCharged(field, events, n - 1, isTop);
      assert events[..n][..n - 1] == events[..n - 1];
      var before := PlayEvents(field, events, n - 1, isTop);
      var e := events[n - 1];
      if e.isPitch {
        TotalBump(before.pitchCounts, ChargedTo(before.clubs.At(Fielding(isTop)), e));
      }
    }
  }

  ghost function RecordedPitches(records: seq<PlayRecord>): nat {
    if |records| == 0 then 0
    else RecordedPitches(records[..|records| - 1]) + |records[|records| - 1].pitches|
  }

  /** The pitches of one play. */
  lemma PitchesAfter(init: Replay, plays: seq<Play>, n: nat)
    requires 0 < n <= |plays|
    ensures Total(After(init, plays, n).field.pitchCounts)
         == Total(After(init, plays, n - 1).field.pitchCounts) + |Pitches(plays[n - 1].events)|
  {
    hide PlayEvents, UseNamed, MoveSlot, CreditFaced, TurnEnded, Total, Pitches;
    var events := plays[n - 1].events;
    var turned := TurnHalf(After(init, plays, n - 1), plays[n - 1].key);
    EveryPitchCharged(turned.field, events, |events|, plays[n - 1].key.isTop);
    assert events[..|events|] == events;
  }

  lemma RecordPitches(plays: seq<Play>, i: nat, j: nat)
    requires i < |plays|
    ensures RecordOf(plays, i, j).pitches == Pitches(plays[i].events)
    ensures Skipped(plays[i]) ==> Pitches(plays[i].events) == []
  {
  }

  lemma {:induction false} PitchesSoFar(init: Replay, plays: seq<Play>, n: nat)
    requires n <= |plays|
    requires FirstPitchOf(init)
    ensures Total(After(init, plays, n).field.pitchCounts) == RecordedPitches(Records(plays, n))
  {
    hide After, Total, Records, RecordOf, Pitches;
    AtStart(plays, 0, EMPTY_BASES);
    AfterNone(init, plays);
    TotalNone();
    if n > 0 {
      PitchesSoFar(init, plays, n - 1);
      Step(plays, n - 1);
      PitchesAfter(init, plays, n);
      var records := Records(plays, n - 1);
      RecordPitches(plays, n - 1, |records|);
      if !Skipped(plays[n - 1]) {
        var record := RecordOf(plays, n - 1, |records|);
        assert (records + [record])[..|records|] == records;
      }
    }
  }

  /** Conservation of pitches across the two loops: the pitch counts at a plate
      appearance add up to the pitches of the records before it, whoever they are
      charged to. */
  lemma {:induction false} PitchCountsAddUp(rosters: PerSide<Roster>, plays: seq<Play>, n: nat, k: int)
    requires FirstPitchState(rosters).Ok?
    requires IsTarget(plays, n, k)
    ensures |Kept(plays, n)| <= |Records(plays, |plays|)|
    ensures var r := StateAt(rosters, plays, Some(k));
            && r.Ok?
            && Total(r.value.pitchCounts)
               == RecordedPitches(Records(plays, |plays|)[..|Kept(plays, n)|])
  {
    var init, st := StateOf(rosters, plays, n, k);
    PitchesSoFar(init, plays, n);
    RecordsPrefix(plays, n, |plays|);
    RecordCount(plays, n);
    assert Records(plays, |plays|)[..|Records(plays, n)|] == Records(plays, n);
  }

  // ----- batters faced -----

  /** The plays before `n` that ended a batter's turn against pitcher `p`. */
  ghost function TurnsAgainst(plays: seq<Play>, n: nat, p: int): nat
    requires n <= |plays|
  {
    if n == 0 then 0
    else TurnsAgainst(plays, n - 1, p)
         + if plays[n - 1].pitcher == Some(p) && TurnEnded(plays, n - 1) then 1 else 0
  }

  lemma {:induction false} FacedSoFar(init: Replay, plays: seq<Play>, n: nat, p: int)
    requires n <= |plays|
    requires FirstPitchOf(init)
    ensures var faced := After(init, plays, n).battersFaced;
            (p in faced <==> TurnsAgainst(plays, n, p) > 0)
            && (p in faced ==> faced[p] == TurnsAgainst(plays, n, p))
  {
    hide PlayEvents, UseNamed, MoveSlot, ScoreAfter, TurnEnded;
    if n > 0 {
      FacedSoFar(init, plays, n - 1, p);
    }
  }

  /** Each pitcher's batters faced are exactly the finished turns against him; a turn
      left open by a runner out counts once, when it ends. */
  lemma {:induction false} BattersFacedExact(rosters: PerSide<Roster>, plays: seq<Play>, n: nat, k: int, p: int)
    requires FirstPitchState(rosters).Ok?
    requires IsTarget(plays, n, k)
    ensures var r := StateAt(rosters, plays, Some(k));
            && r.Ok?
            && (p in r.value.battersFaced <==> TurnsAgainst(plays, n, p) > 0)
            && (p in r.value.battersFaced ==> r.value.battersFaced[p] == TurnsAgainst(plays, n, p))
  {
    var init, st := StateOf(rosters, plays, n, k);
    FacedSoFar(init, plays, n, p);
  }
}
