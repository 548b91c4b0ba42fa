/** `parse_plays` and `state_at_pa` read the same play list with two separate loops.
    The lemmas here say when their answers agree on a play. */
module FeedSituation {
  import opened Helpers
  import opened Feed
  import opened FeedPlays
  import opened FeedRoster
  import opened FeedReplay

  /** The replay's score: a missing or zero value keeps the score before it. */
  ghost function RunningScore(plays: seq<Play>, n: nat, s: Side): int
    requires n <= |plays|
  {
    if n == 0 then 0 else Or(plays[n - 1].score.At(s), RunningScore(plays, n - 1, s))
  }

  /** The situation before any play at or after `n`, read off the play before it. */
  lemma {:induction false} Situation(init: Replay, plays: seq<Play>, n: nat)
    requires n <= |plays|
    requires init.score == PerSide(0, 0) && init.outs == 0 && init.post == EMPTY_BASES
    ensures var st := After(init, plays, n);
            && st.score == PerSide(RunningScore(plays, n, Away), RunningScore(plays, n, Home))
            && st.key == (if n == 0 then init.key else plays[n - 1].key)
            && st.outs == (if n == 0 then 0 else plays[n - 1].outs)
            && st.post == (if n == 0 then EMPTY_BASES else plays[n - 1].postOn)
  {
    if n > 0 {
      Situation(init, plays, n - 1);
    }
  }

  ghost predicate SameHalfAs(plays: seq<Play>, i: int, n: nat)
    requires i < n < |plays|
  {
    0 <= i && plays[i].key == plays[n].key
  }

  /** The outs that play `i` hands to play `n`. */
  ghost function CarriedOuts(plays: seq<Play>, i: int, n: nat): int
    requires i < n < |plays|
  {
    if SameHalfAs(plays, i, n) then plays[i].outs else 0
  }

  /** The runners that play `i` hands to play `n`. */
  ghost function CarriedBases(plays: seq<Play>, i: int, n: nat): Bases
    requires i < n < |plays|
  {
    if SameHalfAs(plays, i, n) then plays[i].postOn else EMPTY_BASES
  }

  /** The runners at play `n` when `i` is the play before it: its own first pitch comes first. */
  ghost function CarriedRunners(plays: seq<Play>, i: int, n: nat): Bases
    requires i < n < |plays|
  {
    var pitch := FirstPitch(plays[n].events);
    if pitch.Some? then plays[n].events[pitch.value].offense else CarriedBases(plays, i, n)
  }

  ghost predicate IsTarget(plays: seq<Play>, n: nat, k: int) {
    n < |plays| && !Skipped(plays[n]) && plays[n].atBatIndex == Some(k)
    && forall i | 0 <= i < n :: plays[i].atBatIndex != Some(k) && (k == -1 ==> plays[i].atBatIndex.Some?)
  }

  /** The position of the latest record before `n`, or -1. */
  ghost function RecordBefore(plays: seq<Play>, n: nat): int
    requires n <= |plays|
  {
    match Previous(plays, n) case None => -1 case Some(q) => q
  }

  /** What the replay answers at play `n`. */
  lemma {:induction false} StateAtTarget(rosters: PerSide<Roster>, plays: seq<Play>, n: nat, k: int)
    requires FirstPitchState(rosters).Ok?
    requires IsTarget(plays, n, k)
    ensures var r := StateAt(rosters, plays, Some(k));
            && r.Ok?
            && r.value.key == plays[n].key
            && r.value.outs == (var o := CarriedOuts(plays, n - 1, n); if o >= 3 then 0 else o)
            && r.value.runners == CarriedRunners(plays, n - 1, n)
            && r.value.score == PerSide(RunningScore(plays, n, Away), RunningScore(plays, n, Home))
  {
    assert Find(plays, k, 0) == Some(n);
    Situation(FirstPitchState(rosters).value, plays, n);
  }

  /** What the records answer at play `n`. */
  lemma {:induction false} RecordAtTarget(plays: seq<Play>, n: nat, k: int)
    requires IsTarget(plays, n, k)
    ensures var j := |Kept(plays, n)|; var q := RecordBefore(plays, n);
            && j < |Records(plays, |plays|)|
            && var record := Records(plays, |plays|)[j];
               && record.atBat == k
               && record.key == plays[n].key
               && record.outsBefore == CarriedOuts(plays, q, n)
               && record.runners == CarriedRunners(plays, q, n)
               && record.scoreBefore == (if q < 0 then PerSide(0, 0) else ScoreOf(plays[q]))
  {
    var j := |Kept(plays, n)|;
    KeptPrefix(plays, n + 1, |plays|);
    assert Kept(plays, n + 1)[j] == n;
    RecordAt(plays, |plays|, j);
    assert Records(plays, |plays|)[j] == RecordOf(plays, n, j);
  }

  /** A third out before a play of the same half. */
  ghost predicate ThirdOutBefore(plays: seq<Play>, n: nat)
    requires n < |plays|
  {
    n > 0 && plays[n - 1].key == plays[n].key && plays[n - 1].outs >= 3
  }

  /** For every feed and every target, placeholders included: the two loops agree on the
      inning and half. They agree on the rest exactly when the play just before the target
      and the latest recorded play `q` hand over the same: the same outs, with a third out
      read as none; the same bases, unless the target's own first pitch shows them; and
      the fallback score of all plays, the placeholders' included, against that of `q`. */
  lemma {:induction false} AgreementOnSituation(rosters: PerSide<Roster>, plays: seq<Play>, n: nat, k: int, s: Side)
    requires FirstPitchState(rosters).Ok?
    requires IsTarget(plays, n, k)
    ensures |Records(plays, |plays|)| > |Kept(plays, n)| && StateAt(rosters, plays, Some(k)).Ok?
    ensures var q := RecordBefore(plays, n);
            var st := StateAt(rosters, plays, Some(k)).value;
            var record := Records(plays, |plays|)[|Kept(plays, n)|];
            && record.atBat == k
            && st.key == record.key
            && (st.outs == record.outsBefore <==>
                CarriedOuts(plays, q, n) == if ThirdOutBefore(plays, n) then 0 else CarriedOuts(plays, n - 1, n))
            && (st.runners == record.runners <==>
                FirstPitch(plays[n].events).Some?
                || CarriedBases(plays, n - 1, n) == CarriedBases(plays, q, n))
            && (st.score.At(s) == record.scoreBefore.At(s) <==>
                RunningScore(plays, n, s) == if q < 0 then 0 else Or(plays[q].score.At(s), 0))
  {
    hide StateAt, Records, Kept, RunningScore, FirstPitchState;
    StateAtTarget(rosters, plays, n, k);
    RecordAtTarget(plays, n, k);
  }

  /** No later play reads a zero or missing score after a score above zero: only the
      play before the target matters. */
  ghost predicate ScoreStands(plays: seq<Play>, n: nat, s: Side)
    requires n <= |plays|
  {
    n == 0 || Or(plays[n - 1].score.At(s), 0) != 0
    || forall i | 0 <= i < n :: Or(plays[i].score.At(s), 0) == 0
  }

  lemma {:induction false} RunningScoreMeans(plays: seq<Play>, n: nat, s: Side)
    requires n <= |plays|
    ensures RunningScore(plays, n, s) == 0 <==>
            forall i | 0 <= i < n :: Or(plays[i].score.At(s), 0) == 0
    ensures ScoreStands(plays, n, s) <==>
            RunningScore(plays, n, s) == (if n == 0 then 0 else Or(plays[n - 1].score.At(s), 0))
  {
    if n > 0 {
      RunningScoreMeans(plays, n - 1, s);
      if RunningScore(plays, n, s) == 0 {
        assert RunningScore(plays, n - 1, s) == 0;
      }
    }
  }

  /** The differential law: with no placeholder just before the target, the state the page
      starts from and the record the page shows agree on the inning, the half and the
      runners; on the outs exactly when no third out stands before a play of the same half;
      and on each score exactly when that score stands. */
  lemma {:induction false} ReplayAgreesWithRecords(rosters: PerSide<Roster>, plays: seq<Play>, n: nat, k: int, s: Side)
    requires FirstPitchState(rosters).Ok?
    requires IsTarget(plays, n, k)
    requires n > 0 ==> !Skipped(plays[n - 1])
    ensures |Records(plays, |plays|)| > |Kept(plays, n)| && StateAt(rosters, plays, Some(k)).Ok?
    ensures var st := StateAt(rosters, plays, Some(k)).value;
            var record := Records(plays, |plays|)[|Kept(plays, n)|];
            && record.atBat == k
            && st.key == record.key
            && st.runners == record.runners
            && (st.outs == record.outsBefore <==> !ThirdOutBefore(plays, n))
            && (st.score.At(s) == record.scoreBefore.At(s) <==> ScoreStands(plays, n, s))
  {
    hide StateAt, Records, Kept, RunningScore, FirstPitchState;
    RecordJustBefore(plays, n);
    AgreementOnSituation(rosters, plays, n, k, s);
    RunningScoreMeans(plays, n, s);
  }

  lemma RecordJustBefore(plays: seq<Play>, n: nat)
    requires n <= |plays| && (n > 0 ==> !Skipped(plays[n - 1]))
    ensures RecordBefore(plays, n) == n - 1
  {
  }

  /** A score that never falls always stands. */
  lemma {:induction false} RisingScoresStand(plays: seq<Play>, n: nat, s: Side)
    requires n <= |plays|
    requires forall i | 0 <= i < n :: plays[i].score.At(s).Some? && plays[i].score.At(s).value >= 0
    requires forall i, j | 0 <= i < j < n :: plays[i].score.At(s).value <= plays[j].score.At(s).value
    ensures ScoreStands(plays, n, s)
  {
    if n > 0 && Or(plays[n - 1].score.At(s), 0) == 0 {
      forall i | 0 <= i < n ensures Or(plays[i].score.At(s), 0) == 0 {
        if i < n - 1 {
          assert plays[i].score.At(s).value <= plays[n - 1].score.At(s).value;
        }
      }
    }
  }

  // ----- the hypotheses are needed: three feeds on which the answers differ -----

  function PlainPlay(index: int, score: PerSide<Option<int>>, outs: int): Play {
    Play(Some(index), HalfKey(1, true), true, [], None, None, "single", score, outs, EMPTY_BASES)
  }

  function PlaceholderFeed(): seq<Play> {
    var zero := PerSide(Some(0), Some(0));
    [PlainPlay(0, zero, 1).(postOn := Bases(Some(7), None, None)),
     PlainPlay(1, zero, 0).(isComplete := false),
     PlainPlay(2, zero, 1)]
  }

  /** A placeholder between two plays: the records carry the outs and the runners of the
      play before it, the replay those of the placeholder. */
  lemma PlaceholderBreaksSituation(rosters: PerSide<Roster>)
    requires FirstPitchState(rosters).Ok?
    ensures StateAt(rosters, PlaceholderFeed(), Some(2)).Ok?
    ensures |Records(PlaceholderFeed(), 3)| > 1
    ensures StateAt(rosters, PlaceholderFeed(), Some(2)).value.outs == 0
    ensures StateAt(rosters, PlaceholderFeed(), Some(2)).value.runners == EMPTY_BASES
    ensures Records(PlaceholderFeed(), 3)[1].atBat == 2
    ensures Records(PlaceholderFeed(), 3)[1].outsBefore == 1
    ensures Records(PlaceholderFeed(), 3)[1].runners == Bases(Some(7), None, None)
  {
    hide StateAt, Records;
    var plays := PlaceholderFeed();
    assert Kept(plays, 1) == [0];
    assert Kept(plays, 2) == [0];
    StateAtTarget(rosters, plays, 2, 2);
    RecordAtTarget(plays, 2, 2);
  }

  function ThirdOutFeed(): seq<Play> {
    var zero := PerSide(Some(0), Some(0));
    [PlainPlay(0, zero, 3), PlainPlay(1, zero, 3)]
  }

  /** Two plays of one half, the first with the third out: the replay starts the second with
      none out, its record with three. */
  lemma ThirdOutBreaksOuts(rosters: PerSide<Roster>)
    requires FirstPitchState(rosters).Ok?
    ensures StateAt(rosters, ThirdOutFeed(), Some(1)).Ok?
    ensures |Records(ThirdOutFeed(), 2)| > 1
    ensures StateAt(rosters, ThirdOutFeed(), Some(1)).value.outs == 0
    ensures Records(ThirdOutFeed(), 2)[1].outsBefore == 3
  {
    hide StateAt, Records, FirstPitchState;
    var plays := ThirdOutFeed();
    StateAtTarget(rosters, plays, 1, 1);
    RecordAtTarget(plays, 1, 1);
    assert Kept(plays, 1) == [0];
  }

  function FallingScoreFeed(): seq<Play> {
    var zero := PerSide(Some(0), Some(0));
    [PlainPlay(0, PerSide(Some(1), Some(0)), 0), PlainPlay(1, zero, 0), PlainPlay(2, zero, 0)]
  }

  /** A corrected score that falls back to zero: the replay keeps the score before it. */
  lemma FallingScoreBreaksScore(rosters: PerSide<Roster>)
    requires FirstPitchState(rosters).Ok?
    ensures StateAt(rosters, FallingScoreFeed(), Some(2)).Ok?
    ensures |Records(FallingScoreFeed(), 3)| > 2
    ensures StateAt(rosters, FallingScoreFeed(), Some(2)).value.score.away == 1
    ensures Records(FallingScoreFeed(), 3)[2].scoreBefore.away == 0
  {
    hide StateAt, Records;
    var plays := FallingScoreFeed();
    StateAtTarget(rosters, plays, 2, 2);
    RecordAtTarget(plays, 2, 2);
    KeptAll(plays, 2);
    assert RunningScore(plays, 1, Away) == 1;
    assert RunningScore(plays, 2, Away) == 1;
  }
}
