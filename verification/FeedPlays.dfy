/** `parse_plays`: one record for each plate appearance, in order.

    The loop carries the previous record's score, half, outs and post-play bases;
    the specification reads them off the play list by position instead. */
module FeedPlays {
  import opened Helpers
  import opened Feed

  datatype PlayRecord = PlayRecord(
    atBat: int,
    key: HalfKey,
    batter: Option<int>,
    pitcher: Option<int>,
    batterFinished: bool,
    outsBefore: int,
    outsAfter: int,
    scoreBefore: PerSide<int>,
    scoreAfter: PerSide<int>,
    runners: Bases,
    pitches: seq<Event>,
    isComplete: bool)

  /** `_int(v) or d`: both a missing value and a zero read as the default. */
  function Or(v: Option<int>, d: int): int {
    if v.None? || v.value == 0 then d else v.value
  }

  function ScoreOf(play: Play): PerSide<int> {
    PerSide(Or(play.score.away, 0), Or(play.score.home, 0))
  }

  function FirstPitch(events: seq<Event>): (r: Option<nat>)
    ensures r.None? ==> forall k | 0 <= k < |events| :: !events[k].isPitch
    ensures r.Some? ==> r.value < |events| && events[r.value].isPitch
    ensures r.Some? ==> forall k | 0 <= k < r.value :: !events[k].isPitch
  {
    if |events| == 0 then None
    else if events[0].isPitch then Some(0)
    else
      assert forall k | 1 <= k < |events| :: events[k] == events[1..][k - 1];
      match FirstPitch(events[1..]) case None => None case Some(k) => Some(k + 1)
  }

  function Pitches(events: seq<Event>): seq<Event> {
    if |events| == 0 then []
    else
      var e := events[|events| - 1];
      Pitches(events[..|events| - 1]) + if e.isPitch then [e] else []
  }

  /** A placeholder play (not complete, no event yet) makes no record. */
  predicate Skipped(play: Play) {
    !play.isComplete && |play.events| == 0
  }

  /** The positions before `n` that make a record, in order. */
  function Kept(plays: seq<Play>, n: nat): (r: seq<nat>)
    requires n <= |plays|
    ensures forall j | 0 <= j < |r| :: r[j] < n && !Skipped(plays[r[j]])
  {
    if n == 0 then []
    else Kept(plays, n - 1) + if Skipped(plays[n - 1]) then [] else [n - 1]
  }

  /** The position of the latest record before `n`. */
  function Previous(plays: seq<Play>, n: nat): Option<nat>
    requires n <= |plays|
  {
    var kept := Kept(plays, n);
    if |kept| == 0 then None else Some(kept[|kept| - 1])
  }

  ghost predicate SameHalf(plays: seq<Play>, i: nat)
    requires i < |plays|
  {
    Previous(plays, i).Some? && plays[Previous(plays, i).value].key == plays[i].key
  }

  /** The record of play `i`, the `j`-th one, by position in the play list. */
  ghost function RecordOf(plays: seq<Play>, i: nat, j: nat): PlayRecord
    requires i < |plays|
  {
    var play := plays[i];
    var before := Previous(plays, i);
    var pitch := FirstPitch(play.events);
    PlayRecord(
      if play.atBatIndex.Some? then play.atBatIndex.value else j,
      play.key, play.batter, play.pitcher,
      TurnEnded(plays, i),
      if SameHalf(plays, i) then plays[before.value].outs else 0,
      play.outs,
      if before.Some? then ScoreOf(plays[before.value]) else PerSide(0, 0),
      ScoreOf(play),
      if pitch.Some? then play.events[pitch.value].offense
      else if SameHalf(plays, i) then plays[before.value].postOn
      else EMPTY_BASES,
      Pitches(play.events),
      play.isComplete)
  }

  /** The records of the plays before `n`. */
  ghost function Records(plays: seq<Play>, n: nat): seq<PlayRecord>
    requires n <= |plays|
  {
    if n == 0 then []
    else
      var earlier := Records(plays, n - 1);
      if Skipped(plays[n - 1]) then earlier else earlier + [RecordOf(plays, n - 1, |earlier|)]
  }

  lemma Step(plays: seq<Play>, i: nat)
    requires i < |plays|
    ensures Skipped(plays[i]) ==>
              Previous(plays, i + 1) == Previous(plays, i) && Records(plays, i + 1) == Records(plays, i)
    ensures !Skipped(plays[i]) ==>
              Previous(plays, i + 1) == Some(i)
              && Records(plays, i + 1) == Records(plays, i) + [RecordOf(plays, i, |Records(plays, i)|)]
    ensures Kept(plays, i + 1) == Kept(plays, i) + if Skipped(plays[i]) then [] else [i]
  {
  }

  /** What the loop carries from the latest record before `i`. */
  ghost predicate Carries(plays: seq<Play>, i: nat, score: PerSide<int>, key: Option<HalfKey>,
                          outs: int, post: Bases)
    requires i <= |plays|
  {
    match Previous(plays, i)
    case None => key == None && score == PerSide(0, 0)
    case Some(q) => key == Some(plays[q].key) && score == ScoreOf(plays[q])
                    && outs == plays[q].outs && post == plays[q].postOn
  }

  lemma CarriedOn(plays: seq<Play>, i: nat, score: PerSide<int>, key: Option<HalfKey>,
                  outs: int, post: Bases)
    requires i < |plays|
    requires if Skipped(plays[i]) then Carries(plays, i, score, key, outs, post)
             else score == ScoreOf(plays[i]) && key == Some(plays[i].key)
                  && outs == plays[i].outs && post == plays[i].postOn
    ensures Carries(plays, i + 1, score, key, outs, post)
  {
    hide Records;
    Step(plays, i);
  }

  /** The record built from what the loop carries is the record of the play. */
  lemma BuiltRecord(plays: seq<Play>, i: nat, j: nat, score: PerSide<int>, key: Option<HalfKey>,
                    outs: int, post: Bases)
    requires i < |plays|
    requires Carries(plays, i, score, key, outs, post)
    ensures var p := plays[i];
            var same := key == Some(p.key);
            var pitch := FirstPitch(p.events);
            RecordOf(plays, i, j)
            == PlayRecord(if p.atBatIndex.Some? then p.atBatIndex.value else j,
                          p.key, p.batter, p.pitcher, TurnEnded(plays, i),
                          if same then outs else 0, p.outs, score, ScoreOf(p),
                          if pitch.Some? then p.events[pitch.value].offense
                          else if same then post else EMPTY_BASES,
                          Pitches(p.events), p.isComplete)
  {
    hide Kept, Pitches, TurnEnded;
  }

  method ParsePlays(plays: seq<Play>) returns (out: seq<PlayRecord>)
    ensures out == Records(plays, |plays|)
  {
    hide Records, Carries, RecordOf, Pitches, Kept, Previous, FirstPitch;
    out := [];
    var flags := FinishedFlags(plays);
    var prevScore := PerSide(0, 0);
    var prevKey: Option<HalfKey> := None;
    var prevOutsAfter := 0;
    var prevPost := EMPTY_BASES;
    AtStart(plays, prevOutsAfter, prevPost);
    var i := 0;
    while i < |plays|
      invariant 0 <= i <= |plays| == |flags|
      invariant out == Records(plays, i)
      invariant Carries(plays, i, prevScore, prevKey, prevOutsAfter, prevPost)
    {
      var p := plays[i];
      Step(plays, i);
      BuiltRecord(plays, i, |out|, prevScore, prevKey, prevOutsAfter, prevPost);
      if !p.isComplete && |p.events| == 0 {
        CarriedOn(plays, i, prevScore, prevKey, prevOutsAfter, prevPost);
        i := i + 1;
        continue;
      }
      var sameHalf := prevKey == Some(p.key);
      var firstPitch := FirstPitch(p.events);
      var runners := EMPTY_BASES;
      if firstPitch.Some? {
        runners := p.events[firstPitch.value].offense;
      } else if sameHalf {
        runners := prevPost;
      }
      var after := ScoreOf(p);
      out := out + [PlayRecord(
        if p.atBatIndex.Some? then p.atBatIndex.value else |out|,
        p.key, p.batter, p.pitcher, flags[i],
        if sameHalf then prevOutsAfter else 0,
        p.outs, prevScore, after, runners, Pitches(p.events), p.isComplete)];
      prevScore, prevKey := after, Some(p.key);
      prevOutsAfter := p.outs;
      prevPost := p.postOn;
      CarriedOn(plays, i, prevScore, prevKey, prevOutsAfter, prevPost);
      i := i + 1;
    }
  }

  lemma {:induction false} AtStart(plays: seq<Play>, outs: int, post: Bases)
    ensures Carries(plays, 0, PerSide(0, 0), None, outs, post)
    ensures Records(plays, 0) == [] && Kept(plays, 0) == []
  {
  }

  lemma {:induction false} RecordCount(plays: seq<Play>, n: nat)
    requires n <= |plays|
    ensures |Records(plays, n)| == |Kept(plays, n)|
  {
    hide Records, Kept;
    AtStart(plays, 0, EMPTY_BASES);
    if n > 0 {
      Step(plays, n - 1);
      RecordCount(plays, n - 1);
    }
  }

  /** The `j`-th record is the one of the `j`-th play that is not a placeholder. */
  lemma {:induction false} RecordAt(plays: seq<Play>, n: nat, j: nat)
    requires n <= |plays|
    requires j < |Kept(plays, n)|
    ensures |Records(plays, n)| == |Kept(plays, n)|
    ensures Records(plays, n)[j] == RecordOf(plays, Kept(plays, n)[j], j)
  {
    hide Records, Kept, RecordOf;
    AtStart(plays, 0, EMPTY_BASES);
    RecordCount(plays, n);
    RecordCount(plays, n - 1);
    Step(plays, n - 1);
    if j < |Kept(plays, n - 1)| {
      RecordAt(plays, n - 1, j);
    } else {
      assert j == |Kept(plays, n - 1)|;
    }
  }

  /** With no placeholder before `n`, the records before `n` are the plays themselves. */
  lemma {:induction false} KeptAll(plays: seq<Play>, n: nat)
    requires n <= |plays|
    requires forall i | 0 <= i < n :: !Skipped(plays[i])
    ensures |Kept(plays, n)| == n
    ensures forall i | 0 <= i < n :: Kept(plays, n)[i] == i
  {
    if n > 0 {
      KeptAll(plays, n - 1);
    }
  }

  /** The records of a prefix of the play list stand first. */
  lemma {:induction false} RecordsPrefix(plays: seq<Play>, n: nat, m: nat)
    requires n <= m <= |plays|
    ensures Records(plays, n) <= Records(plays, m)
  {
    hide Records, RecordOf;
    if n < m {
      RecordsPrefix(plays, n, m - 1);
      Step(plays, m - 1);
    }
  }

  lemma {:induction false} KeptPrefix(plays: seq<Play>, n: nat, m: nat)
    requires n <= m <= |plays|
    ensures Kept(plays, n) <= Kept(plays, m)
  {
    if n < m {
      KeptPrefix(plays, n, m - 1);
    }
  }

  // ----- what a record shows -----

  /** The pitches of a play are its pitch events, in the order thrown. */
  lemma {:induction false} PitchesInOrder(events: seq<Event>)
    ensures Filters(events, Pitches(events), (e: Event) => e.isPitch)
  {
    hide Filters;
    if |events| == 0 {
      FiltersNone((e: Event) => e.isPitch);
    } else {
      var before, e := events[..|events| - 1], events[|events| - 1];
      PitchesInOrder(before);
      FiltersBack(before, Pitches(before), e, (e: Event) => e.isPitch);
      assert events == before + [e];
      assert Pitches(events) == if e.isPitch then Pitches(before) + [e] else Pitches(before);
    }
  }

  /** The kept positions rise, and are those of the plays that are complete or have an event. */
  lemma {:induction false} KeptMeans(plays: seq<Play>, n: nat)
    requires n <= |plays|
    ensures forall a, b | 0 <= a < b < |Kept(plays, n)| :: Kept(plays, n)[a] < Kept(plays, n)[b]
    ensures forall i: nat :: i in Kept(plays, n) <==> i < n && (plays[i].isComplete || plays[i].events != [])
  {
    if n > 0 {
      KeptMeans(plays, n - 1);
      var before := Kept(plays, n - 1);
      assert forall a | 0 <= a < |before| :: before[a] < n - 1;
    }
  }

  /** The record made before record `j` is that of the latest kept play before its own. */
  lemma {:induction false} PreviousKept(plays: seq<Play>, n: nat, j: nat)
    requires n <= |plays| && j < |Kept(plays, n)|
    ensures Previous(plays, Kept(plays, n)[j]) == if j == 0 then None else Some(Kept(plays, n)[j - 1])
  {
    if j < |Kept(plays, n - 1)| {
      PreviousKept(plays, n - 1, j);
    }
  }

  /** Every field of every record, from the feed and the record before it: whose plate
      appearance it is, the score and the outs carried on, the runners of its first pitch, and
      its pitches in the order thrown. */
  lemma {:induction false} RecordMeans(plays: seq<Play>, j: nat)
    requires j < |Kept(plays, |plays|)|
    ensures |Records(plays, |plays|)| == |Kept(plays, |plays|)|
    ensures var i := Kept(plays, |plays|)[j];
      var play, record := plays[i], Records(plays, |plays|)[j];
      && record.atBat == (if play.atBatIndex.Some? then play.atBatIndex.value else j)
      && record.key == play.key && record.batter == play.batter && record.pitcher == play.pitcher
      && record.isComplete == play.isComplete
      && (record.batterFinished <==> TurnEnded(plays, i))
      && record.outsAfter == play.outs
      && (forall s :: record.scoreAfter.At(s) == match play.score.At(s) case None => 0 case Some(v) => v)
      && Filters(play.events, record.pitches, (e: Event) => e.isPitch)
    ensures var record := Records(plays, |plays|)[j];
      if j == 0 then record.scoreBefore == PerSide(0, 0) && record.outsBefore == 0
      else
        var before := Records(plays, |plays|)[j - 1];
        && record.scoreBefore == before.scoreAfter
        && record.outsBefore == if before.key == record.key then before.outsAfter else 0
    ensures var i := Kept(plays, |plays|)[j];
      var play, record := plays[i], Records(plays, |plays|)[j];
      && (forall d | 0 <= d < |play.events| && play.events[d].isPitch
                     && (forall c | 0 <= c < d :: !play.events[c].isPitch) ::
            record.runners == play.events[d].offense)
      && ((forall d | 0 <= d < |play.events| :: !play.events[d].isPitch) ==>
            record.runners ==
            if j > 0 && plays[Kept(plays, |plays|)[j - 1]].key == play.key
            then plays[Kept(plays, |plays|)[j - 1]].postOn else EMPTY_BASES)
  {
    hide Records, Kept, Pitches, Filters, TurnEnded, Previous;
    RecordAt(plays, |plays|, j);
    PreviousKept(plays, |plays|, j);
    PitchesInOrder(plays[Kept(plays, |plays|)[j]].events);
    if j > 0 {
      RecordAt(plays, |plays|, j - 1);
    }
  }
}
