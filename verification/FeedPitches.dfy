/** Whom the replay charges each pitch to. */
module FeedPitches {
  import opened Helpers
  import opened Feed
  import opened FeedPlays
  import opened FeedRoster
  import opened FeedReplay
  import opened FeedSituation
  import opened FeedConservation

  /** The pitch names a man at P. An id of 0 reads as no man. */
  ghost predicate NamesPitcher(e: Event) {
    P in e.defense && e.defense[P].Some? && e.defense[P].value != 0
  }

  /** The man who threw the pitch: the one it names at P, else the fielding club's pitcher
      once the pitch has been seen. */
  ghost function Thrower(field: Field, e: Event, isTop: bool): int {
    if NamesPitcher(e) then e.defense[P].value
    else PlayEvent(field, e, isTop).clubs.At(if isTop then Home else Away).pitcher
  }

  /** The pitches that `p` threw among the first `n` events of a play. */
  ghost function ThrownIn(field: Field, events: seq<Event>, n: nat, isTop: bool, p: int): nat
    requires n <= |events|
  {
    if n == 0 then 0
    else
      ThrownIn(field, events, n - 1, isTop, p)
      + if events[n - 1].isPitch && Thrower(PlayEvents(field, events, n - 1, isTop), events[n - 1], isTop) == p
        then 1 else 0
  }

  /** The pitches that `p` threw in the plays before `n`. */
  ghost function ThrownBefore(init: Replay, plays: seq<Play>, n: nat, p: int): nat
    requires n <= |plays|
  {
    if n == 0 then 0
    else
      ThrownBefore(init, plays, n - 1, p)
      + ThrownIn(After(init, plays, n - 1).field, plays[n - 1].events, |plays[n - 1].events|,
                 plays[n - 1].key.isTop, p)
  }

  /** The count of `p`, who is a key exactly when he threw one. */
  ghost predicate Counts(counts: map<int, int>, p: int, thrown: nat) {
    (p in counts <==> thrown > 0) && (p in counts ==> counts[p] == thrown)
  }

  lemma EventCounts(field: Field, e: Event, isTop: bool, p: int, thrown: nat)
    requires Counts(field.pitchCounts, p, thrown)
    ensures Counts(PlayEvent(field, e, isTop).pitchCounts, p,
                   thrown + if e.isPitch && Thrower(field, e, isTop) == p then 1 else 0)
  {
  }

  lemma {:induction false} EventsCount(field: Field, events: seq<Event>, n: nat, isTop: bool, p: int, thrown: nat)
    requires n <= |events| && Counts(field.pitchCounts, p, thrown)
    ensures Counts(PlayEvents(field, events, n, isTop).pitchCounts, p, thrown + ThrownIn(field, events, n, isTop, p))
  {
    hide PlayEvent, Thrower, Counts;
    if n > 0 {
      EventsCount(field, events, n - 1, isTop, p, thrown);
      EventCounts(PlayEvents(field, events, n - 1, isTop), events[n - 1], isTop, p,
                  thrown + ThrownIn(field, events, n - 1, isTop, p));
    }
  }

  lemma CountsAfter(init: Replay, plays: seq<Play>, n: nat)
    requires 0 < n <= |plays|
    ensures After(init, plays, n).field.pitchCounts
         == PlayEvents(After(init, plays, n - 1).field, plays[n - 1].events, |plays[n - 1].events|,
                       plays[n - 1].key.isTop).pitchCounts
  {
    hide PlayEvents, UseNamed, MoveSlot, CreditFaced, ScoreAfter, TurnEnded;
    TurnKeepsField(After(init, plays, n - 1), plays[n - 1].key);
  }

  lemma {:induction false} CountsSoFar(init: Replay, plays: seq<Play>, n: nat, p: int)
    requires n <= |plays| && FirstPitchOf(init)
    ensures Counts(After(init, plays, n).field.pitchCounts, p, ThrownBefore(init, plays, n, p))
  {
    hide After, PlayEvents, ThrownIn;
    AfterNone(init, plays);
    if n > 0 {
      var play := plays[n - 1];
      CountsSoFar(init, plays, n - 1, p);
      CountsAfter(init, plays, n);
      EventsCount(After(init, plays, n - 1).field, play.events, |play.events|, play.key.isTop, p,
                  ThrownBefore(init, plays, n - 1, p));
    }
  }

  /** At every target, each man's count is the number of pitches he threw in the earlier
      plays, and the men with a count are those who threw one. */
  lemma {:induction false} PitchCountsExact(rosters: PerSide<Roster>, plays: seq<Play>, n: nat, k: int, p: int)
    requires FirstPitchState(rosters).Ok?
    requires IsTarget(plays, n, k)
    ensures var thrown := ThrownBefore(FirstPitchState(rosters).value, plays, n, p);
            var r := StateAt(rosters, plays, Some(k));
            && r.Ok?
            && (p in r.value.pitchCounts <==> thrown > 0)
            && (p in r.value.pitchCounts ==> r.value.pitchCounts[p] == thrown)
  {
    hide StateAt, After, FirstPitchState, ThrownBefore;
    var init, st := StateOf(rosters, plays, n, k);
    CountsSoFar(init, plays, n, p);
    TurnKeepsField(After(init, plays, n), plays[n].key);
  }

  /** The pitches among the first `n` events that name `p` at P. */
  function NamedIn(events: seq<Event>, n: nat, p: int): nat
    requires n <= |events|
  {
    if n == 0 then 0
    else
      var e := events[n - 1];
      NamedIn(events, n - 1, p) + if e.isPitch && P in e.defense && e.defense[P] == Some(p) then 1 else 0
  }

  function NamedBefore(plays: seq<Play>, n: nat, p: int): nat
    requires n <= |plays|
  {
    if n == 0 then 0
    else NamedBefore(plays, n - 1, p) + NamedIn(plays[n - 1].events, |plays[n - 1].events|, p)
  }

  ghost predicate AllNamed(events: seq<Event>) {
    forall d | 0 <= d < |events| && events[d].isPitch :: NamesPitcher(events[d])
  }

  lemma {:induction false} NamedAreThrown(field: Field, events: seq<Event>, n: nat, isTop: bool, p: int)
    requires n <= |events| && AllNamed(events)
    ensures ThrownIn(field, events, n, isTop, p) == NamedIn(events, n, p)
  {
    hide PlayEvents, PlayEvent;
    if n > 0 {
      NamedAreThrown(field, events, n - 1, isTop, p);
    }
  }

  lemma {:induction false} NamedSoFar(init: Replay, plays: seq<Play>, n: nat, p: int)
    requires n <= |plays| && forall i | 0 <= i < n :: AllNamed(plays[i].events)
    ensures ThrownBefore(init, plays, n, p) == NamedBefore(plays, n, p)
  {
    hide After, ThrownIn, NamedIn, AllNamed;
    if n > 0 {
      NamedSoFar(init, plays, n - 1, p);
      NamedAreThrown(After(init, plays, n - 1).field, plays[n - 1].events, |plays[n - 1].events|,
                     plays[n - 1].key.isTop, p);
    }
  }

  /** When every earlier pitch names its pitcher, the counts are those of the feed alone. */
  lemma {:induction false} PitchCountsOfFeed(rosters: PerSide<Roster>, plays: seq<Play>, n: nat, k: int, p: int)
    requires FirstPitchState(rosters).Ok?
    requires IsTarget(plays, n, k)
    requires forall i | 0 <= i < n :: AllNamed(plays[i].events)
    ensures var r := StateAt(rosters, plays, Some(k));
            && r.Ok?
            && (p in r.value.pitchCounts <==> NamedBefore(plays, n, p) > 0)
            && (p in r.value.pitchCounts ==> r.value.pitchCounts[p] == NamedBefore(plays, n, p))
  {
    hide StateAt, FirstPitchState, ThrownBefore, NamedBefore, AllNamed;
    PitchCountsExact(rosters, plays, n, k, p);
    NamedSoFar(FirstPitchState(rosters).value, plays, n, p);
  }
}
