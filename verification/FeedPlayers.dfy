/** Who is used up, who may still enter, and whose turn it is. */
module FeedPlayers {
  import opened Helpers
  import opened Feed
  import opened FeedPlays
  import opened FeedRoster
  import opened FeedReplay
  import opened FeedSituation
  import opened FeedConservation
  import opened FeedDefense

  // ----- the used set -----

  /** Event `e` brings player `p` into the game on side `s`. */
  ghost predicate Enters(e: Event, isTop: bool, s: Side, p: int) {
    !e.isPitch && IsSub(e) && SubSide(e, isTop) == s && e.player.value == p
  }

  /** Player `p` took part in the completed play for side `s`: he came in on it, pitched
      it, or stood on a base after it. */
  ghost predicate TookPart(play: Play, s: Side, p: int) {
    || (exists k | 0 <= k < |play.events| :: Enters(play.events[k], play.key.isTop, s, p))
    || (Fielding(play.key.isTop) == s && play.pitcher == Some(p))
    || (Batting(play.key.isTop) == s
        && (play.postOn.first == Some(p) || play.postOn.second == Some(p) || play.postOn.third == Some(p)))
  }

  lemma {:induction false} UsedByEvents(field: Field, events: seq<Event>, n: nat, isTop: bool, s: Side, p: int)
    requires n <= |events|
    ensures p in PlayEvents(field, events, n, isTop).clubs.At(s).used <==>
            p in field.clubs.At(s).used || exists k | 0 <= k < n :: Enters(events[k], isTop, s, p)
  {
    if n > 0 {
      UsedByEvents(field, events, n - 1, isTop, s, p);
      UsedByEvent(PlayEvents(field, events, n - 1, isTop), events[n - 1], isTop, s, p);
    }
  }

  lemma UsedByEvent(field: Field, e: Event, isTop: bool, s: Side, p: int)
    ensures p in PlayEvent(field, e, isTop).clubs.At(s).used <==>
            p in field.clubs.At(s).used || Enters(e, isTop, s, p)
  {
  }

  lemma {:induction false} UsedByLeadIn(clubs: PerSide<Club>, events: seq<Event>, n: nat, isTop: bool, s: Side, p: int)
    requires n <= |events|
    requires forall k | 0 <= k < n :: !events[k].isPitch
    ensures p in LeadIn(clubs, events, n, isTop).At(s).used <==>
            p in clubs.At(s).used || exists k | 0 <= k < n :: Enters(events[k], isTop, s, p)
  {
    if n > 0 {
      UsedByLeadIn(clubs, events, n - 1, isTop, s, p);
    }
  }

  lemma UsedByName(clubs: PerSide<Club>, play: Play, s: Side, p: int)
    ensures p in UseNamed(clubs, play).At(s).used <==>
            || p in clubs.At(s).used
            || (Fielding(play.key.isTop) == s && play.pitcher == Some(p))
            || (Batting(play.key.isTop) == s
                && (play.postOn.first == Some(p) || play.postOn.second == Some(p) || play.postOn.third == Some(p)))
  {
  }

  lemma UsedByPlay(st: Replay, play: Play, finished: bool, s: Side, p: int)
    ensures p in Complete(st, play, finished).field.clubs.At(s).used <==>
            p in st.field.clubs.At(s).used || TookPart(play, s, p)
  {
    hide PlayEvents, Enters, UseNamed, CreditFaced, MoveSlot, ScoreAfter;
    UsedByEvents(st.field, play.events, |play.events|, play.key.isTop, s, p);
    UsedByName(PlayEvents(st.field, play.events, |play.events|, play.key.isTop).clubs, play, s, p);
  }

  lemma {:induction false} UsedSoFar(init: Replay, plays: seq<Play>, n: nat, s: Side, p: int)
    requires n <= |plays|
    ensures p in After(init, plays, n).field.clubs.At(s).used <==>
            p in init.field.clubs.At(s).used || exists i | 0 <= i < n :: TookPart(plays[i], s, p)
  {
    hide Complete, TookPart, TurnHalf, TurnEnded;
    if n > 0 {
      var before := After(init, plays, n - 1);
      UsedSoFar(init, plays, n - 1, s, p);
      TurnKeepsField(before, plays[n - 1].key);
      UsedByPlay(TurnHalf(before, plays[n - 1].key), plays[n - 1], TurnEnded(plays, n - 1), s, p);
    }
  }

  /** Player `p` comes in before the target's first pitch. */
  ghost predicate EntersBefore(play: Play, s: Side, p: int) {
    exists k | 0 <= k < |play.events| ::
      Enters(play.events[k], play.key.isTop, s, p)
      && forall d | 0 <= d <= k :: !play.events[d].isPitch
  }

  lemma UsedByBegin(st: Replay, play: Play, s: Side, p: int)
    ensures p in Begin(st, play).field.clubs.At(s).used <==>
            p in st.field.clubs.At(s).used || EntersBefore(play, s, p)
  {
    var pitch := FirstPitch(play.events);
    var n := if pitch.Some? then pitch.value else |play.events|;
    UsedByLeadIn(st.field.clubs, play.events, n, play.key.isTop, s, p);
    if k :| 0 <= k < |play.events| && Enters(play.events[k], play.key.isTop, s, p)
            && forall d | 0 <= d <= k :: !play.events[d].isPitch {
      assert k < n;
    }
    if p in LeadIn(st.field.clubs, play.events, n, play.key.isTop).At(s).used
       && p !in st.field.clubs.At(s).used {
      var k :| 0 <= k < n && Enters(play.events[k], play.key.isTop, s, p);
      assert forall d | 0 <= d <= k :: !play.events[d].isPitch;
    }
    hide LeadIn, Enters;
  }

  /** The used set, exactly: the starting nine, the starting pitcher, everyone who took
      part in an earlier play, and everyone who came in before the target's first pitch. */
  lemma UsedExactly(rosters: PerSide<Roster>, plays: seq<Play>, n: nat, k: int, s: Side, p: int)
    requires FirstPitchState(rosters).Ok?
    requires IsTarget(plays, n, k)
    ensures StateAt(rosters, plays, Some(k)).Ok?
    ensures p in StateAt(rosters, plays, Some(k)).value.clubs.At(s).used <==>
            || p in rosters.At(s).Lineup()
            || Some(p) == rosters.At(s).startingPitcher
            || (exists i | 0 <= i < n :: TookPart(plays[i], s, p))
            || EntersBefore(plays[n], s, p)
  {
    var init, st := StateOf(rosters, plays, n, k);
    UsedAtFirstPitch(rosters, s, p);
    UsedSoFar(init, plays, n, s, p);
    UsedByBegin(st, plays[n], s, p);
    hide StateAt, Begin, After, TookPart, EntersBefore, FirstPitchState;
  }

  lemma UsedAtFirstPitch(rosters: PerSide<Roster>, s: Side, p: int)
    requires FirstPitchState(rosters).Ok?
    ensures p in FirstPitchState(rosters).value.field.clubs.At(s).used <==>
            p in rosters.At(s).Lineup() || Some(p) == rosters.At(s).startingPitcher
  {
  }

  // ----- who may still enter -----

  lemma {:induction false} FreshDistinct(list: seq<int>, club: Club)
    requires Distinct(list)
    ensures Distinct(Fresh(list, club))
  {
    if |list| > 0 {
      assert forall x | x in list[1..] :: x != list[0];
      FreshDistinct(list[1..], club);
    }
  }

  /** No re-entry: the eligible lists name nobody twice, and nobody who started, pitched
      first, took part in an earlier play, or came in before the target's first pitch. */
  lemma NoReentry(rosters: PerSide<Roster>, boxes: PerSide<Box>, plays: seq<Play>, n: nat, k: int,
                  s: Side, p: int)
    requires rosters == PerSide(RosterOf(boxes.away), RosterOf(boxes.home))
    requires FirstPitchState(rosters).Ok?
    requires IsTarget(plays, n, k)
    ensures StateAt(rosters, plays, Some(k)).Ok?
    ensures var r := StateAt(rosters, plays, Some(k)).value;
            && Distinct(r.eligibleHitters.At(s)) && Distinct(r.eligiblePitchers.At(s))
            && (p in r.eligibleHitters.At(s) || p in r.eligiblePitchers.At(s) ==>
                && p !in rosters.At(s).Lineup()
                && Some(p) != rosters.At(s).startingPitcher
                && (forall i | 0 <= i < n :: !TookPart(plays[i], s, p))
                && !EntersBefore(plays[n], s, p)
                && p !in r.clubs.At(s).lineup && p !in r.clubs.At(s).defense.Values)
  {
    var init, st := StateOf(rosters, plays, n, k);
    UsedExactly(rosters, plays, n, k, s, p);
    var club := StateAt(rosters, plays, Some(k)).value.clubs.At(s);
    FreshDistinct(rosters.At(s).hitters, club);
    FreshDistinct(rosters.At(s).arms, club);
    hide StateAt, Begin, After, TookPart, EntersBefore, FirstPitchState, RosterOf, Fresh;
  }

  /** An arm is offered as a hitter only when he held a batting-order spot, and every
      hitter offered is a batter or bench player of the box score. */
  lemma HittersAreBatters(boxes: PerSide<Box>, plays: seq<Play>, n: nat, k: int, s: Side, p: int)
    requires FirstPitchState(PerSide(RosterOf(boxes.away), RosterOf(boxes.home))).Ok?
    requires IsTarget(plays, n, k)
    ensures var rosters := PerSide(RosterOf(boxes.away), RosterOf(boxes.home));
            var box := boxes.At(s);
            StateAt(rosters, plays, Some(k)).Ok?
            && (p in StateAt(rosters, plays, Some(k)).value.eligibleHitters.At(s) ==>
                (p in box.batters || p in box.bench)
                && (p in box.pitchers || p in box.bullpen ==> p in Batted(box.players)))
  {
    var init, st := StateOf(PerSide(RosterOf(boxes.away), RosterOf(boxes.home)), plays, n, k);
  }

  /** Every man who ever held a batting-order slot is used up. */
  lemma {:induction false} LineupIsUsed(init: Replay, plays: seq<Play>, m: nat, n: nat, s: Side, slot: nat)
    requires m <= n <= |plays|
    requires slot < 9
    requires forall j | 0 <= j < 9 :: init.field.clubs.At(s).lineup[j] in init.field.clubs.At(s).used
    ensures After(init, plays, m).field.clubs.At(s).lineup[slot]
            in After(init, plays, n).field.clubs.At(s).used
  {
    var p := After(init, plays, m).field.clubs.At(s).lineup[slot];
    LineupUsedNow(init, plays, m, s, slot);
    UsedSoFar(init, plays, m, s, p);
    UsedSoFar(init, plays, n, s, p);
    hide After, TookPart;
  }

  ghost predicate LineupUsed(club: Club) {
    forall j | 0 <= j < 9 :: club.lineup[j] in club.used
  }

  lemma LineupUsedByEvent(field: Field, e: Event, isTop: bool, s: Side)
    requires LineupUsed(field.clubs.At(s))
    ensures LineupUsed(PlayEvent(field, e, isTop).clubs.At(s))
  {
  }

  lemma {:induction false} LineupUsedByEvents(field: Field, events: seq<Event>, n: nat, isTop: bool, s: Side)
    requires n <= |events|
    requires LineupUsed(field.clubs.At(s))
    ensures LineupUsed(PlayEvents(field, events, n, isTop).clubs.At(s))
  {
    if n > 0 {
      LineupUsedByEvents(field, events, n - 1, isTop, s);
      LineupUsedByEvent(PlayEvents(field, events, n - 1, isTop), events[n - 1], isTop, s);
    }
  }

  lemma {:induction false} LineupUsedNow(init: Replay, plays: seq<Play>, n: nat, s: Side, slot: nat)
    requires n <= |plays|
    requires slot < 9
    requires LineupUsed(init.field.clubs.At(s))
    ensures LineupUsed(After(init, plays, n).field.clubs.At(s))
    ensures After(init, plays, n).field.clubs.At(s).lineup[slot]
            in After(init, plays, n).field.clubs.At(s).used
  {
    if n > 0 {
      LineupUsedNow(init, plays, n - 1, s, slot);
      var play := plays[n - 1];
      LineupUsedByEvents(After(init, plays, n - 1).field, play.events, |play.events|, play.key.isTop, s);
    }
    hide PlayEvents;
  }

  // ----- the batting slots -----

  /** The batting side's lineup once the events of play `i` are over. */
  ghost function LineupIn(init: Replay, plays: seq<Play>, i: nat): Nine
    requires i < |plays|
  {
    PlayEvents(After(init, plays, i).field, plays[i].events, |plays[i].events|, plays[i].key.isTop)
      .clubs.At(Batting(plays[i].key.isTop)).lineup
  }

  ghost predicate MovesSlot(init: Replay, plays: seq<Play>, i: nat, s: Side)
    requires i < |plays|
  {
    Batting(plays[i].key.isTop) == s && plays[i].batter.Some?
    && plays[i].batter.value in LineupIn(init, plays, i)
  }

  /** The latest play before `n` on which a man in the lineup batted for side `s`. */
  ghost function LatestTurn(init: Replay, plays: seq<Play>, n: nat, s: Side): Option<nat>
    requires n <= |plays|
  {
    if n == 0 then None
    else if MovesSlot(init, plays, n - 1, s) then Some(n - 1)
    else LatestTurn(init, plays, n - 1, s)
  }

  lemma {:induction false} LatestTurnMeans(init: Replay, plays: seq<Play>, n: nat, s: Side)
    requires n <= |plays|
    ensures match LatestTurn(init, plays, n, s)
            case None => forall i | 0 <= i < n :: !MovesSlot(init, plays, i, s)
            case Some(j) => j < n && MovesSlot(init, plays, j, s)
                            && forall i | j < i < n :: !MovesSlot(init, plays, i, s)
  {
    hide MovesSlot;
    if n > 0 {
      LatestTurnMeans(init, plays, n - 1, s);
    }
  }

  /** The slot after play `i`: the batter's own while his turn is open, else the next. */
  ghost function SlotFrom(init: Replay, plays: seq<Play>, i: nat, s: Side): int
    requires i < |plays| && MovesSlot(init, plays, i, s)
  {
    (IndexOf(LineupIn(init, plays, i), plays[i].batter.value) + if TurnEnded(plays, i) then 1 else 0) % 9
  }

  lemma SlotMoves(init: Replay, plays: seq<Play>, n: nat, s: Side)
    requires n < |plays|
    ensures var next := After(init, plays, n + 1).lastSlot.At(s);
            if MovesSlot(init, plays, n, s)
            then next == Some((IndexOf(LineupIn(init, plays, n), plays[n].batter.value)
                               - if TurnEnded(plays, n) then 0 else 1) % 9)
            else next == After(init, plays, n).lastSlot.At(s)
  {
    hide PlayEvents, IndexOf, TurnEnded, UseNamed, CreditFaced, ScoreAfter;
  }

  lemma {:induction false} SlotSoFar(init: Replay, plays: seq<Play>, n: nat, s: Side)
    requires n <= |plays|
    requires FirstPitchOf(init)
    ensures match LatestTurn(init, plays, n, s)
            case None => NextSlot(After(init, plays, n).lastSlot.At(s)) == 0
            case Some(i) =>
              i < n && MovesSlot(init, plays, i, s)
              && NextSlot(After(init, plays, n).lastSlot.At(s)) == SlotFrom(init, plays, i, s)
  {
    hide After, MovesSlot, LineupIn, IndexOf, TurnEnded;
    AfterNone(init, plays);
    LatestTurnMeans(init, plays, n, s);
    if n > 0 {
      SlotSoFar(init, plays, n - 1, s);
      SlotMoves(init, plays, n - 1, s);
    }
  }

  /** The batting order: at any target, each side's next slot is the latest batter's own
      slot when his turn was left open and the following slot mod 9 when it ended. */
  lemma {:induction false} SlotLaw(rosters: PerSide<Roster>, plays: seq<Play>, n: nat, k: int, s: Side)
    requires FirstPitchState(rosters).Ok?
    requires IsTarget(plays, n, k)
    ensures var init := FirstPitchState(rosters).value;
            var r := StateAt(rosters, plays, Some(k));
            && r.Ok?
            && match LatestTurn(init, plays, n, s)
               case None => r.value.slots.At(s) == 0
               case Some(i) =>
                 i < n && MovesSlot(init, plays, i, s)
                 && r.value.slots.At(s) == SlotFrom(init, plays, i, s)
  {
    var init, st := StateOf(rosters, plays, n, k);
    SlotSoFar(init, plays, n, s);
    hide StateAt, LatestTurn, SlotFrom, After, LeadIn;
  }

  /** The event puts its man in a batting-order slot of side `s`. */
  ghost predicate TakesSlot(e: Event, isTop: bool, s: Side, slot: nat) {
    !e.isPitch && IsSub(e) && SubSide(e, isTop) == s && SlotNamed(e) == Some(slot)
  }

  lemma SlotBySub(clubs: PerSide<Club>, e: Event, isTop: bool, s: Side, slot: nat)
    requires slot < 9 && !e.isPitch
    ensures ApplySub(clubs, e, isTop).At(s).lineup[slot]
         == if TakesSlot(e, isTop, s, slot) then e.player.value else clubs.At(s).lineup[slot]
  {
  }

  /** No event of the play puts a man in the slot. */
  ghost predicate KeepsSlot(play: Play, s: Side, slot: nat) {
    forall k | 0 <= k < |play.events| :: !TakesSlot(play.events[k], play.key.isTop, s, slot)
  }

  lemma {:induction false} EventsKeepSlot(field: Field, play: Play, n: nat, s: Side, slot: nat)
    requires n <= |play.events| && slot < 9 && KeepsSlot(play, s, slot)
    ensures PlayEvents(field, play.events, n, play.key.isTop).clubs.At(s).lineup[slot]
         == field.clubs.At(s).lineup[slot]
  {
    hide ApplySub, TakesSlot, DefenseOf, ChargedTo;
    if n > 0 {
      EventsKeepSlot(field, play, n - 1, s, slot);
      if !play.events[n - 1].isPitch {
        SlotBySub(PlayEvents(field, play.events, n - 1, play.key.isTop).clubs, play.events[n - 1],
                  play.key.isTop, s, slot);
      }
    }
  }

  /** The slot after the substitutions `from` to `n` of a lead-in, none of which takes it. */
  lemma {:induction false} LeadInKeepsSlot(clubs: PerSide<Club>, play: Play, from: nat, n: nat, s: Side, slot: nat)
    requires from <= n <= |play.events| && slot < 9
    requires forall k | from <= k < n :: !play.events[k].isPitch && !TakesSlot(play.events[k], play.key.isTop, s, slot)
    ensures LeadIn(clubs, play.events, n, play.key.isTop).At(s).lineup[slot]
         == LeadIn(clubs, play.events, from, play.key.isTop).At(s).lineup[slot]
  {
    hide ApplySub, TakesSlot;
    if from < n {
      LeadInKeepsSlot(clubs, play, from, n - 1, s, slot);
      SlotBySub(LeadIn(clubs, play.events, n - 1, play.key.isTop), play.events[n - 1], play.key.isTop, s, slot);
    }
  }

  lemma {:induction false} SlotKept(init: Replay, plays: seq<Play>, i: nat, n: nat, s: Side, slot: nat)
    requires i < n <= |plays| && slot < 9
    requires Batting(plays[i].key.isTop) == s
    requires forall h | i < h < n :: KeepsSlot(plays[h], s, slot)
    ensures After(init, plays, n).field.clubs.At(s).lineup[slot] == LineupIn(init, plays, i)[slot]
  {
    hide PlayEvents, KeepsSlot;
    if n > i + 1 {
      SlotKept(init, plays, i, n - 1, s, slot);
      EventsKeepSlot(After(init, plays, n - 1).field, plays[n - 1], |plays[n - 1].events|, s, slot);
    }
  }

  /** The slot of the batter of play `i`, in the order that play left. */
  ghost function SlotOfTurn(init: Replay, plays: seq<Play>, i: nat, b: int): (slot: nat)
    requires i < |plays| && b in LineupIn(init, plays, i)
    ensures slot < 9 && LineupIn(init, plays, i)[slot] == b
  {
    IndexOf(LineupIn(init, plays, i), b)
  }

  /** An open turn of `b` on play `i`, whose side bats next on play `n`. */
  ghost predicate OpenTurn(init: Replay, plays: seq<Play>, i: nat, n: nat, b: int) {
    && i < n < |plays| && plays[i].key.isTop == plays[n].key.isTop
    && (forall h | i < h < n :: plays[h].key.isTop != plays[n].key.isTop)
    && plays[i].batter == Some(b) && b in LineupIn(init, plays, i)
    && !TurnEnded(plays, i)
  }

  /** The next slot at play `n` is that of the open turn. */
  lemma OpenTurnSlot(rosters: PerSide<Roster>, plays: seq<Play>, i: nat, n: nat, k: int, b: int)
    requires FirstPitchState(rosters).Ok? && IsTarget(plays, n, k)
    requires OpenTurn(FirstPitchState(rosters).value, plays, i, n, b)
    ensures var r := StateAt(rosters, plays, Some(k));
            r.Ok? && r.value.slots.At(Batting(plays[n].key.isTop))
                     == SlotOfTurn(FirstPitchState(rosters).value, plays, i, b)
  {
    hide StateAt, LineupIn, After, TurnEnded, PlayEvents, FirstPitchState, IndexOf;
    var init, s := FirstPitchState(rosters).value, Batting(plays[n].key.isTop);
    SlotLaw(rosters, plays, n, k, s);
    assert MovesSlot(init, plays, i, s);
    LatestTurnMeans(init, plays, n, s);
    assert LatestTurn(init, plays, n, s) == Some(i);
  }

  /** The men in the batting order of the start state are those the lead-in leaves. */
  lemma StartLineup(rosters: PerSide<Roster>, plays: seq<Play>, n: nat, k: int, s: Side)
    returns (d: nat, clubs: PerSide<Club>)
    requires FirstPitchState(rosters).Ok? && IsTarget(plays, n, k)
    ensures d <= |plays[n].events| && Leads(plays[n], d)
    ensures d < |plays[n].events| ==> plays[n].events[d].isPitch
    ensures clubs == After(FirstPitchState(rosters).value, plays, n).field.clubs
    ensures StateAt(rosters, plays, Some(k)).Ok?
    ensures StateAt(rosters, plays, Some(k)).value.clubs.At(s).lineup
         == LeadIn(clubs, plays[n].events, d, plays[n].key.isTop).At(s).lineup
  {
    hide StateAt, After, FirstPitchState, LeadIn, Begin, DefenseOf;
    var init, st := StateOf(rosters, plays, n, k);
    TurnKeepsField(After(init, plays, n), plays[n].key);
    clubs := After(init, plays, n).field.clubs;
    d := BeginClubs(st, plays[n]);
  }

  /** The promise of the open turn: when the half ended on the bases and the same man opens
      his side's next turn, the state at that turn has him in the next slot, as long as no
      substitution up to the first pitch gave his slot away. */
  lemma LeadsOffAgain(rosters: PerSide<Roster>, plays: seq<Play>, i: nat, n: nat, k: int, b: int)
    requires FirstPitchState(rosters).Ok? && IsTarget(plays, n, k)
    requires OpenTurn(FirstPitchState(rosters).value, plays, i, n, b)
    requires var s, slot := Batting(plays[n].key.isTop), SlotOfTurn(FirstPitchState(rosters).value, plays, i, b);
      && (forall h | i < h < n :: KeepsSlot(plays[h], s, slot))
      && forall e | 0 <= e < |plays[n].events| && Leads(plays[n], e) ::
           !TakesSlot(plays[n].events[e], plays[n].key.isTop, s, slot)
    ensures var s := Batting(plays[n].key.isTop);
            var r := StateAt(rosters, plays, Some(k));
            && r.Ok?
            && 0 <= r.value.slots.At(s) < 9
            && r.value.clubs.At(s).lineup[r.value.slots.At(s)] == b
  {
    hide StateAt, LineupIn, After, FirstPitchState, LeadIn, TakesSlot, SlotOfTurn, TurnEnded;
    var init, s := FirstPitchState(rosters).value, Batting(plays[n].key.isTop);
    var slot := SlotOfTurn(init, plays, i, b);
    OpenTurnSlot(rosters, plays, i, n, k, b);
    SlotKept(init, plays, i, n, s, slot);
    var d, clubs := StartLineup(rosters, plays, n, k, s);
    LeadInKeepsSlot(clubs, plays[n], 0, d, s, slot);
    NoLeadIn(clubs, plays[n].events, plays[n].key.isTop);
  }

  lemma {:induction false} NoLeadIn(clubs: PerSide<Club>, events: seq<Event>, isTop: bool)
    ensures LeadIn(clubs, events, 0, isTop) == clubs
  {
  }

  /** The other half of the promise: when a pinch hitter for him goes on with the turn, the
      pinch hitter stands in the next slot, whatever else changed the order in between. */
  lemma PinchHitterLeadsOff(rosters: PerSide<Roster>, plays: seq<Play>, i: nat, n: nat, k: int, b: int, e: nat)
    requires FirstPitchState(rosters).Ok? && IsTarget(plays, n, k)
    requires e < |plays[n].events| && Leads(plays[n], e + 1)
    requires var event := plays[n].events[e];
             IsPinchHit(event) && event.replaced == Some(b) && event.player.Some?
    requires i < n && plays[i].key.isTop == plays[n].key.isTop
    requires forall h | i < h < n :: plays[h].key.isTop != plays[n].key.isTop
    requires plays[i].batter == Some(b) && b in LineupIn(FirstPitchState(rosters).value, plays, i)
    requires var s, slot := Batting(plays[n].key.isTop), SlotOfTurn(FirstPitchState(rosters).value, plays, i, b);
      && SlotNamed(plays[n].events[e]) == Some(slot)
      && forall later | e < later < |plays[n].events| && Leads(plays[n], later) ::
           !TakesSlot(plays[n].events[later], plays[n].key.isTop, s, slot)
    ensures var s := Batting(plays[n].key.isTop);
            var r := StateAt(rosters, plays, Some(k));
            && r.Ok?
            && 0 <= r.value.slots.At(s) < 9
            && Some(r.value.clubs.At(s).lineup[r.value.slots.At(s)]) == plays[n].events[e].player
  {
    hide StateAt, LineupIn, After, FirstPitchState, LeadIn, SlotOfTurn, TurnEnded, ApplySub;
    var init, s, isTop := FirstPitchState(rosters).value, Batting(plays[n].key.isTop), plays[n].key.isTop;
    var slot := SlotOfTurn(init, plays, i, b);
    TurnEndedByNextPlay(plays, i, n);
    assert PinchHitFor(plays[n], b);
    OpenTurnSlot(rosters, plays, i, n, k, b);
    var d, clubs := StartLineup(rosters, plays, n, k, s);
    assert e < d;
    OneSubOn(clubs, plays[n].events, e, isTop);
    SlotBySub(LeadIn(clubs, plays[n].events, e, isTop), plays[n].events[e], isTop, s, slot);
    LeadInKeepsSlot(clubs, plays[n], e + 1, d, s, slot);
  }
}
