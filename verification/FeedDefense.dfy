/** What the replay's substitutions do to a club: the batting order, the fielding positions
    and the man on the mound. */
module FeedDefense {
  import opened Helpers
  import opened Feed
  import opened FeedPlays
  import opened FeedRoster
  import opened FeedReplay
  import opened FeedSituation
  import opened FeedConservation

  // ----- one substitution -----

  /** The batting-order slot an event names. */
  function SlotNamed(e: Event): Option<nat> {
    if e.battingOrder.Some? && 1 <= e.battingOrder.value / 100 <= 9
    then Some(e.battingOrder.value / 100 - 1) else None
  }

  /** The position a fielding substitution gives. */
  function SpotNamed(e: Event): Option<Spot> {
    if (e.kind == DefensiveSubstitution || e.kind == DefensiveSwitch)
       && e.position.Some? && e.position.value !in {Other(""), PH, PR, DH}
    then e.position else None
  }

  function Substituted(club: Club, e: Event): Club
    requires IsSub(e)
  {
    TakePosition(TakeSlot(club, e, e.player.value), e, e.player.value)
  }

  /** A substitution changes the one club it belongs to, and adds the man to its used. */
  lemma OneClubChanges(clubs: PerSide<Club>, e: Event, isTop: bool, s: Side)
    requires IsSub(e)
    ensures var after := ApplySub(clubs, e, isTop).At(s);
      if s == SubSide(e, isTop) then
        after == Substituted(clubs.At(s), e).(used := clubs.At(s).used + {e.player.value})
      else after == clubs.At(s)
  {
    var side := SubSide(e, isTop);
    var club := TakePosition(TakeSlot(clubs.At(side), e, e.player.value), e, e.player.value);
    assert club.used == clubs.At(side).used;
  }

  /** A substitution's effect, kind by kind. A pinch hitter or runner takes every position of
      the man whose slot he takes; a pitcher takes the mound and P; a fielder's change never
      touches who pitches, and one that names no fielding position moves no one. */
  lemma SubstitutionMeans(club: Club, e: Event)
    requires IsSub(e)
    ensures var after, pid := Substituted(club, e), e.player.value;
      if e.kind == OffensiveSubstitution then
        && after.pitcher == club.pitcher && after.defense.Keys == club.defense.Keys
        && forall pos | pos in club.defense ::
             after.defense[pos] ==
             if e.battingOrder.Some? && 100 <= e.battingOrder.value < 1000
                && club.defense[pos] == club.lineup[e.battingOrder.value / 100 - 1]
             then pid else club.defense[pos]
      else if e.kind == PitchingSubstitution then
        after.pitcher == pid && after.defense == club.defense[P := pid]
      else
        && after.pitcher == club.pitcher
        && (e.position.None? || e.position.value in {DH, PH, PR, Other("")} ==> after.defense == club.defense)
    ensures Substituted(club, e).lineup ==
            if e.battingOrder.Some? && 100 <= e.battingOrder.value < 1000
            then club.lineup[e.battingOrder.value / 100 - 1 := e.player.value] else club.lineup
  {
  }

  /** The club a substitution belongs to: the side at bat for a pinch hitter or runner, the
      side in the field for every other. */
  lemma SubSideMeans(e: Event, isTop: bool)
    ensures SubSide(e, isTop) == if (e.kind == OffensiveSubstitution) == isTop then Away else Home
  {
  }

  /** What a pitch sets: with all nine fielders, the side in the field stands as the pitch says
      and its pitcher is the man at P; with fewer, nothing changes. */
  lemma PitchSets(field: Field, e: Event, isTop: bool)
    requires e.isPitch
    ensures var before, after := field.clubs, PlayEvent(field, e, isTop).clubs;
      var s := if isTop then Home else Away;
      var shown := set pos | pos in e.defense && e.defense[pos].Some?
                             && pos in {P, C, B1, B2, B3, SS, LF, CF, RF};
      && after.At(if isTop then Away else Home) == before.At(if isTop then Away else Home)
      && after.At(s).lineup == before.At(s).lineup && after.At(s).used == before.At(s).used
      && if shown == {P, C, B1, B2, B3, SS, LF, CF, RF} then
           && after.At(s).defense.Keys == shown
           && (forall pos | pos in shown :: Some(after.At(s).defense[pos]) == e.defense[pos])
           && Some(after.At(s).pitcher) == e.defense[P]
         else after.At(s) == before.At(s)
  {
    WholeNine(e);
  }

  /** Nine fielders shown means all nine positions. */
  lemma WholeNine(e: Event)
    ensures DefenseOf(e).Keys == set pos | pos in e.defense && e.defense[pos].Some?
                                           && pos in {P, C, B1, B2, B3, SS, LF, CF, RF}
    ensures forall pos | pos in DefenseOf(e) :: Some(DefenseOf(e)[pos]) == e.defense[pos]
    ensures |DefenseOf(e)| >= 9 <==> DefenseOf(e).Keys == {P, C, B1, B2, B3, SS, LF, CF, RF}
  {
    var keys := DefenseOf(e).Keys;
    assert |DefenseOf(e)| == |keys|;
    if keys != NINE_SPOTS {
      assert keys < NINE_SPOTS;
      ProperSubsetSize(keys, NINE_SPOTS);
    }
  }

  ghost predicate NoRepeat(lineup: Nine) {
    forall i, j | 0 <= i < j < 9 :: lineup[i] != lineup[j]
  }

  /** The man bats in the slot the event names and the eight others stay; the order names no
      one twice exactly when the man held no other slot. */
  lemma SlotTaken(club: Club, e: Event)
    requires IsSub(e) && NoRepeat(club.lineup)
    ensures var after := Substituted(club, e).lineup;
      match SlotNamed(e)
      case None => after == club.lineup
      case Some(slot) =>
        && after[slot] == e.player.value
        && (forall i | 0 <= i < 9 && i != slot :: after[i] == club.lineup[i])
        && (NoRepeat(after) <==> forall i | 0 <= i < 9 && i != slot :: club.lineup[i] != e.player.value)
  {
    if SlotNamed(e).Some? {
      var slot := SlotNamed(e).value;
      var after := Substituted(club, e).lineup;
      assert after == club.lineup[slot := e.player.value];
      forall i | 0 <= i < 9 && i != slot && NoRepeat(after) ensures club.lineup[i] != e.player.value {
        assert after[i] != after[slot];
      }
    }
  }

  // ----- one man at one position -----

  /** The events that leave a man at two positions: a fielder called to pitch, and a pinch
      hitter who is already in the field. */
  ghost predicate Doubles(club: Club, e: Event)
    requires IsSub(e)
  {
    var pid := e.player.value;
    match e.kind
    case PitchingSubstitution => exists pos :: pos in club.defense && pos != P && club.defense[pos] == pid
    case OffensiveSubstitution =>
      SlotNamed(e).Some? && club.lineup[SlotNamed(e).value] != pid
      && club.lineup[SlotNamed(e).value] in club.defense.Values && pid in club.defense.Values
    case _ => false
  }

  lemma RelabelKeeps(defense: map<Spot, int>, out: int, pid: int)
    requires OneSpotEach(defense)
    ensures OneSpotEach(Relabel(defense, out, pid))
            <==> !(out != pid && out in defense.Values && pid in defense.Values)
  {
    var after := Relabel(defense, out, pid);
    if out != pid && out in defense.Values && pid in defense.Values {
      var a :| a in defense && defense[a] == out;
      var b :| b in defense && defense[b] == pid;
      assert after[a] == pid && after[b] == pid && a != b;
    } else {
      forall a, b | a in after && b in after && a != b ensures after[a] != after[b] {
        assert defense[a] in defense.Values && defense[b] in defense.Values;
        assert defense[a] != defense[b];
      }
    }
  }

  lemma MoundTakenKeeps(defense: map<Spot, int>, pid: int)
    requires OneSpotEach(defense)
    ensures OneSpotEach(defense[P := pid]) <==> !exists pos :: pos in defense && pos != P && defense[pos] == pid
  {
    var after := defense[P := pid];
    if pos :| pos in defense && pos != P && defense[pos] == pid {
      assert after[pos] == after[P];
    }
  }

  /** With one man at each position before it, a substitution leaves one man at each
      position exactly when it is not one of those two events. */
  lemma SpotsKept(club: Club, e: Event)
    requires IsSub(e) && OneSpotEach(club.defense)
    ensures OneSpotEach(Substituted(club, e).defense) <==> !Doubles(club, e)
  {
    hide OneSpotEach, Relabel, Without;
    var pid := e.player.value;
    if e.kind == PitchingSubstitution {
      MoundTakenKeeps(club.defense, pid);
    } else if e.kind == OffensiveSubstitution {
      if SlotNamed(e).Some? {
        RelabelKeeps(club.defense, club.lineup[SlotNamed(e).value], pid);
      }
    } else if SpotNamed(e).Some? {
      PlacedKeeps(club.defense, pid, e.replaced, SpotNamed(e).value);
    }
  }

  lemma PlacedKeeps(defense: map<Spot, int>, pid: int, replaced: Option<int>, spot: Spot)
    requires OneSpotEach(defense)
    ensures var free := Without(defense, pid);
            var vacated := if replaced.Some? then Without(free, replaced.value) else free;
            OneSpotEach(vacated[spot := pid])
  {
  }

  /** A club starts with one man at each position exactly when its starting pitcher is not
      listed at another. */
  lemma StartsOneSpotEach(box: Box)
    requires RosterOf(box).Posted() && RosterOf(box).startingPitcher.Some?
    ensures OneSpotEach(Club0(RosterOf(box)).defense) <==>
            !exists pos :: pos in StartingDefense(RosterOf(box).positions) && pos != P
                           && StartingDefense(RosterOf(box).positions)[pos] == RosterOf(box).startingPitcher.value
  {
    hide OneSpotEach, StartingDefense, StartersOf, PositionsOf, Dedupe, HittersAmong;
    var positions := RosterOf(box).positions;
    assert Club0(RosterOf(box)).defense
        == StartingDefense(positions)[P := RosterOf(box).startingPitcher.value];
    PositionsDistinct(box.players, |box.players|);
    StartingDefenseMeans(positions);
    MoundTakenKeeps(StartingDefense(positions), RosterOf(box).startingPitcher.value);
  }

  /** A fielding substitution puts the man at the position the event names, takes him and the
      man he replaces off every other, and leaves the rest of the field. */
  lemma PositionTaken(club: Club, e: Event)
    requires IsSub(e) && SpotNamed(e).Some?
    ensures var after, spot := Substituted(club, e).defense, SpotNamed(e).value;
      && spot in after && after[spot] == e.player.value
      && (forall pos | pos in after && pos != spot ::
            pos in club.defense && after[pos] == club.defense[pos]
            && after[pos] != e.player.value && e.replaced != Some(after[pos]))
      && (forall pos | pos in club.defense && pos != spot && club.defense[pos] != e.player.value
                       && e.replaced != Some(club.defense[pos]) :: pos in after)
  {
  }

  // ----- the man on the mound -----

  /** The fielder at P is the club's pitcher. */
  ghost predicate Mound(club: Club) {
    P in club.defense && club.defense[P] == club.pitcher
  }

  /** The events that part the two: a pinch hitter for the pitcher, the pitcher moved or
      replaced by a fielding change, and another man put at P by one. */
  ghost predicate Unseats(club: Club, e: Event)
    requires IsSub(e)
  {
    var pid := e.player.value;
    if e.kind == PitchingSubstitution then false
    else if e.kind == OffensiveSubstitution then
      SlotNamed(e).Some? && club.lineup[SlotNamed(e).value] == club.pitcher && pid != club.pitcher
    else if SpotNamed(e) == Some(P) then pid != club.pitcher
    else SpotNamed(e).Some? && (pid == club.pitcher || e.replaced == Some(club.pitcher))
  }

  /** A substitution keeps the club's pitcher at P exactly when it is not one of those. */
  lemma MoundKept(club: Club, e: Event)
    requires IsSub(e) && Mound(club)
    ensures Mound(Substituted(club, e)) <==> !Unseats(club, e)
  {
  }

  // ----- both laws over whole feeds -----

  datatype Law = PitcherAtP | OneManOneSpot

  ghost predicate Keeps(law: Law, club: Club) {
    match law
    case PitcherAtP => Mound(club)
    case OneManOneSpot => OneSpotEach(club.defense)
  }

  ghost predicate BothKeep(law: Law, clubs: PerSide<Club>) {
    Keeps(law, clubs.away) && Keeps(law, clubs.home)
  }

  ghost predicate BreaksClub(law: Law, club: Club, e: Event)
    requires IsSub(e)
  {
    match law
    case PitcherAtP => Unseats(club, e)
    case OneManOneSpot => Doubles(club, e)
  }

  /** The event breaks the law as it happens: a substitution of the kinds above, or a pitch
      whose own nine fielders name a man twice. */
  ghost predicate Breaks(law: Law, clubs: PerSide<Club>, e: Event, isTop: bool) {
    if e.isPitch then law == OneManOneSpot && |DefenseOf(e)| >= 9 && !OneSpotEach(DefenseOf(e))
    else IsSub(e) && BreaksClub(law, clubs.At(SubSide(e, isTop)), e)
  }

  lemma LawBySub(law: Law, clubs: PerSide<Club>, e: Event, isTop: bool)
    requires BothKeep(law, clubs) && !e.isPitch
    ensures BothKeep(law, ApplySub(clubs, e, isTop)) <==> !Breaks(law, clubs, e, isTop)
  {
    hide Unseats, Doubles, Mound, OneSpotEach, Substituted, ApplySub;
    if IsSub(e) {
      var side := SubSide(e, isTop);
      OneClubChanges(clubs, e, isTop, Away);
      OneClubChanges(clubs, e, isTop, Home);
      LawKept(law, clubs.At(side), e);
      LawIgnoresUsed(law, Substituted(clubs.At(side), e), clubs.At(side).used + {e.player.value});
    } else {
      NoSubNoChange(clubs, e, isTop);
    }
  }

  lemma LawKept(law: Law, club: Club, e: Event)
    requires IsSub(e) && Keeps(law, club)
    ensures Keeps(law, Substituted(club, e)) <==> !BreaksClub(law, club, e)
  {
    hide Unseats, Doubles, Mound, OneSpotEach, Substituted;
    match law
    case PitcherAtP => MoundKept(club, e);
    case OneManOneSpot => SpotsKept(club, e);
  }

  lemma LawIgnoresUsed(law: Law, club: Club, used: set<int>)
    ensures Keeps(law, club.(used := used)) <==> Keeps(law, club)
  {
  }

  lemma NoSubNoChange(clubs: PerSide<Club>, e: Event, isTop: bool)
    requires !IsSub(e)
    ensures ApplySub(clubs, e, isTop) == clubs
  {
  }

  lemma LawByPitch(law: Law, clubs: PerSide<Club>, e: Event, isTop: bool)
    requires BothKeep(law, clubs) && e.isPitch
    ensures var side := Fielding(isTop);
            BothKeep(law, clubs.With(side, TakeField(clubs.At(side), e))) <==> !Breaks(law, clubs, e, isTop)
  {
    hide OneSpotEach, DefenseOf;
  }

  /** One event, whatever came before it: the law still holds exactly when it does not break it. */
  lemma LawByEvent(law: Law, field: Field, e: Event, isTop: bool)
    requires BothKeep(law, field.clubs)
    ensures BothKeep(law, PlayEvent(field, e, isTop).clubs) <==> !Breaks(law, field.clubs, e, isTop)
  {
    hide Keeps, Breaks, TakeField, ApplySub, ChargedTo;
    if e.isPitch {
      LawByPitch(law, field.clubs, e, isTop);
    } else {
      LawBySub(law, field.clubs, e, isTop);
    }
  }

  /** No event of the play breaks the law as it happens. */
  ghost predicate Settled(law: Law, field: Field, events: seq<Event>, isTop: bool) {
    forall d | 0 <= d < |events| :: !Breaks(law, PlayEvents(field, events, d, isTop).clubs, events[d], isTop)
  }

  /** The law holds before the play's first event and after each of them. */
  ghost predicate HoldsOver(law: Law, field: Field, events: seq<Event>, isTop: bool) {
    forall d | 0 <= d <= |events| :: BothKeep(law, PlayEvents(field, events, d, isTop).clubs)
  }

  lemma {:induction false} LawByEvents(law: Law, field: Field, events: seq<Event>, n: nat, isTop: bool)
    requires n <= |events| && BothKeep(law, field.clubs) && Settled(law, field, events, isTop)
    ensures BothKeep(law, PlayEvents(field, events, n, isTop).clubs)
  {
    hide BothKeep, PlayEvent, Breaks;
    if n > 0 {
      LawByEvents(law, field, events, n - 1, isTop);
      LawByEvent(law, PlayEvents(field, events, n - 1, isTop), events[n - 1], isTop);
    }
  }

  lemma OneEventOn(field: Field, events: seq<Event>, d: nat, isTop: bool)
    requires d < |events|
    ensures PlayEvents(field, events, d + 1, isTop)
         == PlayEvent(PlayEvents(field, events, d, isTop), events[d], isTop)
  {
  }

  /** Over one play: the law holds all the way exactly when no event breaks it. */
  lemma LawOverPlay(law: Law, field: Field, events: seq<Event>, isTop: bool)
    requires BothKeep(law, field.clubs)
    ensures HoldsOver(law, field, events, isTop) <==> Settled(law, field, events, isTop)
  {
    hide BothKeep, PlayEvent, PlayEvents, Breaks;
    if HoldsOver(law, field, events, isTop) {
      forall d | 0 <= d < |events|
        ensures !Breaks(law, PlayEvents(field, events, d, isTop).clubs, events[d], isTop)
      {
        assert BothKeep(law, PlayEvents(field, events, d, isTop).clubs);
        assert BothKeep(law, PlayEvents(field, events, d + 1, isTop).clubs);
        OneEventOn(field, events, d, isTop);
        LawByEvent(law, PlayEvents(field, events, d, isTop), events[d], isTop);
      }
    }
    if Settled(law, field, events, isTop) {
      forall d | 0 <= d <= |events| ensures BothKeep(law, PlayEvents(field, events, d, isTop).clubs) {
        LawByEvents(law, field, events, d, isTop);
      }
    }
  }

  lemma LawByNames(law: Law, clubs: PerSide<Club>, play: Play)
    requires BothKeep(law, clubs)
    ensures BothKeep(law, UseNamed(clubs, play))
  {
  }

  /** No event of a play before `n` breaks the law as it happens. */
  ghost predicate SettledBefore(law: Law, init: Replay, plays: seq<Play>, n: nat)
    requires n <= |plays|
  {
    forall i | 0 <= i < n ::
      Settled(law, TurnHalf(After(init, plays, i), plays[i].key).field, plays[i].events, plays[i].key.isTop)
  }

  /** The law holds at every point of every play before `n`. */
  ghost predicate HoldsBefore(law: Law, init: Replay, plays: seq<Play>, n: nat)
    requires n <= |plays|
  {
    forall i | 0 <= i < n ::
      HoldsOver(law, TurnHalf(After(init, plays, i), plays[i].key).field, plays[i].events, plays[i].key.isTop)
  }

  lemma CompleteClubs(st: Replay, play: Play, finished: bool)
    ensures Complete(st, play, finished).field.clubs
         == UseNamed(PlayEvents(st.field, play.events, |play.events|, play.key.isTop).clubs, play)
  {
  }

  lemma {:induction false} LawSoFar(law: Law, init: Replay, plays: seq<Play>, n: nat)
    requires n <= |plays| && BothKeep(law, init.field.clubs) && SettledBefore(law, init, plays, n)
    ensures BothKeep(law, After(init, plays, n).field.clubs)
  {
    hide BothKeep, Settled, TurnHalf, Complete, PlayEvents, UseNamed, TurnEnded;
    if n > 0 {
      var play := plays[n - 1];
      var st := TurnHalf(After(init, plays, n - 1), play.key);
      LawSoFar(law, init, plays, n - 1);
      TurnKeepsField(After(init, plays, n - 1), play.key);
      LawByEvents(law, st.field, play.events, |play.events|, play.key.isTop);
      LawByNames(law, PlayEvents(st.field, play.events, |play.events|, play.key.isTop).clubs, play);
      CompleteClubs(st, play, TurnEnded(plays, n - 1));
    }
  }

  /** Over all the plays before `n`: the law holds all the way exactly when no event breaks it. */
  lemma {:induction false} LawOverPlays(law: Law, init: Replay, plays: seq<Play>, n: nat)
    requires n <= |plays| && BothKeep(law, init.field.clubs)
    ensures HoldsBefore(law, init, plays, n) <==> SettledBefore(law, init, plays, n)
  {
    hide BothKeep, HoldsOver, Settled, After, TurnHalf;
    if n > 0 {
      LawOverPlays(law, init, plays, n - 1);
      if SettledBefore(law, init, plays, n - 1) {
        LawSoFar(law, init, plays, n - 1);
        TurnKeepsField(After(init, plays, n - 1), plays[n - 1].key);
        LawOverPlay(law, TurnHalf(After(init, plays, n - 1), plays[n - 1].key).field, plays[n - 1].events,
                    plays[n - 1].key.isTop);
      }
    }
  }

  /** The events of the target that come with no pitch before them. */
  ghost predicate Leads(play: Play, d: nat)
    requires d <= |play.events|
  {
    forall c | 0 <= c < d :: !play.events[c].isPitch
  }

  /** No substitution before the target's first pitch breaks the law, nor does that pitch.
      What follows the pitch is not part of the start state. */
  ghost predicate SettledLeadIn(law: Law, clubs: PerSide<Club>, play: Play) {
    forall d | 0 <= d < |play.events| && Leads(play, d) ::
      !Breaks(law, LeadIn(clubs, play.events, d, play.key.isTop), play.events[d], play.key.isTop)
  }

  /** The law holds before the target, after each substitution up to its first pitch, and in
      the start state. */
  ghost predicate HoldsLeadIn(law: Law, st: Replay, play: Play) {
    && (forall d | 0 <= d <= |play.events| && Leads(play, d) ::
          BothKeep(law, LeadIn(st.field.clubs, play.events, d, play.key.isTop)))
    && BothKeep(law, Begin(st, play).field.clubs)
  }

  lemma {:induction false} LawByLeadIn(law: Law, clubs: PerSide<Club>, play: Play, n: nat)
    requires n <= |play.events| && Leads(play, n)
    requires BothKeep(law, clubs) && SettledLeadIn(law, clubs, play)
    ensures BothKeep(law, LeadIn(clubs, play.events, n, play.key.isTop))
  {
    hide BothKeep, ApplySub, Breaks;
    if n > 0 {
      assert Leads(play, n - 1);
      LawByLeadIn(law, clubs, play, n - 1);
      LawBySub(law, LeadIn(clubs, play.events, n - 1, play.key.isTop), play.events[n - 1], play.key.isTop);
    }
  }

  lemma OneSubOn(clubs: PerSide<Club>, events: seq<Event>, d: nat, isTop: bool)
    requires d < |events|
    ensures LeadIn(clubs, events, d + 1, isTop) == ApplySub(LeadIn(clubs, events, d, isTop), events[d], isTop)
  {
  }

  /** What the start state's clubs are: the lead-in's, with the first pitch's nine if it is whole. */
  lemma BeginClubs(st: Replay, play: Play) returns (n: nat)
    ensures n <= |play.events| && Leads(play, n) && (n < |play.events| ==> play.events[n].isPitch)
    ensures forall d | 0 <= d <= |play.events| && Leads(play, d) :: d <= n
    ensures var clubs := LeadIn(st.field.clubs, play.events, n, play.key.isTop);
            var side := Fielding(play.key.isTop);
            Begin(st, play).field.clubs
            == if n < |play.events| then clubs.With(side, TakeField(clubs.At(side), play.events[n])) else clubs
  {
    hide LeadIn, TakeField;
    var pitch := FirstPitch(play.events);
    n := if pitch.Some? then pitch.value else |play.events|;
  }

  /** From the law before the target: it holds all the way to the start state exactly when no
      event up to the first pitch breaks it. */
  lemma LawOverLeadIn(law: Law, st: Replay, play: Play)
    requires BothKeep(law, st.field.clubs)
    ensures HoldsLeadIn(law, st, play) <==> SettledLeadIn(law, st.field.clubs, play)
  {
    hide BothKeep, Breaks, LeadIn, TakeField, Begin, ApplySub, Leads;
    var clubs, isTop := st.field.clubs, play.key.isTop;
    var n := BeginClubs(st, play);
    if n < |play.events| && BothKeep(law, LeadIn(clubs, play.events, n, isTop)) {
      LawByPitch(law, LeadIn(clubs, play.events, n, isTop), play.events[n], isTop);
    }
    if HoldsLeadIn(law, st, play) {
      forall d | 0 <= d < |play.events| && Leads(play, d)
        ensures !Breaks(law, LeadIn(clubs, play.events, d, isTop), play.events[d], isTop)
      {
        if d < n {
          LeadsOn(play, d, n);
          assert BothKeep(law, LeadIn(clubs, play.events, d + 1, isTop));
          OneSubOn(clubs, play.events, d, isTop);
          LawBySub(law, LeadIn(clubs, play.events, d, isTop), play.events[d], isTop);
        }
      }
    }
    if SettledLeadIn(law, clubs, play) {
      forall d | 0 <= d <= |play.events| && Leads(play, d)
        ensures BothKeep(law, LeadIn(clubs, play.events, d, isTop))
      {
        LawByLeadIn(law, clubs, play, d);
      }
    }
  }

  lemma LeadsOn(play: Play, d: nat, n: nat)
    requires d < n <= |play.events| && Leads(play, n)
    ensures Leads(play, d + 1) && !play.events[d].isPitch
  {
  }

  /** The law holds at every point from the first pitch of the game to the start state of the
      target: between the events of the earlier plays, and up to the target's first pitch. */
  ghost predicate HoldsThroughout(law: Law, init: Replay, plays: seq<Play>, n: nat)
    requires n < |plays|
  {
    && BothKeep(law, init.field.clubs)
    && HoldsBefore(law, init, plays, n)
    && HoldsLeadIn(law, TurnHalf(After(init, plays, n), plays[n].key), plays[n])
  }

  /** No event on the way breaks the law as it happens. */
  ghost predicate NeverBroken(law: Law, init: Replay, plays: seq<Play>, n: nat)
    requires n < |plays|
  {
    && SettledBefore(law, init, plays, n)
    && SettledLeadIn(law, TurnHalf(After(init, plays, n), plays[n].key).field.clubs, plays[n])
  }

  /** The exact law, for either: it holds all the way exactly when it held at the first pitch
      of the game and no event broke it. */
  lemma LawThroughout(law: Law, init: Replay, plays: seq<Play>, n: nat)
    requires n < |plays|
    ensures HoldsThroughout(law, init, plays, n) <==>
            BothKeep(law, init.field.clubs) && NeverBroken(law, init, plays, n)
  {
    hide BothKeep, HoldsBefore, HoldsLeadIn, SettledBefore, SettledLeadIn, After, TurnHalf;
    if BothKeep(law, init.field.clubs) {
      LawOverPlays(law, init, plays, n);
      if SettledBefore(law, init, plays, n) {
        LawSoFar(law, init, plays, n);
        TurnKeepsField(After(init, plays, n), plays[n].key);
        LawOverLeadIn(law, TurnHalf(After(init, plays, n), plays[n].key), plays[n]);
      }
    }
  }

  lemma LawInStartStates(law: Law, rosters: PerSide<Roster>, plays: seq<Play>, n: nat, k: int)
    requires FirstPitchState(rosters).Ok? && IsTarget(plays, n, k)
    requires HoldsThroughout(law, FirstPitchState(rosters).value, plays, n)
    ensures StateAt(rosters, plays, Some(k)).Ok?
    ensures BothKeep(law, StateAt(rosters, plays, Some(k)).value.clubs)
  {
    hide BothKeep, TurnHalf, FirstPitchState, StateAt, HoldsBefore, Begin, After;
    var init, st := StateOf(rosters, plays, n, k);
  }

  lemma MoundsAtFirstPitch(rosters: PerSide<Roster>)
    requires FirstPitchState(rosters).Ok?
    ensures BothKeep(PitcherAtP, FirstPitchState(rosters).value.field.clubs)
  {
  }

  /** Both clubs' pitchers stand at P in their own defense, at every point of the replay up to
      the start state, exactly when no substitution on the way parts one from it. Then they do
      in the start state. */
  lemma PitchersStandAtP(rosters: PerSide<Roster>, plays: seq<Play>, n: nat, k: int)
    requires FirstPitchState(rosters).Ok? && IsTarget(plays, n, k)
    ensures var init := FirstPitchState(rosters).value;
            HoldsThroughout(PitcherAtP, init, plays, n) <==> NeverBroken(PitcherAtP, init, plays, n)
    ensures StateAt(rosters, plays, Some(k)).Ok?
    ensures var clubs := StateAt(rosters, plays, Some(k)).value.clubs;
            NeverBroken(PitcherAtP, FirstPitchState(rosters).value, plays, n) ==>
              Mound(clubs.away) && Mound(clubs.home)
  {
    hide Mound, StateAt, FirstPitchState, HoldsThroughout, NeverBroken;
    var init, st := StateOf(rosters, plays, n, k);
    MoundsAtFirstPitch(rosters);
    LawThroughout(PitcherAtP, init, plays, n);
    if NeverBroken(PitcherAtP, init, plays, n) {
      LawInStartStates(PitcherAtP, rosters, plays, n, k);
    }
  }

  /** No man stands at two positions of a club, at every point of the replay up to the start
      state, exactly when each club started so, no substitution on the way doubles a man and no
      pitch with nine fielders names one twice. Then none does in the start state. */
  lemma NoManStandsTwice(rosters: PerSide<Roster>, plays: seq<Play>, n: nat, k: int)
    requires FirstPitchState(rosters).Ok? && IsTarget(plays, n, k)
    ensures var init := FirstPitchState(rosters).value;
            HoldsThroughout(OneManOneSpot, init, plays, n) <==>
            && OneSpotEach(init.field.clubs.away.defense) && OneSpotEach(init.field.clubs.home.defense)
            && NeverBroken(OneManOneSpot, init, plays, n)
    ensures StateAt(rosters, plays, Some(k)).Ok?
    ensures var clubs := StateAt(rosters, plays, Some(k)).value.clubs;
            HoldsThroughout(OneManOneSpot, FirstPitchState(rosters).value, plays, n) ==>
              OneSpotEach(clubs.away.defense) && OneSpotEach(clubs.home.defense)
  {
    hide OneSpotEach, StateAt, FirstPitchState, HoldsThroughout, NeverBroken;
    var init, st := StateOf(rosters, plays, n, k);
    LawThroughout(OneManOneSpot, init, plays, n);
    if HoldsThroughout(OneManOneSpot, init, plays, n) {
      LawInStartStates(OneManOneSpot, rosters, plays, n, k);
    }
  }

  // ----- both laws are broken: box scores and feeds -----

  /** One plate appearance in the top of the first, with one substitution and no pitch. */
  function OneSubFeed(kind: EventKind, player: int, battingOrder: Option<int>): seq<Play> {
    [Play(Some(0), HalfKey(1, true), true,
          [Event(false, kind, Some(player), None, battingOrder, None, EMPTY_BASES, map[])],
          None, None, "single", PerSide(Some(0), Some(0)), 0, EMPTY_BASES)]
  }

  lemma OneSubState(rosters: PerSide<Roster>, kind: EventKind, player: int, battingOrder: Option<int>)
    requires FirstPitchState(rosters).Ok?
    ensures var plays := OneSubFeed(kind, player, battingOrder);
            var r := StateAt(rosters, plays, Some(0));
            && r.Ok?
            && r.value.clubs
               == ApplySub(FirstPitchState(rosters).value.field.clubs, plays[0].events[0], true)
  {
    hide FirstPitchState, ApplySub;
    var plays := OneSubFeed(kind, player, battingOrder);
    var init, st := StateOf(rosters, plays, 0, 0);
    AfterNone(init, plays);
    var clubs := st.field.clubs;
    assert LeadIn(clubs, plays[0].events, 1, true) == ApplySub(clubs, plays[0].events[0], true);
    assert FirstPitch(plays[0].events).None?;
  }

  function RostersOf(boxes: PerSide<Box>): PerSide<Roster> {
    PerSide(RosterOf(boxes.away), RosterOf(boxes.home))
  }

  /** Whatever the box scores: when a fielder of the home side's starting nine is called to
      pitch, he stands at his position and at P. */
  lemma FielderCalledToPitch(boxes: PerSide<Box>, pos: Spot)
    requires FirstPitchState(RostersOf(boxes)).Ok?
    requires pos != P && pos in StartingDefense(RosterOf(boxes.home).positions)
    ensures var man := StartingDefense(RosterOf(boxes.home).positions)[pos];
      var r := StateAt(RostersOf(boxes), OneSubFeed(PitchingSubstitution, man, None), Some(0));
      && r.Ok?
      && var defense := r.value.clubs.home.defense;
         pos in defense && P in defense && defense[pos] == man == defense[P]
  {
    hide StateAt, StartingDefense, RosterOf;
    OneSubState(RostersOf(boxes), PitchingSubstitution, StartingDefense(RosterOf(boxes.home).positions)[pos], None);
  }

  /** Whatever the box scores: when another man pinch-hits for a visiting pitcher who bats, he
      stands at P and the man he replaced is still the club's pitcher. */
  lemma PinchHitForPitcher(boxes: PerSide<Box>, slot: nat, man: int)
    requires FirstPitchState(RostersOf(boxes)).Ok? && slot < 9
    requires RosterOf(boxes.away).startingPitcher == Some(RosterOf(boxes.away).Lineup()[slot]) != Some(man)
    ensures var r := StateAt(RostersOf(boxes),
                             OneSubFeed(OffensiveSubstitution, man, Some(100 * (slot + 1))), Some(0));
      && r.Ok?
      && P in r.value.clubs.away.defense && r.value.clubs.away.defense[P] == man
      && Some(r.value.clubs.away.pitcher) == RosterOf(boxes.away).startingPitcher
  {
    hide StateAt, StartingDefense, RosterOf;
    OneSubState(RostersOf(boxes), OffensiveSubstitution, man, Some(100 * (slot + 1)));
  }

  const SAMPLE_SPOTS: seq<Spot> := [P, C, B1, B2, B3, SS, LF, CF, RF]

  /** Nine players in the order of their positions, the pitcher batting first. */
  function SampleBox(): Box {
    Box(seq(9, i requires 0 <= i < 9 => BoxPlayer(Some(i + 1), Some(100 * (i + 1)), Some(SAMPLE_SPOTS[i]))),
        [1], [], [1, 2, 3, 4, 5, 6, 7, 8, 9], [])
  }

  /** A box score that meets the hypotheses of both: its first baseman is in the starting
      defense, and its pitcher bats. */
  lemma SampleBoxBreaksBoth()
    ensures FirstPitchState(RostersOf(PerSide(SampleBox(), SampleBox()))).Ok?
    ensures B1 in StartingDefense(RosterOf(SampleBox()).positions)
    ensures RosterOf(SampleBox()).startingPitcher == Some(RosterOf(SampleBox()).Lineup()[0])
  {
    hide StartersOf, PositionsOf, StartingDefense, Dedupe, HittersAmong, Batted, Club0;
    var players := SampleBox().players;
    forall slot: nat | slot < 9 ensures StartersOf(players, 9)[slot] == Some(slot + 1) {
      LatestHolderStarts(players, 9, slot, slot);
    }
    StarterIsListed(players, 9, 2);
    PositionsDistinct(players, 9);
    var positions := PositionsOf(players, 9);
    StartingDefenseMeans(positions);
    var k :| 0 <= k < |positions| && positions[k] == (3, B1);
    assert positions[k].1 == B1;
  }

  // ----- the first pitch -----

  /** A first pitch that carries the whole nine decides the fielding side, whatever the
      substitutions said: its players, its pitcher, and the pitcher at P. */
  lemma FirstPitchDecides(rosters: PerSide<Roster>, plays: seq<Play>, n: nat, k: int, pitch: nat)
    requires FirstPitchState(rosters).Ok? && IsTarget(plays, n, k)
    requires FirstPitch(plays[n].events) == Some(pitch)
    requires |DefenseOf(plays[n].events[pitch])| >= 9
    ensures StateAt(rosters, plays, Some(k)).Ok?
    ensures var club := StateAt(rosters, plays, Some(k)).value.clubs.At(Fielding(plays[n].key.isTop));
      && club.defense == DefenseOf(plays[n].events[pitch])
      && Mound(club)
  {
    hide TurnHalf, FirstPitchState, StateAt, LeadIn, PlayEvents, Complete, TurnEnded, DefenseOf;
    var init, st := StateOf(rosters, plays, n, k);
  }
}
