/** `state_at_pa`: replay the plays before one plate appearance and return the
    state at its start.

    The replay functions say what one event, one play and a run of plays do to the
    state; the method walks the plays with the source's loops and local variables. */
module FeedReplay {
  import opened Helpers
  import opened Feed
  import opened FeedPlays
  import opened FeedRoster

  // ----- the fielding nine on a pitch -----

  const NINE_SPOTS: set<Spot> := {P, C, B1, B2, B3, SS, LF, CF, RF}

  /** The players of a pitch's defense, by position label. All nine means a pitcher too. */
  function DefenseOf(e: Event): (d: map<Spot, int>)
    ensures |d| >= 9 ==> P in d
  {
    var d := map spot | spot in NINE_SPOTS && spot in e.defense && e.defense[spot].Some?
             :: e.defense[spot].value;
    assert |d| >= 9 ==> P in d by {
      if P !in d {
        assert d.Keys <= NINE_SPOTS - {P} == {C, B1, B2, B3, SS, LF, CF, RF};
        SubsetSize(d.Keys, {C, B1, B2, B3, SS, LF, CF, RF});
      }
    }
    d
  }

  // ----- one club, and both clubs with the pitch counts -----

  datatype Club = Club(lineup: Nine, pitcher: int, defense: map<Spot, int>, used: set<int>)

  datatype Field = Field(clubs: PerSide<Club>, pitchCounts: map<int, int>)

  function Without(defense: map<Spot, int>, pid: int): map<Spot, int> {
    map pos | pos in defense && defense[pos] != pid :: defense[pos]
  }

  /** The man `pid` takes every position that `out` leaves. */
  function Relabel(defense: map<Spot, int>, out: int, pid: int): map<Spot, int> {
    map pos | pos in defense :: if defense[pos] == out then pid else defense[pos]
  }

  /** The batting-order part of a substitution. */
  function TakeSlot(club: Club, e: Event, pid: int): Club {
    if e.battingOrder.Some? && 1 <= e.battingOrder.value / 100 <= 9 then
      var slot := e.battingOrder.value / 100 - 1;
      var out := club.lineup[slot];
      club.(lineup := club.lineup[slot := pid],
            defense := if e.kind == OffensiveSubstitution then Relabel(club.defense, out, pid)
                       else club.defense)
    else club
  }

  /** The fielding part of a substitution. */
  function TakePosition(club: Club, e: Event, pid: int): Club {
    if e.kind == PitchingSubstitution then
      club.(pitcher := pid, defense := club.defense[P := pid])
    else if (e.kind == DefensiveSubstitution || e.kind == DefensiveSwitch)
            && e.position.Some? && e.position.value !in {Other(""), PH, PR, DH} then
      var free := Without(club.defense, pid);
      var vacated := if e.replaced.Some? then Without(free, e.replaced.value) else free;
      club.(defense := vacated[e.position.value := pid])
    else club
  }

  function SubSide(e: Event, isTop: bool): Side {
    if e.kind == OffensiveSubstitution then Batting(isTop) else Fielding(isTop)
  }

  predicate IsSub(e: Event) {
    e.kind != OtherAction && e.player.Some?
  }

  function ApplySub(clubs: PerSide<Club>, e: Event, isTop: bool): PerSide<Club> {
    if !IsSub(e) then clubs
    else
      var pid := e.player.value;
      var side := SubSide(e, isTop);
      var club := TakePosition(TakeSlot(clubs.At(side), e, pid), e, pid);
      clubs.With(side, club.(used := club.used + {pid}))
  }

  /** A pitch with the whole nine sets the fielding side. */
  function TakeField(club: Club, e: Event): Club {
    var d := DefenseOf(e);
    if |d| >= 9 then club.(defense := d, pitcher := d[P]) else club
  }

  /** The pitcher a pitch is charged to: `d.get(P) or pitcher[fielding]`. */
  function ChargedTo(club: Club, e: Event): int {
    var d := DefenseOf(e);
    if P in d && d[P] != 0 then d[P] else TakeField(club, e).pitcher
  }

  function Bump(counts: map<int, int>, p: int): map<int, int> {
    counts[p := (if p in counts then counts[p] else 0) + 1]
  }

  function PlayEvent(field: Field, e: Event, isTop: bool): Field {
    var fielding := Fielding(isTop);
    if e.isPitch then
      var club := field.clubs.At(fielding);
      Field(field.clubs.With(fielding, TakeField(club, e)),
            Bump(field.pitchCounts, ChargedTo(club, e)))
    else field.(clubs := ApplySub(field.clubs, e, isTop))
  }

  function PlayEvents(field: Field, events: seq<Event>, n: nat, isTop: bool): Field
    requires n <= |events|
  {
    if n == 0 then field else PlayEvent(PlayEvents(field, events, n - 1, isTop), events[n - 1], isTop)
  }

  /** The substitutions before a play's first pitch. */
  function LeadIn(clubs: PerSide<Club>, events: seq<Event>, n: nat, isTop: bool): PerSide<Club>
    requires n <= |events|
  {
    if n == 0 then clubs else ApplySub(LeadIn(clubs, events, n - 1, isTop), events[n - 1], isTop)
  }

  // ----- the replay -----

  datatype Replay = Replay(
    field: Field,
    battersFaced: map<int, int>,
    lastSlot: PerSide<Option<int>>,
    grid: PerSide<seq<int>>,
    score: PerSide<int>,
    halfStart: PerSide<int>,
    key: HalfKey,
    outs: int,
    halfPa: nat,
    post: Bases)

  /** The runs of the half that just ended go into the grid of its batting side. */
  function TurnHalf(st: Replay, key: HalfKey): Replay {
    if key == st.key then st
    else
      var side := Batting(st.key.isTop);
      var runs := st.score.At(side) - st.halfStart.At(side);
      st.(grid := st.grid.With(side, st.grid.At(side) + [runs]),
          halfStart := st.score, key := key, outs := 0, halfPa := 0, post := EMPTY_BASES)
  }

  /** `lineup.index(batter)`. */
  function IndexOf(lineup: seq<int>, batter: int): (k: nat)
    requires batter in lineup
    ensures k < |lineup| && lineup[k] == batter
    ensures forall i | 0 <= i < k && i < |lineup| :: lineup[i] != batter
  {
    if lineup[0] == batter then 0
    else
      assert lineup == lineup[..1] + lineup[1..];
      IndexOf(lineup[1..], batter) + 1
  }

  /** The last slot used: the batter's own when his turn ended, else the one before. */
  function SlotAfter(lineup: Nine, play: Play, finished: bool): Option<int> {
    if play.batter.Some? && play.batter.value in lineup then
      Some((IndexOf(lineup, play.batter.value) - if finished then 0 else 1) % 9)
    else None
  }

  function Occupants(b: Bases): set<int> {
    (if b.first.Some? then {b.first.value} else {})
    + (if b.second.Some? then {b.second.value} else {})
    + (if b.third.Some? then {b.third.value} else {})
  }

  function Use(clubs: PerSide<Club>, side: Side, pids: set<int>): PerSide<Club> {
    clubs.With(side, clubs.At(side).(used := clubs.At(side).used + pids))
  }

  function Named(pid: Option<int>): set<int> {
    if pid.Some? then {pid.value} else {}
  }

  function CreditFaced(faced: map<int, int>, play: Play, finished: bool): map<int, int> {
    if play.pitcher.Some? && finished then Bump(faced, play.pitcher.value) else faced
  }

  function MoveSlot(lastSlot: PerSide<Option<int>>, clubs: PerSide<Club>, play: Play, finished: bool)
    : PerSide<Option<int>>
  {
    var batting := Batting(play.key.isTop);
    var slot := SlotAfter(clubs.At(batting).lineup, play, finished);
    if slot.Some? then lastSlot.With(batting, slot) else lastSlot
  }

  function ScoreAfter(score: PerSide<int>, play: Play): PerSide<int> {
    PerSide(Or(play.score.away, score.away), Or(play.score.home, score.home))
  }

  /** The players a completed play names: its pitcher and the runners it leaves on base. */
  function UseNamed(clubs: PerSide<Club>, play: Play): PerSide<Club> {
    Use(Use(clubs, Fielding(play.key.isTop), Named(play.pitcher)),
        Batting(play.key.isTop), Occupants(play.postOn))
  }

  /** A completed plate appearance before the target. */
  function Complete(st: Replay, play: Play, finished: bool): Replay {
    var field := PlayEvents(st.field, play.events, |play.events|, play.key.isTop);
    Replay(
      field.(clubs := UseNamed(field.clubs, play)),
      CreditFaced(st.battersFaced, play, finished),
      MoveSlot(st.lastSlot, field.clubs, play, finished),
      st.grid, ScoreAfter(st.score, play), st.halfStart, st.key, play.outs, st.halfPa + 1, play.postOn)
  }

  function After(init: Replay, plays: seq<Play>, n: nat): Replay
    requires n <= |plays|
  {
    if n == 0 then init
    else
      Complete(TurnHalf(After(init, plays, n - 1), plays[n - 1].key), plays[n - 1],
               TurnEnded(plays, n - 1))
  }

  datatype Error = LineupsNotPosted | NoStartingPitcher | NoSuchPlateAppearance

  datatype Result<T> = Ok(value: T) | Err(error: Error)

  function Club0(r: Roster): Club
    requires r.Posted() && r.startingPitcher.Some?
  {
    var lineup := r.Lineup();
    Club(lineup, r.startingPitcher.value,
         StartingDefense(r.positions)[P := r.startingPitcher.value],
         (set p | p in lineup) + {r.startingPitcher.value})
  }

  function FirstPitchState(rosters: PerSide<Roster>): Result<Replay> {
    if !rosters.away.Posted() || !rosters.home.Posted() then Err(LineupsNotPosted)
    else if rosters.away.startingPitcher.None? || rosters.home.startingPitcher.None? then
      Err(NoStartingPitcher)
    else Ok(Replay(
      Field(PerSide(Club0(rosters.away), Club0(rosters.home)), map[]), map[],
      PerSide(None, None), PerSide([], []), PerSide(0, 0), PerSide(0, 0),
      HalfKey(1, true), 0, 0, EMPTY_BASES))
  }

  datatype StartState = StartState(
    key: HalfKey,
    outs: int,
    score: PerSide<int>,
    halfStart: PerSide<int>,
    grid: PerSide<seq<int>>,
    runners: Bases,
    clubs: PerSide<Club>,
    slots: PerSide<int>,
    pitchCounts: map<int, int>,
    battersFaced: map<int, int>,
    halfPa: nat,
    eligibleHitters: PerSide<seq<int>>,
    eligiblePitchers: PerSide<seq<int>>,
    usedAndOut: PerSide<set<int>>,
    batting: Side)

  function NextSlot(last: Option<int>): int {
    if last.None? then 0 else (last.value + 1) % 9
  }

  function InGame(club: Club): set<int> {
    (set p | p in club.lineup) + club.defense.Values
  }

  /** The players of `list` who are neither used nor in the game, in order. */
  function Fresh(list: seq<int>, club: Club): (r: seq<int>)
    ensures forall p :: p in r <==> p in list && p !in club.used && p !in InGame(club)
  {
    if |list| == 0 then []
    else
      (if list[0] !in club.used && list[0] !in InGame(club) then [list[0]] else [])
      + Fresh(list[1..], club)
  }

  function Present(rosters: PerSide<Roster>, st: Replay, runners: Bases): StartState {
    var clubs := st.field.clubs;
    StartState(
      st.key, if st.outs >= 3 then 0 else st.outs, st.score, st.halfStart, st.grid, runners, clubs,
      PerSide(NextSlot(st.lastSlot.away), NextSlot(st.lastSlot.home)),
      st.field.pitchCounts, st.battersFaced, st.halfPa,
      PerSide(Fresh(rosters.away.hitters, clubs.away), Fresh(rosters.home.hitters, clubs.home)),
      PerSide(Fresh(rosters.away.arms, clubs.away), Fresh(rosters.home.arms, clubs.home)),
      PerSide(clubs.away.used - InGame(clubs.away), clubs.home.used - InGame(clubs.home)),
      Batting(st.key.isTop))
  }

  /** The events before the first pitch belong to the target plate appearance. */
  function Begin(st: Replay, play: Play): Replay {
    var isTop := play.key.isTop;
    var pitch := FirstPitch(play.events);
    if pitch.None? then
      st.(field := st.field.(clubs := LeadIn(st.field.clubs, play.events, |play.events|, isTop)))
    else
      var clubs := LeadIn(st.field.clubs, play.events, pitch.value, isTop);
      var fielding := Fielding(isTop);
      st.(field := st.field.(clubs :=
        clubs.With(fielding, TakeField(clubs.At(fielding), play.events[pitch.value]))))
  }

  function RunnersAt(st: Replay, play: Play): Bases {
    var pitch := FirstPitch(play.events);
    if pitch.Some? then play.events[pitch.value].offense else st.post
  }

  /** A play with no index reads as -1. */
  function IndexIn(play: Play): int {
    if play.atBatIndex.Some? then play.atBatIndex.value else -1
  }

  /** The first play whose index is `k`, at or after position `n`. */
  function Find(plays: seq<Play>, k: int, n: nat): (r: Option<nat>)
    requires n <= |plays|
    ensures r.None? ==> forall i | n <= i < |plays| :: IndexIn(plays[i]) != k
    ensures r.Some? ==> n <= r.value < |plays| && IndexIn(plays[r.value]) == k
    ensures r.Some? ==> forall i | n <= i < r.value :: IndexIn(plays[i]) != k
    decreases |plays| - n
  {
    if n == |plays| then None
    else if IndexIn(plays[n]) == k then Some(n)
    else Find(plays, k, n + 1)
  }

  function StateAt(rosters: PerSide<Roster>, plays: seq<Play>, atBat: Option<int>): Result<StartState> {
    match FirstPitchState(rosters)
    case Err(e) => Err(e)
    case Ok(init) =>
      match atBat
      case None => Ok(Present(rosters, init, EMPTY_BASES))
      case Some(k) =>
        match Find(plays, k, 0)
        case None => Err(NoSuchPlateAppearance)
        case Some(n) =>
          var st := TurnHalf(After(init, plays, n), plays[n].key);
          Ok(Present(rosters, Begin(st, plays[n]), RunnersAt(st, plays[n])))
  }

  /** The replay as the source runs it. */
  method StateAtPa(boxes: PerSide<Box>, plays: seq<Play>, atBat: Option<int>)
    returns (r: Result<StartState>)
    ensures r == StateAt(PerSide(RosterOf(boxes.away), RosterOf(boxes.home)), plays, atBat)
  {
    var away := ReadRoster(boxes.away);
    var home := ReadRoster(boxes.home);
    var rosters := PerSide(away, home);
    if !away.Posted() || !home.Posted() {
      return Err(LineupsNotPosted);
    }
    if away.startingPitcher.None? || home.startingPitcher.None? {
      return Err(NoStartingPitcher);
    }
    var st := FirstPitchState(rosters).value;
    if atBat.None? {
      return Ok(Present(rosters, st, EMPTY_BASES));
    }
    ghost var init := st;
    var flags := FinishedFlags(plays);
    var n := 0;
    while n < |plays|
      invariant 0 <= n <= |plays| == |flags|
      invariant Find(plays, atBat.value, n) == Find(plays, atBat.value, 0)
      invariant st == After(init, plays, n)
    {
      var play := plays[n];
      if play.key != st.key {
        st := EndHalf(st, play.key);
      }
      if IndexIn(play) == atBat.value {
        var clubs, runners := EnterTarget(st, play);
        return Ok(Present(rosters, st.(field := st.field.(clubs := clubs)), runners));
      }
      st := FinishPlay(st, play, flags[n]);
      n := n + 1;
    }
    r := Err(NoSuchPlateAppearance);
  }

  /** The previous half is complete: its runs go into the grid. */
  method EndHalf(st: Replay, key: HalfKey) returns (next: Replay)
    requires key != st.key
    ensures next == TurnHalf(st, key)
  {
    var prevSide := Batting(st.key.isTop);
    var runs := st.score.At(prevSide) - st.halfStart.At(prevSide);
    next := st.(grid := st.grid.With(prevSide, st.grid.At(prevSide) + [runs]));
    next := next.(halfStart := next.score);
    next := next.(key := key, outs := 0, halfPa := 0, post := EMPTY_BASES);
  }

  /** The bookkeeping of a completed play, statement by statement. */
  method FinishPlay(st: Replay, play: Play, finished: bool) returns (next: Replay)
    ensures next == Complete(st, play, finished)
  {
    hide PlayEvents, Bump, IndexOf, Occupants, Or;
    var isTop := play.key.isTop;
    var batting, fielding := Batting(isTop), Fielding(isTop);
    var clubs, pitchCounts := ReplayEvents(st.field.clubs, st.field.pitchCounts, play);
    var battersFaced, lastSlot := st.battersFaced, st.lastSlot;
    if play.pitcher.Some? {
      if finished {
        battersFaced := Bump(battersFaced, play.pitcher.value);
      }
    }
    assert battersFaced == CreditFaced(st.battersFaced, play, finished);
    var lineup := clubs.At(batting).lineup;
    if play.batter.Some? && play.batter.value in lineup {
      var slot: int := IndexOf(lineup, play.batter.value);
      lastSlot := lastSlot.With(batting, Some((slot - if finished then 0 else 1) % 9));
    }
    assert lastSlot == MoveSlot(st.lastSlot, clubs, play, finished);
    clubs := Use(clubs, fielding, Named(play.pitcher));
    var score := PerSide(Or(play.score.away, st.score.away), Or(play.score.home, st.score.home));
    clubs := Use(clubs, batting, Occupants(play.postOn));
    next := Replay(Field(clubs, pitchCounts), battersFaced, lastSlot, st.grid, score,
                   st.halfStart, st.key, play.outs, st.halfPa + 1, play.postOn);
  }

  /** The event loop of a completed play. */
  method ReplayEvents(clubs0: PerSide<Club>, counts0: map<int, int>, play: Play)
    returns (clubs: PerSide<Club>, pitchCounts: map<int, int>)
    ensures Field(clubs, pitchCounts)
         == PlayEvents(Field(clubs0, counts0), play.events, |play.events|, play.key.isTop)
  {
    clubs, pitchCounts := clubs0, counts0;
    var fielding := Fielding(play.key.isTop);
    var k := 0;
    while k < |play.events|
      invariant 0 <= k <= |play.events|
      invariant Field(clubs, pitchCounts)
             == PlayEvents(Field(clubs0, counts0), play.events, k, play.key.isTop)
    {
      var e := play.events[k];
      if e.isPitch {
        var d := DefenseOf(e);
        var club := clubs.At(fielding);
        if |d| >= 9 {
          club := club.(defense := d, pitcher := d[P]);
        }
        var p := if P in d && d[P] != 0 then d[P] else club.pitcher;
        clubs := clubs.With(fielding, club);
        pitchCounts := Bump(pitchCounts, p);
      } else {
        clubs := ApplySub(clubs, e, play.key.isTop);
      }
      k := k + 1;
    }
  }

  /** The event loop of the target play: substitutions up to the first pitch. */
  method EnterTarget(st: Replay, play: Play) returns (entered: PerSide<Club>, runners: Bases)
    ensures Begin(st, play) == st.(field := st.field.(clubs := entered))
    ensures runners == RunnersAt(st, play)
  {
    entered := st.field.clubs;
    var fielding := Fielding(play.key.isTop);
    var k := 0;
    while k < |play.events| && !play.events[k].isPitch
      invariant 0 <= k <= |play.events|
      invariant forall d | 0 <= d < k :: !play.events[d].isPitch
      invariant entered == LeadIn(st.field.clubs, play.events, k, play.key.isTop)
    {
      entered := ApplySub(entered, play.events[k], play.key.isTop);
      k := k + 1;
    }
    if k < |play.events| {
      var e := play.events[k];
      assert FirstPitch(play.events) == Some(k);
      runners := e.offense;
      var d := DefenseOf(e);
      if |d| >= 9 {
        entered := entered.With(fielding, entered.At(fielding).(defense := d, pitcher := d[P]));
      } else {
        assert entered.With(fielding, entered.At(fielding)) == entered;
      }
    } else {
      runners := st.post;
    }
  }
}
