/** The league's play feed as data, and the backward scan that decides whether a
    batter's turn ended on a play (pipeline/mlb_game_feed.py).

    A field that the feed may leave out is an Option. `kind` is the action's
    event type; every type that is not a substitution is OtherAction. */
module Feed {
  import opened Helpers

  datatype Side = Away | Home

  /** One value for each of the two clubs: the source's dict keyed by side. */
  datatype PerSide<T> = PerSide(away: T, home: T) {
    function At(s: Side): T {
      match s case Away => away case Home => home
    }

    function With(s: Side, v: T): PerSide<T> {
      match s case Away => PerSide(v, home) case Home => PerSide(away, v)
    }
  }

  datatype Bases = Bases(first: Option<int>, second: Option<int>, third: Option<int>)

  const EMPTY_BASES := Bases(None, None, None)

  /** A position label. The first nine are the fielding positions. */
  datatype Spot =
    | P | C | B1 | B2 | B3 | SS | LF | CF | RF
    | DH | PH | PR
    | Other(name: string)

  datatype EventKind =
    | OffensiveSubstitution
    | DefensiveSubstitution
    | DefensiveSwitch
    | PitchingSubstitution
    | OtherAction

  /** A pitch carries the runners and the fielding nine; an action carries a player. */
  datatype Event = Event(
    isPitch: bool,
    kind: EventKind,
    player: Option<int>,
    position: Option<Spot>,
    battingOrder: Option<int>,
    replaced: Option<int>,
    offense: Bases,
    defense: map<Spot, Option<int>>)

  datatype HalfKey = HalfKey(inning: int, isTop: bool)

  datatype Play = Play(
    atBatIndex: Option<int>,
    key: HalfKey,
    isComplete: bool,
    events: seq<Event>,
    batter: Option<int>,
    pitcher: Option<int>,
    eventType: string,
    score: PerSide<Option<int>>,
    outs: int,
    postOn: Bases)

  function Batting(isTop: bool): Side {
    if isTop then Away else Home
  }

  function Fielding(isTop: bool): Side {
    if isTop then Home else Away
  }

  // ----- the end of a batter's turn -----

  /** The event alone: a play that ends on a runner out leaves the turn open. */
  predicate BatterFinished(play: Play) {
    !("caught_stealing" <= play.eventType) && !("pickoff" <= play.eventType)
  }

  predicate IsPinchHit(e: Event) {
    !e.isPitch && e.kind == OffensiveSubstitution && e.position == Some(PH) && e.replaced.Some?
  }

  /** The men pinch-hit for before the first pitch. */
  function Replaced(events: seq<Event>): set<int> {
    if |events| == 0 || events[0].isPitch then {}
    else (if IsPinchHit(events[0]) then {events[0].replaced.value} else {}) + Replaced(events[1..])
  }

  /** The first play at or after `k` with the given side at bat. */
  function NextFrom(plays: seq<Play>, k: nat, isTop: bool): (r: Option<nat>)
    requires k <= |plays|
    ensures r.None? ==> forall j | k <= j < |plays| :: plays[j].key.isTop != isTop
    ensures r.Some? ==> k <= r.value < |plays| && plays[r.value].key.isTop == isTop
    ensures r.Some? ==> forall h | k <= h < r.value :: plays[h].key.isTop != isTop
    decreases |plays| - k
  {
    if k == |plays| then None
    else if plays[k].key.isTop == isTop then Some(k)
    else NextFrom(plays, k + 1, isTop)
  }

  /** The same turn goes on in play `q`: the same batter, or a pinch hitter for him. */
  predicate Continues(p: Play, q: Play) {
    q.batter == p.batter || (p.batter.Some? && p.batter.value in Replaced(q.events))
  }

  predicate TurnEnded(plays: seq<Play>, i: nat)
    requires i < |plays|
  {
    match NextFrom(plays, i + 1, plays[i].key.isTop)
    case None => BatterFinished(plays[i])
    case Some(j) => !Continues(plays[i], plays[j])
  }

  datatype Turn = Turn(batter: Option<int>, replaced: set<int>)

  function TurnOf(play: Play): Turn {
    Turn(play.batter, Replaced(play.events))
  }

  /** What the scan remembers of one side after it has read the plays from `k` on. */
  ghost function Remembered(plays: seq<Play>, k: nat, s: Side): Option<Turn>
    requires k <= |plays|
  {
    match NextFrom(plays, k, s == Away)
    case None => None
    case Some(j) => Some(TurnOf(plays[j]))
  }

  method ReadReplaced(events: seq<Event>) returns (replaced: set<int>)
    ensures replaced == Replaced(events)
  {
    replaced := {};
    var k := 0;
    while k < |events|
      invariant 0 <= k <= |events|
      invariant replaced + Replaced(events[k..]) == Replaced(events)
    {
      var e := events[k];
      assert events[k..][1..] == events[k + 1..];
      if e.isPitch {
        return;
      }
      if IsPinchHit(e) {
        replaced := replaced + {e.replaced.value};
      }
      k := k + 1;
    }
  }

  /** The backward scan of the plays, one remembered turn per side. */
  method FinishedFlags(plays: seq<Play>) returns (flags: seq<bool>)
    ensures |flags| == |plays|
    ensures forall i | 0 <= i < |plays| :: flags[i] == TurnEnded(plays, i)
  {
    flags := seq(|plays|, _ => true);
    var nxt: PerSide<Option<Turn>> := PerSide(None, None);
    var i := |plays|;
    while i > 0
      invariant 0 <= i <= |plays| == |flags|
      invariant nxt.away == Remembered(plays, i, Away)
      invariant nxt.home == Remembered(plays, i, Home)
      invariant forall k | i <= k < |plays| :: flags[k] == TurnEnded(plays, k)
    {
      i := i - 1;
      var play := plays[i];
      var side := Batting(play.key.isTop);
      var following := nxt.At(side);
      if following.None? {
        flags := flags[i := BatterFinished(play)];
      } else {
        flags := flags[i := play.batter != following.value.batter
                            && !(play.batter.Some? && play.batter.value in following.value.replaced)];
      }
      var replaced := ReadReplaced(play.events);
      nxt := nxt.With(side, Some(Turn(play.batter, replaced)));
    }
  }

  // ----- what the flag means -----

  /** A pinch hitter for `b` comes in with no pitch at or before his entry. */
  ghost predicate PinchHitFor(play: Play, b: int) {
    exists e | 0 <= e < |play.events| ::
      && play.events[e].kind == OffensiveSubstitution && play.events[e].position == Some(PH)
      && play.events[e].replaced == Some(b)
      && forall d | 0 <= d <= e :: !play.events[d].isPitch
  }

  lemma {:induction false} ReplacedMeans(events: seq<Event>, b: int)
    ensures b in Replaced(events) <==>
            exists e | 0 <= e < |events| ::
              && events[e].kind == OffensiveSubstitution && events[e].position == Some(PH)
              && events[e].replaced == Some(b)
              && forall d | 0 <= d <= e :: !events[d].isPitch
  {
    if |events| != 0 && !events[0].isPitch {
      var rest := events[1..];
      ReplacedMeans(rest, b);
      if b in Replaced(rest) {
        var e :| 0 <= e < |rest| && rest[e].kind == OffensiveSubstitution
                 && rest[e].position == Some(PH) && rest[e].replaced == Some(b)
                 && forall d | 0 <= d <= e :: !rest[d].isPitch;
        assert events[e + 1] == rest[e];
        forall d | 0 <= d <= e + 1 ensures !events[d].isPitch {
          if d > 0 { assert events[d] == rest[d - 1]; }
        }
      }
      if e :| 0 <= e < |events| && events[e].kind == OffensiveSubstitution
              && events[e].position == Some(PH) && events[e].replaced == Some(b)
              && forall d | 0 <= d <= e :: !events[d].isPitch {
        if e > 0 {
          assert rest[e - 1] == events[e];
          assert forall d | 0 <= d <= e - 1 :: rest[d] == events[d + 1];
        }
      }
    }
  }

  /** The forward meaning of the backward scan: with a next play `j` of the same
      side, the turn ended exactly when `j` has another batter and no pinch hitter
      for him before its first pitch. */
  lemma TurnEndedByNextPlay(plays: seq<Play>, i: nat, j: nat)
    requires i < j < |plays|
    requires plays[j].key.isTop == plays[i].key.isTop
    requires forall h | i < h < j :: plays[h].key.isTop != plays[i].key.isTop
    ensures TurnEnded(plays, i) <==>
            plays[j].batter != plays[i].batter
            && !(plays[i].batter.Some? && PinchHitFor(plays[j], plays[i].batter.value))
  {
    assert NextFrom(plays, i + 1, plays[i].key.isTop) == Some(j);
    if plays[i].batter.Some? {
      ReplacedMeans(plays[j].events, plays[i].batter.value);
    }
  }

  lemma Begins(text: string, word: string)
    ensures word <= text <==> exists rest: string :: text == word + rest
  {
    if word <= text {
      assert text == word + text[|word|..];
    }
  }

  /** A side's latest play falls back to its own event. */
  lemma TurnEndedByEvent(plays: seq<Play>, i: nat)
    requires i < |plays|
    requires forall h | i < h < |plays| :: plays[h].key.isTop != plays[i].key.isTop
    ensures !TurnEnded(plays, i) <==>
            exists rest: string :: plays[i].eventType == "caught_stealing" + rest
                                   || plays[i].eventType == "pickoff" + rest
  {
    assert NextFrom(plays, i + 1, plays[i].key.isTop).None?;
    Begins(plays[i].eventType, "caught_stealing");
    Begins(plays[i].eventType, "pickoff");
  }
}
