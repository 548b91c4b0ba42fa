/** What the start state holds beside the field: the two grids half by half, the place in the
    half, the players a manager may still choose, and the state before the first pitch. */
module FeedStart {
  import opened Helpers
  import opened Feed
  import opened FeedPlays
  import opened FeedRoster
  import opened FeedReplay
  import opened FeedSituation
  import opened FeedConservation

  // ----- the halves -----

  /** The half that play `m` follows: a game starts in the top of the first. */
  function KeyBefore(plays: seq<Play>, m: nat): HalfKey
    requires m <= |plays|
  {
    if m == 0 then HalfKey(1, true) else plays[m - 1].key
  }

  /** Play `m` is the first of another half. */
  predicate EndsHalf(plays: seq<Play>, m: nat)
    requires m <= |plays|
  {
    m < |plays| && plays[m].key != KeyBefore(plays, m)
  }

  /** The first play of the half that play `m` follows, or `m` itself at the start. */
  function HalfFrom(plays: seq<Play>, m: nat): (h: nat)
    requires m <= |plays|
    ensures h <= m && (m > 0 ==> h < m)
    ensures forall i | h <= i < m :: plays[i].key == KeyBefore(plays, m)
    ensures h > 0 ==> plays[h - 1].key != KeyBefore(plays, m)
  {
    if m == 0 then 0 else if EndsHalf(plays, m - 1) then m - 1 else HalfFrom(plays, m - 1)
  }

  ghost predicate EndsHalfOf(plays: seq<Play>, m: nat, s: Side)
    requires m <= |plays|
  {
    EndsHalf(plays, m) && Batting(KeyBefore(plays, m).isTop) == s
  }

  /** The runs of side `s` in the half that play `m` follows. */
  ghost function RunsOfHalf(plays: seq<Play>, m: nat, s: Side): int
    requires m <= |plays|
  {
    RunningScore(plays, m, s) - RunningScore(plays, HalfFrom(plays, m), s)
  }

  /** The grid has one entry for each half of side `s` that ends before play `n`, in order,
      and each entry is that half's runs. */
  ghost predicate GridIs(grid: seq<int>, plays: seq<Play>, n: nat, s: Side)
    requires n <= |plays|
  {
    exists ends: seq<nat> :: EndsOf(ends, plays, n, s) && HoldsRuns(grid, ends, plays, s)
  }

  ghost predicate EndsOf(ends: seq<nat>, plays: seq<Play>, n: nat, s: Side)
    requires n <= |plays|
  {
    && (forall a, b | 0 <= a < b < |ends| :: ends[a] < ends[b])
    && (forall m: nat :: m in ends <==> m < n && EndsHalfOf(plays, m, s))
  }

  ghost predicate HoldsRuns(grid: seq<int>, ends: seq<nat>, plays: seq<Play>, s: Side) {
    |grid| == |ends|
    && forall i | 0 <= i < |ends| :: ends[i] <= |plays| && grid[i] == RunsOfHalf(plays, ends[i], s)
  }

  lemma GridGrows(grid: seq<int>, plays: seq<Play>, n: nat, s: Side)
    requires n < |plays| && GridIs(grid, plays, n, s)
    ensures GridIs(if EndsHalfOf(plays, n, s) then grid + [RunsOfHalf(plays, n, s)] else grid, plays, n + 1, s)
  {
    hide EndsHalfOf, RunsOfHalf, EndsHalf, HalfFrom;
    var ends: seq<nat> :| EndsOf(ends, plays, n, s) && HoldsRuns(grid, ends, plays, s);
    if EndsHalfOf(plays, n, s) {
      OneMoreEnd(ends, plays, n, s);
      assert HoldsRuns(grid + [RunsOfHalf(plays, n, s)], ends + [n], plays, s);
    } else {
      assert EndsOf(ends, plays, n + 1, s);
    }
  }

  lemma OneMoreEnd(ends: seq<nat>, plays: seq<Play>, n: nat, s: Side)
    requires n < |plays| && EndsOf(ends, plays, n, s) && EndsHalfOf(plays, n, s)
    ensures EndsOf(ends + [n], plays, n + 1, s)
  {
    hide EndsHalfOf;
    assert forall a | 0 <= a < |ends| :: ends[a] in ends;
    forall m: nat ensures m in ends + [n] <==> m < n + 1 && EndsHalfOf(plays, m, s) {
      InOneMore(ends, n, m);
    }
  }

  /** The state before play `n`, in the half that play `n - 1` stands in. */
  ghost predicate HalvesSoFar(st: Replay, plays: seq<Play>, n: nat, s: Side)
    requires n <= |plays|
  {
    && st.key == KeyBefore(plays, n)
    && GridIs(st.grid.At(s), plays, n, s)
    && st.halfStart.At(s) == RunningScore(plays, HalfFrom(plays, n), s)
    && st.score.At(s) == RunningScore(plays, n, s)
    && st.halfPa == n - HalfFrom(plays, n)
  }

  /** The same once the half has turned for play `n`. */
  ghost predicate HalvesAt(st: Replay, plays: seq<Play>, n: nat, s: Side)
    requires n < |plays|
  {
    && st.key == plays[n].key
    && GridIs(st.grid.At(s), plays, n + 1, s)
    && st.halfStart.At(s) == RunningScore(plays, HalfFrom(plays, n + 1), s)
    && st.score.At(s) == RunningScore(plays, n, s)
    && st.halfPa == n - HalfFrom(plays, n + 1)
  }

  lemma TurnHalves(st: Replay, plays: seq<Play>, n: nat, s: Side)
    requires n < |plays| && HalvesSoFar(st, plays, n, s)
    ensures HalvesAt(TurnHalf(st, plays[n].key), plays, n, s)
  {
    hide GridIs, RunningScore;
    GridGrows(st.grid.At(s), plays, n, s);
  }

  lemma PlayHalves(st: Replay, plays: seq<Play>, n: nat, finished: bool, s: Side)
    requires n < |plays| && HalvesAt(st, plays, n, s)
    ensures HalvesSoFar(Complete(st, plays[n], finished), plays, n + 1, s)
  {
    hide GridIs, HalfFrom, PlayEvents, UseNamed, MoveSlot, CreditFaced;
  }

  lemma HalvesAtFirstPitch(init: Replay, plays: seq<Play>, s: Side)
    requires FirstPitchOf(init)
    ensures HalvesSoFar(init, plays, 0, s)
  {
    var ends: seq<nat> := [];
    assert EndsOf(ends, plays, 0, s) && HoldsRuns([], ends, plays, s);
  }

  lemma {:induction false} Halves(init: Replay, plays: seq<Play>, n: nat, s: Side)
    requires n <= |plays| && FirstPitchOf(init)
    ensures HalvesSoFar(After(init, plays, n), plays, n, s)
  {
    hide HalvesSoFar, HalvesAt, TurnHalf, Complete, TurnEnded;
    if n == 0 {
      AfterNone(init, plays);
      HalvesAtFirstPitch(init, plays, s);
    } else {
      Halves(init, plays, n - 1, s);
      TurnHalves(After(init, plays, n - 1), plays, n - 1, s);
      PlayHalves(TurnHalf(After(init, plays, n - 1), plays[n - 1].key), plays, n - 1,
                 TurnEnded(plays, n - 1), s);
    }
  }

  /** At every target, whatever the order of the halves: entry `i` of a side's grid is the runs
      of the `i`-th half it has finished, the half's first score is the score as its first play
      began, and its plate appearances are the plays since. */
  lemma {:induction false} GridEntries(rosters: PerSide<Roster>, plays: seq<Play>, n: nat, k: int, s: Side)
    requires FirstPitchState(rosters).Ok?
    requires IsTarget(plays, n, k)
    ensures var r := StateAt(rosters, plays, Some(k));
            && r.Ok?
            && GridIs(r.value.grid.At(s), plays, n + 1, s)
            && r.value.halfStart.At(s) == RunningScore(plays, HalfFrom(plays, n + 1), s)
            && r.value.halfPa == n - HalfFrom(plays, n + 1)
            && r.value.batting == if plays[n].key.isTop then Away else Home
  {
    hide StateAt, After, FirstPitchState, GridIs, HalfFrom, RunningScore, TurnHalf;
    var init, st := StateOf(rosters, plays, n, k);
    Halves(init, plays, n, s);
    TurnHalves(After(init, plays, n), plays, n, s);
  }

  // ----- the players -----

  lemma {:induction false} FreshInOrder(list: seq<int>, club: Club)
    ensures Filters(list, Fresh(list, club),
                    (p: int) => p !in club.used && p !in club.lineup && p !in club.defense.Values)
  {
    hide Filters;
    var keep := (p: int) => p !in club.used && p !in club.lineup && p !in club.defense.Values;
    if |list| == 0 {
      FiltersNone(keep);
    } else {
      FreshInOrder(list[1..], club);
      FiltersFront(list[0], list[1..], Fresh(list[1..], club), keep);
      assert list == [list[0]] + list[1..];
      assert keep(list[0]) <==> list[0] !in club.used && list[0] !in InGame(club);
      assert Fresh(list, club) == if keep(list[0]) then [list[0]] + Fresh(list[1..], club) else Fresh(list[1..], club);
    }
  }

  /** The eligible players of both lists are exactly the roster's who were never used, do not
      bat and stand nowhere, in the roster's order. The men out of the game are the used ones
      who neither bat nor stand anywhere. */
  lemma EligibleExactly(rosters: PerSide<Roster>, plays: seq<Play>, atBat: Option<int>, s: Side)
    requires StateAt(rosters, plays, atBat).Ok?
    ensures var r := StateAt(rosters, plays, atBat).value;
      var club := r.clubs.At(s);
      var free := (p: int) => p !in club.used && p !in club.lineup && p !in club.defense.Values;
      && Filters(rosters.At(s).hitters, r.eligibleHitters.At(s), free)
      && Filters(rosters.At(s).arms, r.eligiblePitchers.At(s), free)
      && forall p :: p in r.usedAndOut.At(s) <==>
                     p in club.used && p !in club.lineup && p !in club.defense.Values
  {
    hide Filters, FirstPitchState, After, Begin, RunnersAt, Find, TurnHalf, Fresh;
    var club := StateAt(rosters, plays, atBat).value.clubs.At(s);
    FreshInOrder(rosters.At(s).hitters, club);
    FreshInOrder(rosters.At(s).arms, club);
  }

  // ----- the rosters and the first pitch -----

  lemma {:induction false} HittersInOrder(list: seq<int>, arms: seq<int>, batted: set<int>)
    ensures Filters(list, HittersAmong(list, arms, batted), (p: int) => p !in arms || p in batted)
  {
    hide Filters;
    var keep := (p: int) => p !in arms || p in batted;
    if |list| == 0 {
      FiltersNone(keep);
    } else {
      HittersInOrder(list[1..], arms, batted);
      FiltersFront(list[0], list[1..], HittersAmong(list[1..], arms, batted), keep);
      assert list == [list[0]] + list[1..];
      assert HittersAmong(list, arms, batted)
          == if keep(list[0]) then [list[0]] + HittersAmong(list[1..], arms, batted)
             else HittersAmong(list[1..], arms, batted);
    }
  }

  /** The two lists a manager chooses from: the arms are the pitchers, then the bullpen; the
      hitters the batters, then the bench, less the arms that held no batting-order spot. Each
      is named once, in that order. The starting pitcher is the first pitcher listed. */
  lemma RosterMeans(box: Box)
    ensures var r := RosterOf(box);
      && (r.startingPitcher == if box.pitchers == [] then None else Some(box.pitchers[0]))
      && (forall p :: p in r.arms <==> p in box.pitchers || p in box.bullpen)
      && (forall j, k | 0 <= j < k < |r.arms| ::
            r.arms[j] != r.arms[k] && SeenBefore(box.pitchers + box.bullpen, r.arms[j], r.arms[k]))
      && (forall p :: p in r.hitters <==>
            && (p in box.batters || p in box.bench)
            && (p in box.pitchers || p in box.bullpen ==>
                  exists i :: 0 <= i < |box.players| && box.players[i].id == Some(p)
                              && box.players[i].battingOrder.Some?))
      && (forall j, k | 0 <= j < k < |r.hitters| ::
            r.hitters[j] != r.hitters[k] && SeenBefore(box.batters + box.bench, r.hitters[j], r.hitters[k]))
  {
    hide Dedupe, HittersAmong, StartersOf, PositionsOf, SeenBefore, Filters;
    var arms := box.pitchers + box.bullpen;
    var batted := Batted(box.players);
    var all := box.batters + box.bench;
    DedupeKeepsFirstSeen(arms);
    DedupeKeepsFirstSeen(HittersAmong(all, arms, batted));
    HittersInOrder(all, arms, batted);
    forall p ensures p in batted <==>
        exists i :: 0 <= i < |box.players| && box.players[i].id == Some(p) && box.players[i].battingOrder.Some?
    {
      if i :| 0 <= i < |box.players| && box.players[i].id == Some(p) && box.players[i].battingOrder.Some? {
        assert box.players[i] in box.players;
      }
    }
    var hitters := RosterOf(box).hitters;
    forall j, k | 0 <= j < k < |hitters| ensures SeenBefore(all, hitters[j], hitters[k]) {
      assert hitters[j] in hitters && hitters[k] in hitters;
      SeenInFilter(all, HittersAmong(all, arms, batted), (p: int) => p !in arms || p in batted, hitters[j], hitters[k]);
    }
  }

  lemma PickAt(ix: seq<nat>, list: seq<int>, r: seq<int>, a: nat, i: nat)
    requires Picks(ix, list, r) && a < |r| && i < |r|
    ensures ix[a] < |list| && ix[i] < |list| && list[ix[a]] == r[a] && list[ix[i]] == r[i]
    ensures ix[a] < ix[i] ==> a < i
  {
  }

  /** A filter keeps who is seen first. */
  lemma SeenInFilter(list: seq<int>, r: seq<int>, keep: int -> bool, x: int, y: int)
    requires Filters(list, r, keep) && SeenBefore(r, x, y) && y in r
    ensures SeenBefore(list, x, y)
  {
    hide Picks;
    var ix: seq<nat> :| Picks(ix, list, r) && forall k: nat | k < |list| :: k in ix <==> keep(list[k]);
    var i: nat :| i < |r| && r[i] == x && y !in r[..i];
    var j: nat :| j < |r| && r[j] == y;
    PickLength(ix, list, r);
    PickAt(ix, list, r, i, j);
    assert ix[j] in ix && keep(y);
    forall a | 0 <= a < i ensures r[a] != y {
      assert r[a] == r[..i][a] && r[..i][a] in r[..i];
    }
    forall h: nat | h < ix[i] ensures list[h] != y {
      if list[h] == y {
        var a: nat :| a < |ix| && ix[a] == h;
        PickAt(ix, list, r, a, i);
      }
    }
    assert forall h | 0 <= h < ix[i] :: list[..ix[i]][h] == list[h];
  }

  lemma PickLength(ix: seq<nat>, list: seq<int>, r: seq<int>)
    requires Picks(ix, list, r)
    ensures |ix| == |r|
  {
  }

  /** Before the first pitch: nothing has happened, both starting nines bat and stand as
      listed, and the visitors' lead-off hitter is up. */
  lemma BeforeFirstPitch(rosters: PerSide<Roster>, plays: seq<Play>, s: Side)
    requires StateAt(rosters, plays, None).Ok?
    ensures var r := StateAt(rosters, plays, None).value;
      && r.key == HalfKey(1, true) && r.batting == Away && r.outs == 0 && r.halfPa == 0
      && r.score == PerSide(0, 0) == r.halfStart && r.grid == PerSide([], [])
      && r.runners == Bases(None, None, None) && r.slots == PerSide(0, 0)
      && r.pitchCounts == map[] && r.battersFaced == map[]
    ensures var roster, club := rosters.At(s), StateAt(rosters, plays, None).value.clubs.At(s);
      && |roster.starters| == 9 && (forall i | 0 <= i < 9 :: roster.starters[i] == Some(club.lineup[i]))
      && roster.startingPitcher == Some(club.pitcher)
      && club.defense == StartingDefense(roster.positions)[P := club.pitcher]
      && forall p :: p in club.used <==> p in club.lineup || p == club.pitcher
  {
  }

  /** The three refusals, and when each is given. */
  lemma WhenRefused(rosters: PerSide<Roster>, plays: seq<Play>, atBat: Option<int>)
    ensures var unposted := exists s: Side :: |rosters.At(s).starters| != 9 || None in rosters.At(s).starters;
      var armless := exists s: Side :: rosters.At(s).startingPitcher.None?;
      var missing := atBat.Some? && forall i | 0 <= i < |plays| ::
        plays[i].atBatIndex != atBat && (atBat == Some(-1) ==> plays[i].atBatIndex.Some?);
      var r := StateAt(rosters, plays, atBat);
      && (r == Err(LineupsNotPosted) <==> unposted)
      && (r == Err(NoStartingPitcher) <==> !unposted && armless)
      && (r == Err(NoSuchPlateAppearance) <==> !unposted && !armless && missing)
      && (r.Ok? <==> !unposted && !armless && !missing)
  {
    hide After, Begin, RunnersAt, TurnHalf, Present;
    PostedMeans(rosters, Away);
    PostedMeans(rosters, Home);
    assert rosters.away == rosters.At(Away) && rosters.home == rosters.At(Home);
  }

  lemma PostedMeans(rosters: PerSide<Roster>, s: Side)
    ensures rosters.At(s).Posted() <==> !(|rosters.At(s).starters| != 9 || None in rosters.At(s).starters)
  {
    var starters := rosters.At(s).starters;
    assert forall i | 0 <= i < |starters| :: starters[i] in starters;
  }
}
