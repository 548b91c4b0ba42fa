/** `_roster`: one side of the box score as the starting nine, the starting pitcher
    and the two lists a manager may choose from. */
module FeedRoster {
  import opened Helpers
  import opened Feed

  type Nine = s: seq<int> | |s| == 9 witness [0, 0, 0, 0, 0, 0, 0, 0, 0]

  datatype BoxPlayer = BoxPlayer(id: Option<int>, battingOrder: Option<int>, position: Option<Spot>)

  datatype Box = Box(
    players: seq<BoxPlayer>,
    pitchers: seq<int>,
    bullpen: seq<int>,
    batters: seq<int>,
    bench: seq<int>)

  datatype Roster = Roster(
    starters: seq<Option<int>>,
    positions: seq<(int, Spot)>,
    startingPitcher: Option<int>,
    hitters: seq<int>,
    arms: seq<int>)
  {
    predicate Posted() {
      |starters| == 9 && forall i | 0 <= i < 9 :: starters[i].Some?
    }

    function Lineup(): Nine
      requires Posted()
    {
      seq(9, i requires 0 <= i < 9 => starters[i].value)
    }
  }

  /** A starter's order is a whole hundred from 100 to 900. */
  predicate IsStarter(p: BoxPlayer) {
    p.battingOrder.Some? && p.id.Some? && p.battingOrder.value % 100 == 0
    && 1 <= p.battingOrder.value / 100 <= 9
  }

  function SlotOf(p: BoxPlayer): nat
    requires IsStarter(p)
  {
    p.battingOrder.value / 100 - 1
  }

  function StartersOf(players: seq<BoxPlayer>, n: nat): (r: seq<Option<int>>)
    requires n <= |players|
    ensures |r| == 9
  {
    if n == 0 then seq(9, _ => None)
    else
      var earlier := StartersOf(players, n - 1);
      if IsStarter(players[n - 1]) then earlier[SlotOf(players[n - 1]) := players[n - 1].id] else earlier
  }

  /** A dict update in insertion order: a known key keeps its place. */
  function Assign(d: seq<(int, Spot)>, pid: int, pos: Spot): seq<(int, Spot)> {
    if |d| == 0 then [(pid, pos)]
    else if d[0].0 == pid then [(pid, pos)] + d[1..]
    else [d[0]] + Assign(d[1..], pid, pos)
  }

  function PositionOf(p: BoxPlayer): Spot {
    if p.position.None? || p.position.value == Other("") then DH else p.position.value
  }

  function PositionsOf(players: seq<BoxPlayer>, n: nat): seq<(int, Spot)>
    requires n <= |players|
  {
    if n == 0 then []
    else
      var p := players[n - 1];
      var earlier := PositionsOf(players, n - 1);
      if IsStarter(p) then Assign(earlier, p.id.value, PositionOf(p)) else earlier
  }

  /** `{pos: pid ...}` over the starters' positions; a later man takes a shared position. */
  function StartingDefense(positions: seq<(int, Spot)>): map<Spot, int> {
    if |positions| == 0 then map[]
    else
      var (pid, pos) := positions[|positions| - 1];
      var earlier := StartingDefense(positions[..|positions| - 1]);
      if pos in {DH, PH, PR} then earlier else earlier[pos := pid]
  }

  /** The players who held a batting-order spot. */
  function Batted(players: seq<BoxPlayer>): set<int> {
    set p | p in players && p.id.Some? && p.battingOrder.Some? :: p.id.value
  }

  function HittersAmong(list: seq<int>, arms: seq<int>, batted: set<int>): (r: seq<int>)
    ensures forall x :: x in r <==> x in list && (x !in arms || x in batted)
  {
    if |list| == 0 then []
    else
      (if list[0] !in arms || list[0] in batted then [list[0]] else [])
      + HittersAmong(list[1..], arms, batted)
  }

  ghost predicate Distinct(s: seq<int>) {
    forall i, j | 0 <= i < j < |s| :: s[i] != s[j]
  }

  /** `list(dict.fromkeys(...))`: the first of each value, in order. */
  function Dedupe(s: seq<int>): (r: seq<int>)
    ensures Distinct(r)
    ensures forall x :: x in r <==> x in s
  {
    if |s| == 0 then []
    else
      var earlier := Dedupe(s[..|s| - 1]);
      var x := s[|s| - 1];
      assert s == s[..|s| - 1] + [x];
      if x in earlier then earlier else earlier + [x]
  }

  function RosterOf(box: Box): Roster {
    var arms := box.pitchers + box.bullpen;
    Roster(
      StartersOf(box.players, |box.players|),
      PositionsOf(box.players, |box.players|),
      if |box.pitchers| > 0 then Some(box.pitchers[0]) else None,
      Dedupe(HittersAmong(box.batters + box.bench, arms, Batted(box.players))),
      Dedupe(arms))
  }

  method ReadRoster(box: Box) returns (r: Roster)
    ensures r == RosterOf(box)
  {
    var starters: seq<Option<int>> := seq(9, _ => None);
    var positions: seq<(int, Spot)> := [];
    var n := 0;
    while n < |box.players|
      invariant 0 <= n <= |box.players|
      invariant starters == StartersOf(box.players, n)
      invariant positions == PositionsOf(box.players, n)
    {
      var p := box.players[n];
      if IsStarter(p) {
        starters := starters[SlotOf(p) := p.id];
        positions := Assign(positions, p.id.value, PositionOf(p));
      }
      n := n + 1;
    }
    var arms := box.pitchers + box.bullpen;
    var hitters := HittersAmong(box.batters + box.bench, arms, Batted(box.players));
    r := Roster(starters, positions,
                if |box.pitchers| > 0 then Some(box.pitchers[0]) else None,
                Dedupe(hitters), Dedupe(arms));
  }

  // ----- what the box score's dicts mean -----

  ghost predicate HoldsSlot(p: BoxPlayer, slot: nat) {
    p.id.Some? && p.battingOrder == Some(100 * (slot + 1))
  }

  ghost predicate LatestHolder(players: seq<BoxPlayer>, n: nat, slot: nat, i: nat)
    requires i < n <= |players|
  {
    HoldsSlot(players[i], slot) && forall j | i < j < n :: !HoldsSlot(players[j], slot)
  }

  lemma {:induction false} LatestHolderStarts(players: seq<BoxPlayer>, n: nat, slot: nat, i: nat)
    requires i < n <= |players| && slot < 9 && LatestHolder(players, n, slot, i)
    ensures StartersOf(players, n)[slot] == players[i].id
  {
    if i < n - 1 {
      assert !HoldsSlot(players[n - 1], slot);
      LatestHolderStarts(players, n - 1, slot, i);
    }
  }

  lemma {:induction false} NoHolderNoStarter(players: seq<BoxPlayer>, n: nat, slot: nat)
    requires n <= |players| && slot < 9
    requires forall i | 0 <= i < n :: !HoldsSlot(players[i], slot)
    ensures StartersOf(players, n)[slot].None?
  {
    if n > 0 {
      assert !HoldsSlot(players[n - 1], slot);
      NoHolderNoStarter(players, n - 1, slot);
    }
  }

  lemma {:induction false} LatestHolderExists(players: seq<BoxPlayer>, n: nat, slot: nat)
    requires n <= |players|
    ensures (forall i | 0 <= i < n :: !HoldsSlot(players[i], slot))
            || exists i | 0 <= i < n :: LatestHolder(players, n, slot, i)
  {
    hide HoldsSlot;
    if n > 0 {
      var m := n - 1;
      LatestHolderExists(players, m, slot);
      if HoldsSlot(players[m], slot) {
        assert LatestHolder(players, n, slot, m);
      } else if exists i | 0 <= i < m :: LatestHolder(players, m, slot, i) {
        var i :| 0 <= i < m && LatestHolder(players, m, slot, i);
        assert LatestHolder(players, n, slot, i);
      }
    }
  }

  /** A slot's starter is the latest listed player with its whole-hundred order. */
  lemma {:induction false} StartersMean(players: seq<BoxPlayer>, n: nat, slot: nat)
    requires n <= |players| && slot < 9
    ensures var starter := StartersOf(players, n)[slot];
      && (starter.None? <==> forall i | 0 <= i < n :: !HoldsSlot(players[i], slot))
      && (starter.Some? ==> exists i | 0 <= i < n :: LatestHolder(players, n, slot, i) && players[i].id == starter)
  {
    hide StartersOf;
    LatestHolderExists(players, n, slot);
    if exists i | 0 <= i < n :: LatestHolder(players, n, slot, i) {
      var i :| 0 <= i < n && LatestHolder(players, n, slot, i);
      LatestHolderStarts(players, n, slot, i);
      assert HoldsSlot(players[i], slot);
    } else {
      NoHolderNoStarter(players, n, slot);
    }
  }

  /** `x` occurs in `s` with no `y` before it. */
  ghost predicate SeenBefore(s: seq<int>, x: int, y: int) {
    exists i | 0 <= i < |s| :: s[i] == x && y !in s[..i]
  }

  lemma SeenBeforeGrows(s: seq<int>, last: int, x: int, y: int)
    requires SeenBefore(s, x, y)
    ensures SeenBefore(s + [last], x, y)
  {
    var i :| 0 <= i < |s| && s[i] == x && y !in s[..i];
    assert (s + [last])[i] == x && (s + [last])[..i] == s[..i];
  }

  lemma NewlySeen(s: seq<int>, last: int, x: int)
    requires x in s && last !in s
    ensures SeenBefore(s + [last], x, last)
  {
    var i :| 0 <= i < |s| && s[i] == x;
    assert (s + [last])[i] == x && (s + [last])[..i] == s[..i];
    assert forall k | 0 <= k < i :: s[..i][k] == s[k];
  }

  /** Each name once, the same names, each before those first seen after it. */
  lemma {:induction false} DedupeKeepsFirstSeen(s: seq<int>)
    ensures Distinct(Dedupe(s))
    ensures forall x :: x in Dedupe(s) <==> x in s
    ensures forall j, k | 0 <= j < k < |Dedupe(s)| :: SeenBefore(s, Dedupe(s)[j], Dedupe(s)[k])
  {
    hide SeenBefore, Distinct;
    if |s| > 0 {
      var init, x := s[..|s| - 1], s[|s| - 1];
      var earlier := Dedupe(init);
      DedupeKeepsFirstSeen(init);
      assert s == init + [x];
      forall j, k | 0 <= j < k < |Dedupe(s)| ensures SeenBefore(s, Dedupe(s)[j], Dedupe(s)[k]) {
        assert Dedupe(s)[j] == earlier[j] && earlier[j] in earlier;
        if k < |earlier| {
          assert Dedupe(s)[k] == earlier[k];
          SeenBeforeGrows(init, x, earlier[j], earlier[k]);
        } else {
          NewlySeen(init, x, earlier[j]);
        }
      }
    }
  }

  ghost predicate KeysDistinct(d: seq<(int, Spot)>) {
    forall i, j | 0 <= i < j < |d| :: d[i].0 != d[j].0
  }

  lemma {:induction false} AssignHolds(d: seq<(int, Spot)>, pid: int, pos: Spot)
    requires KeysDistinct(d)
    ensures forall x :: x in Assign(d, pid, pos) <==> x == (pid, pos) || (x in d && x.0 != pid)
  {
    if |d| > 0 {
      assert d == [d[0]] + d[1..];
      AssignHolds(d[1..], pid, pos);
      assert forall k | 0 <= k < |d[1..]| :: d[1..][k] in d[1..];
    }
  }

  lemma {:induction false} AssignKeepsKeys(d: seq<(int, Spot)>, pid: int, pos: Spot)
    requires KeysDistinct(d)
    ensures KeysDistinct(Assign(d, pid, pos))
  {
    if |d| > 0 {
      AssignKeepsKeys(d[1..], pid, pos);
      AssignHolds(d[1..], pid, pos);
      var rest := Assign(d[1..], pid, pos);
      forall k | 0 <= k < |rest| && d[0].0 != pid ensures rest[k].0 != d[0].0 {
        assert rest[k] in rest;
      }
    }
  }

  /** Each starter is listed once, with the position of his latest entry. */
  lemma {:induction false} PositionsDistinct(players: seq<BoxPlayer>, n: nat)
    requires n <= |players|
    ensures KeysDistinct(PositionsOf(players, n))
  {
    if n > 0 {
      PositionsDistinct(players, n - 1);
      var p := players[n - 1];
      if IsStarter(p) {
        AssignKeepsKeys(PositionsOf(players, n - 1), p.id.value, PositionOf(p));
      }
    }
  }

  ghost predicate Starts(p: BoxPlayer) {
    p.id.Some? && p.battingOrder.Some? && p.battingOrder.value in {100, 200, 300, 400, 500, 600, 700, 800, 900}
  }

  /** The latest entry of a starter is the one listed: with no position, as the DH. */
  lemma {:induction false} StarterIsListed(players: seq<BoxPlayer>, n: nat, i: nat)
    requires i < n <= |players| && Starts(players[i])
    requires forall j | i < j < n && Starts(players[j]) :: players[j].id != players[i].id
    ensures var position := players[i].position;
            var listed := if position.None? || position == Some(Other("")) then DH else position.value;
            (players[i].id.value, listed) in PositionsOf(players, n)
  {
    var p := players[n - 1];
    PositionsDistinct(players, n - 1);
    if IsStarter(p) {
      AssignHolds(PositionsOf(players, n - 1), p.id.value, PositionOf(p));
    }
    if i < n - 1 {
      StarterIsListed(players, n - 1, i);
    }
  }

  ghost predicate OneSpotEach(defense: map<Spot, int>) {
    forall a, b | a in defense && b in defense && a != b :: defense[a] != defense[b]
  }

  /** A man of the starting defense is listed at his position. */
  lemma {:induction false} DefenderIsListed(positions: seq<(int, Spot)>, pos: Spot)
    requires pos in StartingDefense(positions)
    ensures (StartingDefense(positions)[pos], pos) in positions
  {
    var before, last := positions[..|positions| - 1], positions[|positions| - 1];
    assert positions == before + [last];
    if StartingDefense(positions)[pos] != last.0 || pos != last.1 {
      DefenderIsListed(before, pos);
    }
  }

  /** Every fielding position that someone is listed at is manned, and no other. */
  lemma {:induction false} ListedAreManned(positions: seq<(int, Spot)>, pos: Spot)
    ensures pos in StartingDefense(positions) <==>
            pos !in {DH, PH, PR} && exists i :: 0 <= i < |positions| && positions[i].1 == pos
  {
    if |positions| > 0 {
      var before, last := positions[..|positions| - 1], positions[|positions| - 1];
      ListedAreManned(before, pos);
      if i :| 0 <= i < |before| && before[i].1 == pos {
        assert positions[i].1 == pos;
      }
      if i :| 0 <= i < |positions| && positions[i].1 == pos {
        assert i < |before| ==> before[i].1 == pos;
      }
      assert last.1 == pos ==> positions[|positions| - 1].1 == pos;
    }
  }

  lemma {:induction false} StartersStandApart(positions: seq<(int, Spot)>)
    requires KeysDistinct(positions)
    ensures OneSpotEach(StartingDefense(positions))
  {
    if |positions| > 0 {
      var before, last := positions[..|positions| - 1], positions[|positions| - 1];
      assert KeysDistinct(before);
      StartersStandApart(before);
      var earlier := StartingDefense(before);
      forall pos | pos in earlier ensures earlier[pos] != last.0 {
        DefenderIsListed(before, pos);
        var k :| 0 <= k < |before| && before[k] == (earlier[pos], pos);
        assert positions[k].0 != positions[|positions| - 1].0;
      }
      assert StartingDefense(positions)
          == if last.1 in {DH, PH, PR} then earlier else earlier[last.1 := last.0];
    }
  }

  /** The starting defense: exactly the listed fielding positions, each with a man listed
      there, and no man at two. */
  lemma {:induction false} StartingDefenseMeans(positions: seq<(int, Spot)>)
    requires KeysDistinct(positions)
    ensures forall pos | pos in StartingDefense(positions) :: (StartingDefense(positions)[pos], pos) in positions
    ensures forall pos :: pos in StartingDefense(positions) <==>
              pos !in {DH, PH, PR} && exists i :: 0 <= i < |positions| && positions[i].1 == pos
    ensures OneSpotEach(StartingDefense(positions))
  {
    hide StartingDefense, OneSpotEach, KeysDistinct;
    forall pos | pos in StartingDefense(positions)
      ensures (StartingDefense(positions)[pos], pos) in positions
    {
      DefenderIsListed(positions, pos);
    }
    StartersStandApart(positions);
    forall pos ensures pos in StartingDefense(positions) <==>
        pos !in {DH, PH, PR} && exists i :: 0 <= i < |positions| && positions[i].1 == pos
    {
      ListedAreManned(positions, pos);
    }
  }
}
