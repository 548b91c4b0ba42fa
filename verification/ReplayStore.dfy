/** The replay file (db/sim_store.py): run ids, stores, and prunes.

    One step is one SQL statement, and a crash may follow any of them. A store writes its
    plays, then its snapshots, then its card. A prune deletes from the three tables in
    turn. The write lock admits one store or prune at a time. */
module ReplayStore {
  import opened Helpers

  datatype Row = Row(run: int, game: int, sequence: int)

  /** What a store was given to write. */
  datatype Content = Content(game: int, plays: set<Row>, snapshots: set<Row>)

  /** What the holder of the write lock is doing. */
  datatype Job =
    | Idle
    | Storing(run: int, content: Content)
    | Pruning(game: int, floor: int, stage: nat)

  datatype File = File(
    plays: set<Row>,
    snapshots: set<Row>,
    cards: map<int, int>,
    job: Job,
    // history: what the last store under each run id was given
    contents: map<int, Content>)

  // ----- queries -----

  function RunsIn(rows: set<Row>): set<int> {
    set row | row in rows :: row.run
  }

  /** Every run id in the three tables, with 0 for `coalesce(max(run_id), 0)`. */
  function AllRuns(f: File): (runs: set<int>)
    ensures 0 in runs
  {
    RunsIn(f.plays) + RunsIn(f.snapshots) + f.cards.Keys + {0}
  }

  function HighestRun(f: File): (m: int)
    ensures m in AllRuns(f) && forall run | run in AllRuns(f) :: run <= m
  {
    assert 0 in AllRuns(f);
    Max(AllRuns(f))
  }

  /** `next_replay_run_id`. */
  function NextRunId(f: File): int {
    HighestRun(f) + 1
  }

  function CardsOf(f: File, game: int): set<int> {
    set run | run in f.cards && f.cards[run] == game
  }

  /** `latest_replay_run_id`. */
  function LatestRun(f: File, game: int): Option<int> {
    if exists run :: run in CardsOf(f, game) then Some(Max(CardsOf(f, game))) else None
  }

  /** The `keep` newest of a set of run ids: `ORDER BY run_id DESC`, then `rows[:keep]`. */
  function Newest(runs: set<int>, keep: int): (newest: set<int>)
    ensures newest <= runs
    decreases runs
  {
    if keep > 0 && exists run :: run in runs then
      {Max(runs)} + Newest(runs - {Max(runs)}, keep - 1)
    else {}
  }

  /** What a DELETE of the prune leaves of a table. */
  function Pruned(rows: set<Row>, game: int, floor: int): set<Row> {
    set row | row in rows && !(row.game == game && row.run < floor)
  }

  function PrunedCards(cards: map<int, int>, game: int, floor: int): map<int, int> {
    map run | run in cards && !(cards[run] == game && run < floor) :: cards[run]
  }

  // ----- steps -----

  datatype Step =
    | BeginStore(content: Content)
    | PutPlays(chunk: set<Row>)
    | PutSnapshots(chunk: set<Row>)
    | PutCard
    | BeginPrune(game: int, keep: int)
    | Delete
    | Crash

  ghost predicate Enabled(f: File, s: Step) {
    match s
    case BeginStore(content) =>
      f.job == Idle && RowsMatch(content, NextRunId(f))
    case PutPlays(chunk) =>
      f.job.Storing? && chunk <= f.job.content.plays && chunk !! f.plays
      && exists row :: row in chunk
    case PutSnapshots(chunk) =>
      f.job.Storing? && chunk <= f.job.content.snapshots && chunk !! f.snapshots
      && f.job.content.plays <= f.plays
      && exists row :: row in chunk
    case PutCard =>
      f.job.Storing? && f.job.content.plays <= f.plays && f.job.content.snapshots <= f.snapshots
    case BeginPrune(game, keep) => f.job == Idle
    case Delete => f.job.Pruning?
    case Crash => true
  }

  /** The rows of a store carry its game and its run id. */
  ghost predicate RowsMatch(content: Content, run: int) {
    forall row | row in content.plays + content.snapshots :: row.run == run && row.game == content.game
  }

  function Next(f: File, s: Step): File
    requires Enabled(f, s)
  {
    match s
    case BeginStore(content) =>
      f.(job := Storing(NextRunId(f), content), contents := f.contents[NextRunId(f) := content])
    case PutPlays(chunk) => f.(plays := f.plays + chunk)
    case PutSnapshots(chunk) => f.(snapshots := f.snapshots + chunk)
    case PutCard => f.(cards := f.cards[f.job.run := f.job.content.game], job := Idle)
    case BeginPrune(game, keep) =>
      var kept := Newest(CardsOf(f, game), keep);
      if exists run :: run in kept then f.(job := Pruning(game, Min(kept), 0)) else f
    case Delete =>
      var game, floor := f.job.game, f.job.floor;
      if f.job.stage == 0 then
        f.(plays := Pruned(f.plays, game, floor), job := Pruning(game, floor, 1))
      else if f.job.stage == 1 then
        f.(snapshots := Pruned(f.snapshots, game, floor), job := Pruning(game, floor, 2))
      else f.(cards := PrunedCards(f.cards, game, floor), job := Idle)
    case Crash => f.(job := Idle)
  }

  const EMPTY := File({}, {}, map[], Idle, map[])

  ghost predicate IsRun(files: seq<File>, steps: seq<Step>) {
    && |files| == |steps| + 1 && files[0] == EMPTY
    && forall i | 0 <= i < |steps| :: Enabled(files[i], steps[i]) && files[i + 1] == Next(files[i], steps[i])
  }

  // ----- the invariant -----

  function OfRun(rows: set<Row>, run: int): set<Row> {
    set row | row in rows && row.run == run
  }

  /** The file holds every row the run was given, and no other row of it. */
  ghost predicate Complete(f: File, run: int) {
    && run in f.contents
    && OfRun(f.plays, run) == f.contents[run].plays
    && OfRun(f.snapshots, run) == f.contents[run].snapshots
  }

  ghost predicate IsLatest(f: File, run: int) {
    run in f.cards
    && forall other | other in f.cards && f.cards[other] == f.cards[run] :: other <= run
  }

  ghost predicate LatestComplete(f: File) {
    forall run | IsLatest(f, run) :: Complete(f, run)
  }

  ghost predicate CardsMatch(f: File) {
    forall run | run in f.cards ::
      run in f.contents && f.contents[run].game == f.cards[run] && RowsMatch(f.contents[run], run)
  }

  ghost predicate StoringOk(f: File, run: int, content: Content) {
    && run > 0 && run !in f.cards
    && run in f.contents && f.contents[run] == content && RowsMatch(content, run)
    && OfRun(f.plays, run) <= content.plays && OfRun(f.snapshots, run) <= content.snapshots
    && (forall other | other in AllRuns(f) :: other <= run)
  }

  ghost predicate JobOk(f: File) {
    match f.job
    case Idle => true
    case Storing(run, content) => StoringOk(f, run, content)
    case Pruning(game, floor, stage) => floor in f.cards && f.cards[floor] == game
  }

  ghost predicate Inv(f: File) {
    LatestComplete(f) && CardsMatch(f) && JobOk(f)
  }

  // ----- what every step keeps -----

  lemma RunsGrow(rows: set<Row>, more: set<Row>)
    requires rows <= more
    ensures RunsIn(rows) <= RunsIn(more)
  {
  }

  /** A delete leaves the runs at or above its floor. */
  lemma DeleteSparesNewer(f: File, run: int)
    requires JobOk(f) && f.job.Pruning? && run in AllRuns(f) && run >= f.job.floor
    ensures run in AllRuns(Next(f, Delete))
  {
    var g := Next(f, Delete);
    if row :| row in f.plays && row.run == run {
      assert row in g.plays;
    }
    if row :| row in f.snapshots && row.run == run {
      assert row in g.snapshots;
    }
  }

  /** No step, a delete included, takes the greatest run id out of the file. */
  lemma HighestStays(f: File, s: Step)
    requires JobOk(f) && Enabled(f, s)
    ensures HighestRun(f) <= HighestRun(Next(f, s))
  {
    var g := Next(f, s);
    if s.Delete? {
      assert f.job.floor in AllRuns(f);
      DeleteSparesNewer(f, HighestRun(f));
    } else {
      RunsGrow(f.plays, g.plays);
      RunsGrow(f.snapshots, g.snapshots);
      assert HighestRun(f) in AllRuns(g);
    }
  }

  /** Rows of one run do not change the rows of another. */
  lemma OtherRows(rows: set<Row>, chunk: set<Row>, run: int, other: int)
    requires forall row | row in chunk :: row.run == run
    requires other != run
    ensures OfRun(rows + chunk, other) == OfRun(rows, other)
  {
  }

  /** A prune leaves every row of a run it must not touch. */
  lemma PruneSpares(rows: set<Row>, game: int, floor: int, run: int, given: set<Row>)
    requires OfRun(rows, run) == given
    requires run >= floor || forall row | row in given :: row.game != game
    ensures OfRun(Pruned(rows, game, floor), run) == given
  {
    forall row | row in given ensures row in OfRun(Pruned(rows, game, floor), run) {
      assert row in OfRun(rows, run);
    }
    forall row | row in OfRun(Pruned(rows, game, floor), run) ensures row in given {
      assert row in OfRun(rows, run);
    }
  }

  lemma LatestKept(f: File, s: Step, run: int)
    requires Inv(f) && Enabled(f, s) && IsLatest(Next(f, s), run)
    ensures Complete(Next(f, s), run)
  {
    var g := Next(f, s);
    match s
    case BeginStore(content) =>
      assert IsLatest(f, run);
      assert run in AllRuns(f);
    case PutPlays(chunk) =>
      assert IsLatest(f, run);
      OtherRows(f.plays, chunk, f.job.run, run);
    case PutSnapshots(chunk) =>
      assert IsLatest(f, run);
      OtherRows(f.snapshots, chunk, f.job.run, run);
    case PutCard =>
      if run == f.job.run {
        assert f.job.content.plays <= OfRun(f.plays, run);
        assert f.job.content.snapshots <= OfRun(f.snapshots, run);
      } else {
        forall other | other in f.cards && f.cards[other] == f.cards[run] ensures other <= run {
          assert other in g.cards && g.cards[other] == g.cards[run];
        }
        assert IsLatest(f, run);
      }
    case BeginPrune(game, keep) =>
      assert IsLatest(f, run);
    case Delete =>
      LatestOutlivesDelete(f, run);
    case Crash =>
      assert IsLatest(f, run);
  }

  /** The newest card of a game lies at or above any floor a prune of that game uses. */
  lemma LatestOutlivesDelete(f: File, run: int)
    requires Inv(f) && f.job.Pruning? && IsLatest(Next(f, Delete), run)
    ensures Complete(Next(f, Delete), run)
  {
    var game, floor := f.job.game, f.job.floor;
    var g := Next(f, Delete);
    assert floor in g.cards && g.cards[floor] == game;
    forall other | other in f.cards && f.cards[other] == f.cards[run] ensures other <= run {
      assert other in g.cards || other < floor;
    }
    assert IsLatest(f, run);
    PruneSpares(f.plays, game, floor, run, f.contents[run].plays);
    PruneSpares(f.snapshots, game, floor, run, f.contents[run].snapshots);
  }

  lemma JobKept(f: File, s: Step)
    requires Inv(f) && Enabled(f, s)
    ensures CardsMatch(Next(f, s)) && JobOk(Next(f, s))
  {
    var g := Next(f, s);
    match s
    case BeginStore(content) =>
      var run := NextRunId(f);
      assert 0 in AllRuns(f);
      assert AllRuns(g) == AllRuns(f);
      assert run !in AllRuns(f);
      assert forall row | row in f.plays :: row.run in AllRuns(f);
      assert forall row | row in f.snapshots :: row.run in AllRuns(f);
    case PutPlays(chunk) =>
      forall other | other in AllRuns(g) ensures other <= f.job.run {
        assert other in AllRuns(f) || exists row :: row in chunk && row.run == other;
      }
    case PutSnapshots(chunk) =>
      forall other | other in AllRuns(g) ensures other <= f.job.run {
        assert other in AllRuns(f) || exists row :: row in chunk && row.run == other;
      }
    case PutCard =>
    case BeginPrune(game, keep) =>
    case Delete =>
    case Crash =>
  }

  lemma InvKept(f: File, s: Step)
    requires Inv(f) && Enabled(f, s)
    ensures Inv(Next(f, s))
  {
    JobKept(f, s);
    forall run | IsLatest(Next(f, s), run) ensures Complete(Next(f, s), run) {
      LatestKept(f, s, run);
    }
  }

  // ----- every run -----

  lemma {:induction false} RunInv(files: seq<File>, steps: seq<Step>, i: nat)
    requires IsRun(files, steps) && i < |files|
    ensures Inv(files[i])
  {
    if i > 0 {
      RunInv(files, steps, i - 1);
      InvKept(files[i - 1], steps[i - 1]);
    }
  }

  /** The highest stored run id never falls, whatever is stored, pruned or cut off. */
  lemma {:induction false} HighestNeverFalls(files: seq<File>, steps: seq<Step>, i: nat, j: nat)
    requires IsRun(files, steps) && i <= j < |files|
    ensures HighestRun(files[i]) <= HighestRun(files[j])
  {
    hide AllRuns, HighestRun, Next, Enabled, JobOk, LatestRun, Newest, CardsOf, Pruned, PrunedCards;
    if i < j {
      HighestNeverFalls(files, steps, i, j - 1);
      RunInv(files, steps, j - 1);
      HighestStays(files[j - 1], steps[j - 1]);
    }
  }

  /** At every moment, between the three deletes of a prune and after any crash, the run
      the page reads holds exactly the rows its store was given. */
  lemma LatestIsComplete(files: seq<File>, steps: seq<Step>, i: nat, game: int)
    requires IsRun(files, steps) && i < |files|
    ensures match LatestRun(files[i], game)
            case None => forall run | run in files[i].cards :: files[i].cards[run] != game
            case Some(run) =>
              Complete(files[i], run) && files[i].contents[run].game == game
              && forall other | other in files[i].cards && files[i].cards[other] == game :: other <= run
  {
    var f := files[i];
    RunInv(files, steps, i);
    match LatestRun(f, game)
    case None =>
      forall run | run in f.cards ensures f.cards[run] != game {
        assert run in CardsOf(f, game) <==> f.cards[run] == game;
      }
    case Some(run) =>
      assert run in CardsOf(f, game);
      forall other | other in f.cards && f.cards[other] == game ensures other <= run {
        assert other in CardsOf(f, game);
      }
      assert IsLatest(f, run);
  }

  ghost predicate Writes(s: Step) {
    s.PutPlays? || s.PutSnapshots? || s.PutCard?
  }

  /** A write puts its run id among the stored ones. */
  lemma WriteRaises(f: File, s: Step)
    requires Enabled(f, s) && Writes(s) && JobOk(f)
    ensures f.job.run <= HighestRun(Next(f, s))
  {
    var g := Next(f, s);
    assert f.job.run in AllRuns(g) by {
      match s
      case PutPlays(chunk) =>
        var row :| row in chunk;
        assert row in g.plays && row.run == f.job.run;
      case PutSnapshots(chunk) =>
        var row :| row in chunk;
        assert row in g.snapshots && row.run == f.job.run;
      case PutCard =>
    }
  }

  lemma {:induction false} StoreIsNewer(files: seq<File>, steps: seq<Step>, begin: nat, j: nat)
    requires IsRun(files, steps) && begin < j < |files| && steps[begin].BeginStore?
    ensures files[j].job.Storing? ==> HighestRun(files[begin]) < files[j].job.run
    decreases j
  {
    hide AllRuns, HighestRun, LatestRun, Newest, CardsOf, Pruned, PrunedCards, RowsMatch;
    if begin + 1 < j {
      StoreIsNewer(files, steps, begin, j - 1);
      HighestNeverFalls(files, steps, begin, j - 1);
    }
    assert files[j] == Next(files[j - 1], steps[j - 1]);
  }

  /** No two stores that wrote share a run id: the later one's is greater. */
  lemma StoresNeverShareIds(files: seq<File>, steps: seq<Step>, first: nat, begin: nat, second: nat)
    requires IsRun(files, steps) && first < begin < second < |steps|
    requires Writes(steps[first]) && steps[begin].BeginStore? && Writes(steps[second])
    ensures files[first].job.run < files[second].job.run
  {
    RunInv(files, steps, first);
    WriteRaises(files[first], steps[first]);
    HighestNeverFalls(files, steps, first + 1, begin);
    StoreIsNewer(files, steps, begin, second);
  }

  // ----- a finished prune -----

  /** The tables after all three deletes. */
  function AfterPrune(f: File, game: int, keep: int): File {
    var kept := Newest(CardsOf(f, game), keep);
    if exists run :: run in kept then
      f.(plays := Pruned(f.plays, game, Min(kept)),
         snapshots := Pruned(f.snapshots, game, Min(kept)),
         cards := PrunedCards(f.cards, game, Min(kept)))
    else f
  }

  /** An uninterrupted prune goes through these states. */
  lemma PruneSteps(f: File, game: int, keep: int)
    requires f.job == Idle
    ensures var f1 := Next(f, BeginPrune(game, keep));
            if f1.job.Pruning? then
              Next(Next(Next(f1, Delete), Delete), Delete) == AfterPrune(f, game, keep)
            else f1 == f && f == AfterPrune(f, game, keep)
  {
  }

  lemma {:induction false} NewestSize(runs: set<int>, keep: int)
    ensures |Newest(runs, keep)| == (if keep <= 0 then 0 else if keep < |runs| then keep else |runs|)
    decreases runs
  {
    if keep > 0 {
      if exists run :: run in runs {
        var top := Max(runs);
        var rest := runs - {top};
        var tail := Newest(rest, keep - 1);
        NewestSize(rest, keep - 1);
        assert Newest(runs, keep) == {top} + tail;
        assert top !in tail;
        assert |{top} + tail| == 1 + |tail|;
        assert |rest| == |runs| - 1;
      } else {
        assert runs == {};
      }
    }
  }

  /** Nothing `Newest` leaves out is newer than anything it takes. */
  lemma {:induction false} NewestAreNewer(runs: set<int>, keep: int, a: int, b: int)
    requires a in Newest(runs, keep) && b in runs && b !in Newest(runs, keep)
    ensures b < a
    decreases runs
  {
    var rest := runs - {Max(runs)};
    assert b in rest;
    if a != Max(runs) {
      NewestAreNewer(rest, keep - 1, a, b);
    }
  }

  /** A finished prune leaves exactly the game's `keep` newest cards and no row of the game
      older than all of them. */
  lemma {:induction false} PruneKeepsNewest(f: File, game: int, keep: int)
    requires keep >= 1
    ensures var g := AfterPrune(f, game, keep);
      && CardsOf(g, game) == Newest(CardsOf(f, game), keep)
      && (forall row | row in g.plays + g.snapshots && row.game == game && CardsOf(f, game) != {} ::
            exists run :: run in CardsOf(g, game) && run <= row.run)
  {
    var runs := CardsOf(f, game);
    var kept, g := Newest(runs, keep), AfterPrune(f, game, keep);
    NewestSize(runs, keep);
    if exists run :: run in kept {
      var floor := Min(kept);
      forall run ensures run in CardsOf(g, game) <==> run in kept {
        if run in runs && run !in kept {
          NewestAreNewer(runs, keep, floor, run);
        }
      }
      forall row | row in g.plays + g.snapshots && row.game == game
        ensures exists run :: run in CardsOf(g, game) && run <= row.run
      {
        assert floor in CardsOf(g, game) && floor <= row.run;
      }
    } else {
      assert kept == {};
      assert |runs| == 0;
      assert runs == {};
    }
  }

  /** Exactly what a prune leaves: of the game's rows and cards, those at or above some kept
      card; of every other game, all. With nothing kept it leaves everything. */
  lemma {:induction false} PruneExactly(f: File, game: int, keep: int)
    ensures var kept := Newest(CardsOf(f, game), keep);
      var g := AfterPrune(f, game, keep);
      && (forall row :: row in g.plays <==>
            row in f.plays && (row.game == game && kept != {} ==> exists run :: run in kept && run <= row.run))
      && (forall row :: row in g.snapshots <==>
            row in f.snapshots && (row.game == game && kept != {} ==> exists run :: run in kept && run <= row.run))
      && (forall card :: card in g.cards <==>
            card in f.cards && (f.cards[card] == game && kept != {} ==> exists run :: run in kept && run <= card))
      && (forall card | card in g.cards :: g.cards[card] == f.cards[card])
  {
    var kept := Newest(CardsOf(f, game), keep);
    if exists run :: run in kept {
      var floor := Min(kept);
      assert floor in kept && kept != {};
      hide Newest, CardsOf;
      assert forall run | run in kept :: floor <= run;
    } else {
      assert kept == {};
    }
  }

  /** A `keep` of zero or less deletes nothing, so "all but the `keep` newest" is what a
      prune leaves exactly when it is asked to keep something or has nothing to delete. */
  lemma {:induction false} PruneMeetsItsPromise(f: File, game: int, keep: int)
    ensures CardsOf(AfterPrune(f, game, keep), game) == Newest(CardsOf(f, game), keep)
            <==> keep >= 1 || CardsOf(f, game) == {}
    ensures keep <= 0 ==> AfterPrune(f, game, keep) == f
  {
    if keep >= 1 {
      PruneKeepsNewest(f, game, keep);
    }
  }

  /** A prune touches no other game, and no row of a run whose card it leaves. */
  lemma PruneTouchesOneGame(f: File, game: int, keep: int)
    ensures var g := AfterPrune(f, game, keep);
      && (forall other | other != game :: CardsOf(g, other) == CardsOf(f, other))
      && g.plays <= f.plays && g.snapshots <= f.snapshots
      && (forall row | row in f.plays && row.game != game :: row in g.plays)
      && (forall row | row in f.snapshots && row.game != game :: row in g.snapshots)
      && forall run | run in CardsOf(g, game) ::
           && OfRun(g.plays, run) == OfRun(f.plays, run)
           && OfRun(g.snapshots, run) == OfRun(f.snapshots, run)
  {
    var kept, g := Newest(CardsOf(f, game), keep), AfterPrune(f, game, keep);
    if exists run :: run in kept {
      var floor := Min(kept);
      forall other | other != game ensures CardsOf(g, other) == CardsOf(f, other) {
      }
      forall run | run in CardsOf(g, game)
        ensures OfRun(g.plays, run) == OfRun(f.plays, run)
        ensures OfRun(g.snapshots, run) == OfRun(f.snapshots, run)
      {
        PruneSpares(f.plays, game, floor, run, OfRun(f.plays, run));
        PruneSpares(f.snapshots, game, floor, run, OfRun(f.snapshots, run));
      }
    }
  }

  // ----- a store that runs to its end -----

  lemma NewRunIsUnused(f: File, content: Content)
    requires RowsMatch(content, NextRunId(f))
    ensures content.plays !! f.plays && content.snapshots !! f.snapshots && NextRunId(f) !in f.cards
    ensures OfRun(f.plays, NextRunId(f)) == {} && OfRun(f.snapshots, NextRunId(f)) == {}
    ensures forall run | run in f.cards :: run < NextRunId(f)
  {
    assert forall row | row in f.plays :: row.run in AllRuns(f);
    assert forall row | row in f.snapshots :: row.run in AllRuns(f);
    assert forall run | run in f.cards :: run in AllRuns(f);
  }

  /** The file after a store under the next run id has put all its rows. */
  ghost function Filled(f: File, content: Content): File {
    f.(plays := f.plays + content.plays, snapshots := f.snapshots + content.snapshots,
       job := Storing(NextRunId(f), content), contents := f.contents[NextRunId(f) := content])
  }

  /** Whatever a store is given, nothing stops it between its steps: all its plays, all its
      snapshots, the card. A store of no plays or no snapshots leaves that step out. */
  lemma StoreCanFinish(f: File, content: Content)
    requires f.job == Idle && RowsMatch(content, NextRunId(f))
    ensures Enabled(f, BeginStore(content))
    ensures var begun := Next(f, BeginStore(content));
      && (Enabled(begun, PutPlays(content.plays)) <==> content.plays != {})
      && var played := if content.plays == {} then begun else Next(begun, PutPlays(content.plays));
      && (Enabled(played, PutSnapshots(content.snapshots)) <==> content.snapshots != {})
      && var filled := if content.snapshots == {} then played else Next(played, PutSnapshots(content.snapshots));
      && filled == Filled(f, content) && Enabled(filled, PutCard)
  {
    NewRunIsUnused(f, content);
    SomeRow(content.plays);
    SomeRow(content.snapshots);
    assert f.plays + {} == f.plays && f.snapshots + {} == f.snapshots;
    hide NextRunId;
  }

  lemma SomeRow(rows: set<Row>)
    ensures rows != {} <==> exists row :: row in rows
  {
  }

  /** What is stored is what is read back: the new run is the game's latest, with exactly the
      rows it was given; no other run's rows and no other card changed. */
  lemma StoreIsRead(f: File, content: Content)
    requires f.job == Idle && RowsMatch(content, NextRunId(f))
    ensures Enabled(Filled(f, content), PutCard)
    ensures var run, g := NextRunId(f), Next(Filled(f, content), PutCard);
      && g.job == Idle && LatestRun(g, content.game) == Some(run)
      && OfRun(g.plays, run) == content.plays && OfRun(g.snapshots, run) == content.snapshots
      && (forall other | other != run ::
            OfRun(g.plays, other) == OfRun(f.plays, other) && OfRun(g.snapshots, other) == OfRun(f.snapshots, other))
      && g.cards == f.cards[run := content.game]
  {
    hide HighestRun;
    var run, g := NextRunId(f), Next(Filled(f, content), PutCard);
    NewRunIsUnused(f, content);
    assert run in CardsOf(g, content.game);
    forall other | other != run
      ensures OfRun(g.plays, other) == OfRun(f.plays, other) && OfRun(g.snapshots, other) == OfRun(f.snapshots, other)
    {
      OtherRows(f.plays, content.plays, run, other);
      OtherRows(f.snapshots, content.snapshots, run, other);
    }
    StoredRows(f.plays, content.plays, run);
    StoredRows(f.snapshots, content.snapshots, run);
  }

  lemma StoredRows(rows: set<Row>, chunk: set<Row>, run: int)
    requires OfRun(rows, run) == {} && forall row | row in chunk :: row.run == run
    ensures OfRun(rows + chunk, run) == chunk
  {
    assert forall row | row in rows && row.run == run :: row in OfRun(rows, run);
  }

  lemma PlaysFirstByStep(f: File, s: Step)
    requires Enabled(f, s)
    requires f.job.Storing? ==> OfRun(f.snapshots, f.job.run) == {} || f.job.content.plays <= f.plays
    ensures var g := Next(f, s);
      g.job.Storing? ==> OfRun(g.snapshots, g.job.run) == {} || g.job.content.plays <= g.plays
  {
    hide HighestRun;
    if s.BeginStore? {
      NewRunIsUnused(f, s.content);
    }
  }

  /** A store cut off anywhere leaves some of its plays, or all of them and some of its
      snapshots: never a snapshot before the last play. */
  lemma {:induction false} PlaysComeFirst(files: seq<File>, steps: seq<Step>, i: nat)
    requires IsRun(files, steps) && i <= |steps| && files[i].job.Storing?
    ensures OfRun(files[i].snapshots, files[i].job.run) == {} || files[i].job.content.plays <= files[i].plays
  {
    hide Next, Enabled;
    if i > 0 {
      if files[i - 1].job.Storing? {
        PlaysComeFirst(files, steps, i - 1);
      }
      PlaysFirstByStep(files[i - 1], steps[i - 1]);
    }
  }

  // ----- the functions of the source -----

  /** An open replay file. */
  class Connection {
    var plays: set<Row>
    var snapshots: set<Row>
    var cards: map<int, int>

    constructor ()
      ensures Tables() == EMPTY
    {
      plays, snapshots, cards := {}, {}, map[];
    }

    function Tables(): File
      reads this
    {
      File(plays, snapshots, cards, Idle, map[])
    }

    /** One above every stored run of any game. */
    method NextReplayRunId() returns (run: int)
      ensures forall row | row in plays + snapshots :: row.run < run
      ensures forall other | other in cards :: other < run
      ensures run == 1 || run - 1 in cards || exists row :: row in plays + snapshots && row.run == run - 1
      ensures run == NextRunId(Tables())
    {
      run := NextRunId(Tables());
      ghost var all := AllRuns(Tables());
      assert forall row | row in plays + snapshots :: row.run in all;
      assert forall other | other in cards :: other in all;
    }

    method LatestReplayRunId(game: int) returns (run: Option<int>)
      ensures run.None? <==> forall other | other in cards :: cards[other] != game
      ensures run.Some? ==>
                && run.value in cards && cards[run.value] == game
                && forall other | other in cards && cards[other] == game :: other <= run.value
    {
      run := LatestRun(Tables(), game);
      assert forall other | other in cards && cards[other] == game :: other in CardsOf(Tables(), game);
    }

    /** The three deletes, in the order the file runs them; the result counts the cards
        that went, and a `keep` that keeps nothing deletes nothing. */
    method PruneReplayRuns(game: int, keep: int) returns (dropped: int)
      modifies this
      ensures Tables() == AfterPrune(old(Tables()), game, keep)
      ensures dropped == |CardsOf(old(Tables()), game)| - |CardsOf(Tables(), game)|
    {
      var rows := CardsOf(Tables(), game);
      var kept := Newest(rows, keep);
      dropped := |rows| - |kept|;
      if kept == {} {
        assert !exists run :: run in kept;
        return 0;
      }
      PruneNeeds(rows, keep);
      PruneKeepsNewest(Tables(), game, keep);
      var floor := Min(kept);
      plays := Pruned(plays, game, floor);
      snapshots := Pruned(snapshots, game, floor);
      cards := PrunedCards(cards, game, floor);
    }
  }

  lemma {:induction false} PruneNeeds(runs: set<int>, keep: int)
    requires Newest(runs, keep) != {}
    ensures keep >= 1 && exists run :: run in Newest(runs, keep)
  {
    assert (forall run :: run !in Newest(runs, keep)) ==> Newest(runs, keep) == {};
  }
}
