/** Safety of the run-job registry over every run: what each step keeps, and what
    follows for the rows, the queue, the semaphore and the active count. */
module SimJobsSafety {
  import opened Helpers
  import opened SimJobs

  // ----- lists -----

  lemma {:induction false} RemoveMeans(s: seq<int>, x: int)
    requires Distinct(s)
    ensures Distinct(Remove(s, x))
    ensures forall y :: y in Remove(s, x) <==> y in s && y != x
  {
    if |s| > 0 {
      assert s == [s[0]] + s[1..];
      RemoveMeans(s[1..], x);
      if s[0] != x {
        DistinctCons(s[0], Remove(s[1..], x));
      }
    }
  }

  lemma DistinctCons(x: int, rest: seq<int>)
    requires Distinct(rest) && x !in rest
    ensures Distinct([x] + rest)
  {
    assert forall k | 0 <= k < |rest| :: rest[k] in rest;
  }

  lemma {:induction false} WithoutMeans(s: seq<int>, out: set<int>)
    ensures forall y :: y in Without(s, out) <==> y in s && y !in out
    ensures Distinct(s) ==> Distinct(Without(s, out))
  {
    if |s| > 0 {
      assert s == [s[0]] + s[1..];
      WithoutMeans(s[1..], out);
      var rest := Without(s[1..], out);
      assert forall k | 0 <= k < |rest| :: rest[k] in rest;
    }
  }

  lemma {:induction false} WithoutOneMore(s: seq<int>, out: set<int>, x: int)
    requires Distinct(s)
    ensures Without(s, out + {x}) == Remove(Without(s, out), x)
  {
    if |s| > 0 {
      var rest := Without(s[1..], out);
      assert ([s[0]] + rest)[1..] == rest;
      if s[0] == x {
        WithoutAbsent(s[1..], out, x);
        WithoutMeans(s[1..], out);
        RemoveAbsent(rest, x);
        assert x !in s[1..];
        assert Without(s, out + {x}) == Without(s[1..], out + {x}) == rest;
        assert Without(s, out) == if x in out then rest else [s[0]] + rest;
      } else {
        WithoutOneMore(s[1..], out, x);
        if s[0] in out {
          assert Without(s, out) == rest;
          assert Without(s, out + {x}) == Without(s[1..], out + {x});
        } else {
          assert Without(s, out) == [s[0]] + rest;
          assert Without(s, out + {x}) == [s[0]] + Without(s[1..], out + {x});
          assert Remove([s[0]] + rest, x) == [s[0]] + Remove(rest, x);
        }
      }
    }
  }

  lemma {:induction false} WithoutAbsent(s: seq<int>, out: set<int>, x: int)
    requires x !in s
    ensures Without(s, out + {x}) == Without(s, out)
  {
    if |s| > 0 {
      WithoutAbsent(s[1..], out, x);
    }
  }

  lemma {:induction false} RemoveAbsent(s: seq<int>, x: int)
    requires x !in s
    ensures Remove(s, x) == s
  {
    if |s| > 0 {
      RemoveAbsent(s[1..], x);
      assert s == [s[0]] + s[1..];
    }
  }

  lemma {:induction false} WithoutAppend(s: seq<int>, out: set<int>, x: int)
    ensures Without(s + [x], out) == Without(s, out) + if x in out then [] else [x]
  {
    if |s| > 0 {
      assert (s + [x])[1..] == s[1..] + [x];
      WithoutAppend(s[1..], out, x);
    }
  }

  lemma {:induction false} RemoveBehind(s: seq<int>, t: seq<int>, x: int)
    requires x !in s
    ensures Remove(s + t, x) == s + Remove(t, x)
  {
    if |s| == 0 {
      assert s + t == t;
    } else {
      assert (s + t)[1..] == s[1..] + t;
      RemoveBehind(s[1..], t, x);
    }
  }

  lemma {:induction false} RemoveOthers(s: seq<int>, x: int, y: int)
    requires x != y
    ensures y in Remove(s, x) <==> y in s
  {
    if |s| > 0 {
      assert s == [s[0]] + s[1..];
      RemoveOthers(s[1..], x, y);
    }
  }

  lemma QueueDistinct(s: Registry)
    requires OrderOk(s)
    ensures Distinct(s.queue) && Distinct(s.waiters) && Distinct(s.entered + s.waiters)
  {
    WithoutMeans(s.submitted, s.skipped);
    var all := s.entered + s.waiters;
    assert Distinct(all);
    forall i, j | 0 <= i < j < |s.waiters| ensures s.waiters[i] != s.waiters[j] {
      assert all[|s.entered| + i] != all[|s.entered| + j];
    }
    WithoutMeans(s.waiters, s.withdrawn);
  }

  // ----- what one step does to the runs it is not about -----

  predicate BySubmit(e: Event) {
    e.SubmitInsert? || e.SubmitLost? || e.SubmitStart?
  }

  predicate ByCancel(e: Event) {
    e.CancelRead? || e.CancelAct? || e.CancelWrite? || e.CancelEnd? || e.CancelRaise?
  }

  predicate ByQueue(e: Event) {
    e.Enter? || e.Interrupt? || e.WriteDropped?
  }

  predicate ByStart(e: Event) {
    e.WriteRunning? || e.StartPlay?
  }

  predicate ByReport(e: Event) {
    e.Report? || e.WriteReport? || e.LoseReport?
  }

  predicate ByFinish(e: Event) {
    e.PlayEnd? || e.RecordEnd? || e.WriteFinish?
  }

  predicate ByFailure(e: Event) {
    e.Raise? || e.WriteFailed?
  }

  predicate ByEnd(e: Event) {
    e.EndDropped? || e.EndFinish? || e.EndFailed? || e.FailLost?
  }

  /** The run an event is about. */
  function Subject(s: Registry, e: Event): int {
    if e.SubmitInsert? then s.nextId
    else if e.CancelAct? || e.CancelWrite? || e.CancelEnd? || e.CancelRaise? then
      if e.call in s.calls then s.calls[e.call].id else 0
    else e.id
  }

  predicate WriteFails(e: Event) {
    e.SubmitLost? || e.FailLost?
  }

  /** Nothing about the run differs. */
  ghost predicate SameRun(s: Registry, t: Registry, id: int) {
    && (id in t.rows <==> id in s.rows) && (id in s.rows && id in t.rows ==> t.rows[id] == s.rows[id])
    && (id in t.jobs <==> id in s.jobs) && (id in s.jobs && id in t.jobs ==> t.jobs[id] == s.jobs[id])
    && (id in t.inserting <==> id in s.inserting)
    && (id in t.queue <==> id in s.queue)
    && (id in t.cancels <==> id in s.cancels)
    && (id in t.tasks <==> id in s.tasks)
    && (id in t.doomed <==> id in s.doomed)
    && (id in t.withdrawn <==> id in s.withdrawn)
    && (id in t.skipped <==> id in s.skipped)
    && (id in t.lost <==> id in s.lost)
    && s.nextId <= t.nextId
  }

  lemma OthersKeptByCancel(s: Registry, e: Event, limit: nat, id: int)
    requires ByCancel(e) && Enabled(s, e, limit) && id != Subject(s, e)
    ensures SameRun(s, Next(s, e, limit), id)
  {
    hide Remove, Holders;
    RemoveOthers(s.queue, Subject(s, e), id);
  }

  lemma OthersKeptByQueue(s: Registry, e: Event, limit: nat, id: int)
    requires ByQueue(e) && Enabled(s, e, limit) && id != Subject(s, e)
    ensures SameRun(s, Next(s, e, limit), id)
  {
    hide Remove, Holders;
    RemoveOthers(s.queue, Subject(s, e), id);
  }

  lemma OthersKeptBySubmit(s: Registry, e: Event, limit: nat, id: int)
    requires (BySubmit(e) || ByStart(e)) && Enabled(s, e, limit) && id != Subject(s, e)
    ensures SameRun(s, Next(s, e, limit), id)
  {
    hide Remove, Holders;
  }

  lemma OthersKeptByReport(s: Registry, e: Event, limit: nat, id: int)
    requires ByReport(e) && Enabled(s, e, limit) && id != Subject(s, e)
    ensures SameRun(s, Next(s, e, limit), id)
  {
    hide Remove, Holders, ProgressRow;
    ProgressOfOthers(s.rows, e.id, e.done, id);
  }

  lemma ProgressOfOthers(rows: map<int, Row>, id: int, done: nat, other: int)
    requires other != id
    ensures other in ProgressRow(rows, id, done) <==> other in rows
    ensures other in rows ==> ProgressRow(rows, id, done)[other] == rows[other]
  {
  }

  lemma OthersKeptByFinish(s: Registry, e: Event, limit: nat, id: int)
    requires ByFinish(e) && Enabled(s, e, limit) && id != Subject(s, e)
    ensures SameRun(s, Next(s, e, limit), id)
  {
    hide Remove, Holders;
  }

  lemma OthersKeptByFailure(s: Registry, e: Event, limit: nat, id: int)
    requires ByFailure(e) && Enabled(s, e, limit) && id != Subject(s, e)
    ensures SameRun(s, Next(s, e, limit), id)
  {
    hide Remove, Holders;
  }

  lemma OthersKeptByEnd(s: Registry, e: Event, limit: nat, id: int)
    requires ByEnd(e) && Enabled(s, e, limit) && id != Subject(s, e)
    ensures SameRun(s, Next(s, e, limit), id)
  {
    hide Remove, Holders;
  }

  lemma OthersKept(s: Registry, e: Event, limit: nat, id: int)
    requires Enabled(s, e, limit) && id != Subject(s, e)
    ensures SameRun(s, Next(s, e, limit), id)
  {
    hide Enabled, Next, SameRun, Subject;
    if BySubmit(e) || ByStart(e) {
      OthersKeptBySubmit(s, e, limit, id);
    } else if ByCancel(e) {
      OthersKeptByCancel(s, e, limit, id);
    } else if ByQueue(e) {
      OthersKeptByQueue(s, e, limit, id);
    } else if ByReport(e) {
      OthersKeptByReport(s, e, limit, id);
    } else if ByFinish(e) {
      OthersKeptByFinish(s, e, limit, id);
    } else if ByFailure(e) {
      OthersKeptByFailure(s, e, limit, id);
    } else {
      OthersKeptByEnd(s, e, limit, id);
    }
  }

  // ----- what one step leaves alone -----

  predicate Reorders(s: Registry, e: Event) {
    e.SubmitStart? || e.CancelAct? || e.Enter?
    || (e.Interrupt? && e.id in s.jobs && s.jobs[e.id] == Waiting)
  }

  /** The lists, and who waits, are as they were. */
  ghost predicate SameLists(s: Registry, t: Registry) {
    && t.submitted == s.submitted && t.entered == s.entered && t.waiters == s.waiters
    && t.queue == s.queue && t.skipped == s.skipped && t.withdrawn == s.withdrawn
    && t.jobs.Keys == s.jobs.Keys
    && forall id | id in s.jobs :: t.jobs[id] == Waiting <==> s.jobs[id] == Waiting
  }

  ghost predicate NoNewHolder(s: Registry, t: Registry) {
    forall id | id in t.jobs && t.jobs[id].HoldsSemaphore() :: id in s.jobs && s.jobs[id].HoldsSemaphore()
  }

  /** Each part of the registry changes by its own kinds of event only: the lists, the cancel
      calls, the scheduled reports, the lost runs, the table's ids and the semaphore. */
  ghost predicate LeavesAlone(s: Registry, e: Event, t: Registry) {
    && (!Reorders(s, e) ==> SameLists(s, t))
    && (!ByCancel(e) ==> t.calls == s.calls)
    && (!e.Report? ==> forall id, done | (id, done) in t.reports :: (id, done) in s.reports)
    && (!WriteFails(e) ==> t.lost == s.lost)
    && (!e.SubmitInsert? ==> forall id | id in t.rows :: id in s.rows)
    && (!e.Enter? ==> NoNewHolder(s, t))
  }

  /** A started job's task moves on: no list changes, and no one enters the semaphore. */
  lemma TaskMoves(s: Registry, t: Registry, id: int)
    requires id in s.jobs && id in t.jobs && t.jobs == s.jobs[id := t.jobs[id]]
    requires s.jobs[id] != Waiting && t.jobs[id] != Waiting
    requires t.jobs[id].HoldsSemaphore() ==> s.jobs[id].HoldsSemaphore()
    requires t.submitted == s.submitted && t.entered == s.entered && t.waiters == s.waiters
    requires t.queue == s.queue && t.skipped == s.skipped && t.withdrawn == s.withdrawn
    ensures SameLists(s, t) && NoNewHolder(s, t)
  {
  }

  lemma LeavesBySubmit(s: Registry, e: Event, limit: nat)
    requires Enabled(s, e, limit) && BySubmit(e)
    ensures LeavesAlone(s, e, Next(s, e, limit))
  {
    hide Remove, Holders;
  }

  lemma LeavesByCancel(s: Registry, e: Event, limit: nat)
    requires Enabled(s, e, limit) && ByCancel(e)
    ensures LeavesAlone(s, e, Next(s, e, limit))
  {
    hide Remove, Holders, FailRow;
    GuardedKeepsIds(s.rows, Subject(s, e));
  }

  lemma LeavesByQueue(s: Registry, e: Event, limit: nat)
    requires Enabled(s, e, limit) && ByQueue(e)
    ensures LeavesAlone(s, e, Next(s, e, limit))
  {
    hide Remove, Holders, FailRow;
    GuardedKeepsIds(s.rows, Subject(s, e));
  }

  lemma LeavesByStart(s: Registry, e: Event, limit: nat)
    requires Enabled(s, e, limit) && ByStart(e)
    ensures LeavesAlone(s, e, Next(s, e, limit))
  {
    hide Holders, SameLists, NoNewHolder;
    TaskMoves(s, Next(s, e, limit), e.id);
  }

  lemma LeavesByReport(s: Registry, e: Event, limit: nat)
    requires Enabled(s, e, limit) && ByReport(e)
    ensures LeavesAlone(s, e, Next(s, e, limit))
  {
    hide Remove, Holders, ProgressRow;
    ProgressKeepsIds(s.rows, e.id, e.done);
  }

  lemma LeavesByFinish(s: Registry, e: Event, limit: nat)
    requires Enabled(s, e, limit) && ByFinish(e)
    ensures LeavesAlone(s, e, Next(s, e, limit))
  {
    hide Holders, SameLists, NoNewHolder;
    TaskMoves(s, Next(s, e, limit), e.id);
  }

  lemma LeavesByFailure(s: Registry, e: Event, limit: nat)
    requires Enabled(s, e, limit) && ByFailure(e)
    ensures LeavesAlone(s, e, Next(s, e, limit))
  {
    hide Holders, SameLists, NoNewHolder, FailRow;
    GuardedKeepsIds(s.rows, Subject(s, e));
    TaskMoves(s, Next(s, e, limit), e.id);
  }

  lemma LeavesByEnd(s: Registry, e: Event, limit: nat)
    requires Enabled(s, e, limit) && ByEnd(e)
    ensures LeavesAlone(s, e, Next(s, e, limit))
  {
    hide Holders, SameLists, NoNewHolder;
    TaskMoves(s, Next(s, e, limit), e.id);
  }

  lemma GuardedKeepsIds(rows: map<int, Row>, id: int)
    ensures FailRow(rows, id, Cancelled).Keys == rows.Keys && FailRow(rows, id, Failed).Keys == rows.Keys
  {
  }

  lemma ProgressKeepsIds(rows: map<int, Row>, id: int, done: nat)
    ensures ProgressRow(rows, id, done).Keys == rows.Keys
  {
  }

  lemma StepLeaves(s: Registry, e: Event, limit: nat)
    requires Enabled(s, e, limit)
    ensures LeavesAlone(s, e, Next(s, e, limit))
  {
    hide Enabled, Next, LeavesAlone;
    if BySubmit(e) {
      LeavesBySubmit(s, e, limit);
    } else if ByCancel(e) {
      LeavesByCancel(s, e, limit);
    } else if ByQueue(e) {
      LeavesByQueue(s, e, limit);
    } else if ByStart(e) {
      LeavesByStart(s, e, limit);
    } else if ByReport(e) {
      LeavesByReport(s, e, limit);
    } else if ByFinish(e) {
      LeavesByFinish(s, e, limit);
    } else if ByFailure(e) {
      LeavesByFailure(s, e, limit);
    } else {
      LeavesByEnd(s, e, limit);
    }
  }

  // ----- what one step does to the run it is about -----

  /** queued -> running -> done | failed | cancelled, or straight to an end from queued. */
  ghost predicate MayBecome(a: Status, b: Status) {
    a == b || (a == Queued && b != Done) || (a == Running && b != Queued)
  }

  ghost predicate RowMoves(r: Row, after: Row) {
    && after.key == r.key
    && r.progress <= after.progress
    && MayBecome(r.status, after.status)
    && (!r.status.Active() ==> after == r)
  }

  /** What any step may do to a run: its row moves forward, its withdrawal stays, and the
      progress writes it scheduled stay bounded. */
  ghost predicate RunMoves(s: Registry, t: Registry, id: int) {
    && (id in s.rows ==> id in t.rows && RowMoves(s.rows[id], t.rows[id]))
    && (id in s.withdrawn ==> id in t.withdrawn)
    && (id in s.jobs ==>
          && id in t.jobs
          && BoundRises(ReportBound(s.jobs[id]), ReportBound(t.jobs[id])))
  }

  ghost predicate BoundRises(before: Option<nat>, after: Option<nat>) {
    after.None? || (before.Some? && before.value <= after.value)
  }

  lemma SubmitKeepsRun(s: Registry, e: Event, limit: nat)
    requires BySubmit(e) && Enabled(s, e, limit) && RunsOk(s)
    ensures RunOk(Next(s, e, limit), Subject(s, e)) && RunMoves(s, Next(s, e, limit), Subject(s, e))
  {
    assert RunOk(s, Subject(s, e));
    hide Holders, RunsOk;
  }

  lemma CancelKeepsRun(s: Registry, e: Event, limit: nat)
    requires ByCancel(e) && Enabled(s, e, limit) && RunsOk(s) && OrderOk(s) && CallsOk(s)
    ensures RunOk(Next(s, e, limit), Subject(s, e)) && RunMoves(s, Next(s, e, limit), Subject(s, e))
  {
    assert RunOk(s, Subject(s, e));
    assert e.CancelRead? || CallOk(s, s.calls[e.call]);
    QueueDistinct(s);
    RemoveMeans(s.queue, Subject(s, e));
    hide Holders, RunsOk, OrderOk, CallsOk, Remove, Distinct;
  }

  lemma EnterKeepsRun(s: Registry, e: Event, limit: nat)
    requires e.Enter? && Enabled(s, e, limit) && RunsOk(s) && OrderOk(s)
    ensures RunOk(Next(s, e, limit), Subject(s, e)) && RunMoves(s, Next(s, e, limit), Subject(s, e))
  {
    assert RunOk(s, e.id);
    QueueDistinct(s);
    RemoveMeans(s.queue, e.id);
    hide Holders, RunsOk, OrderOk, Remove, Distinct;
  }

  lemma DropKeepsRun(s: Registry, e: Event, limit: nat)
    requires (e.Interrupt? || e.WriteDropped?) && Enabled(s, e, limit) && RunsOk(s)
    ensures RunOk(Next(s, e, limit), Subject(s, e)) && RunMoves(s, Next(s, e, limit), Subject(s, e))
  {
    assert RunOk(s, e.id);
    hide Holders, RunsOk, Remove;
  }

  lemma StartKeepsRun(s: Registry, e: Event, limit: nat)
    requires ByStart(e) && Enabled(s, e, limit) && RunsOk(s)
    ensures RunOk(Next(s, e, limit), Subject(s, e)) && RunMoves(s, Next(s, e, limit), Subject(s, e))
  {
    assert RunOk(s, Subject(s, e));
    hide Holders, RunsOk;
  }

  lemma ReportKeepsRun(s: Registry, e: Event, limit: nat)
    requires ByReport(e) && Enabled(s, e, limit) && RunsOk(s) && ReportsOk(s)
    ensures RunOk(Next(s, e, limit), Subject(s, e)) && RunMoves(s, Next(s, e, limit), Subject(s, e))
  {
    assert RunOk(s, Subject(s, e));
    assert e.WriteReport? ==> ReportOk(s, e.id, e.done);
    hide Holders, RunsOk, ReportsOk;
  }

  lemma FinishKeepsRun(s: Registry, e: Event, limit: nat)
    requires ByFinish(e) && Enabled(s, e, limit) && RunsOk(s)
    ensures RunOk(Next(s, e, limit), Subject(s, e)) && RunMoves(s, Next(s, e, limit), Subject(s, e))
  {
    assert RunOk(s, Subject(s, e));
    hide Holders, RunsOk;
  }

  lemma FailureKeepsRun(s: Registry, e: Event, limit: nat)
    requires ByFailure(e) && Enabled(s, e, limit) && RunsOk(s)
    ensures RunOk(Next(s, e, limit), Subject(s, e)) && RunMoves(s, Next(s, e, limit), Subject(s, e))
  {
    assert RunOk(s, Subject(s, e));
    hide Holders, RunsOk;
  }

  lemma EndKeepsRun(s: Registry, e: Event, limit: nat)
    requires ByEnd(e) && Enabled(s, e, limit) && RunsOk(s)
    ensures RunOk(Next(s, e, limit), Subject(s, e)) && RunMoves(s, Next(s, e, limit), Subject(s, e))
  {
    assert RunOk(s, Subject(s, e));
    hide Holders, RunsOk;
  }

  lemma SubjectKept(s: Registry, e: Event, limit: nat)
    requires Inv(s, limit) && Enabled(s, e, limit)
    ensures RunOk(Next(s, e, limit), Subject(s, e)) && RunMoves(s, Next(s, e, limit), Subject(s, e))
  {
    hide Enabled, Next, RunOk, RunMoves, Subject, RunsOk, OrderOk, CallsOk, ReportsOk, KeysOk, Holders;
    if BySubmit(e) {
      SubmitKeepsRun(s, e, limit);
    } else if ByCancel(e) {
      CancelKeepsRun(s, e, limit);
    } else if e.Enter? {
      EnterKeepsRun(s, e, limit);
    } else if ByQueue(e) {
      DropKeepsRun(s, e, limit);
    } else if ByStart(e) {
      StartKeepsRun(s, e, limit);
    } else if ByReport(e) {
      ReportKeepsRun(s, e, limit);
    } else if ByFinish(e) {
      FinishKeepsRun(s, e, limit);
    } else if ByFailure(e) {
      FailureKeepsRun(s, e, limit);
    } else {
      EndKeepsRun(s, e, limit);
    }
  }

  lemma SameRunOk(s: Registry, t: Registry, id: int)
    requires RunOk(s, id) && SameRun(s, t, id)
    ensures RunOk(t, id) && RunMoves(s, t, id)
  {
    hide JobOk, ReportBound;
  }

  /** Every step keeps every run's part of the invariant and moves its row forward. */
  lemma RunKept(s: Registry, e: Event, limit: nat, id: int)
    requires Inv(s, limit) && Enabled(s, e, limit)
    ensures RunOk(Next(s, e, limit), id) && RunMoves(s, Next(s, e, limit), id)
  {
    if id == Subject(s, e) {
      SubjectKept(s, e, limit);
    } else {
      OthersKept(s, e, limit, id);
      assert RunOk(s, id);
      SameRunOk(s, Next(s, e, limit), id);
    }
    hide *;
  }

  // ----- keys, cancel calls and scheduled progress writes -----

  /** Only an INSERT makes a row, under a key that no active row has. */
  lemma NewRows(s: Registry, e: Event, limit: nat, id: int)
    requires Enabled(s, e, limit) && id in Next(s, e, limit).rows && id !in s.rows
    ensures e.SubmitInsert? && id == s.nextId && Next(s, e, limit).rows[id].key == e.key
    ensures forall other | other in s.rows && s.rows[other].status.Active() :: s.rows[other].key != e.key
  {
    hide Next, Enabled, SameLists, Holders;
    StepLeaves(s, e, limit);
    if e.SubmitInsert? {
      InsertMeans(s, e, limit);
    }
  }

  lemma InsertMeans(s: Registry, e: Event, limit: nat)
    requires Enabled(s, e, limit) && e.SubmitInsert?
    ensures Next(s, e, limit).rows == s.rows[s.nextId := Row(e.key, Queued, 0)]
    ensures forall other | other in s.rows && s.rows[other].status.Active() :: s.rows[other].key != e.key
  {
  }

  lemma KeysKept(s: Registry, e: Event, limit: nat)
    requires Inv(s, limit) && Enabled(s, e, limit)
    ensures KeysOk(Next(s, e, limit))
  {
    hide Enabled, Next, RunsOk, OrderOk, CallsOk, ReportsOk, Holders, RunOk;
    var t := Next(s, e, limit);
    forall i, j | i in t.rows && j in t.rows && i != j && t.rows[i].status.Active() && t.rows[j].status.Active()
      ensures t.rows[i].key != t.rows[j].key
    {
      RunKept(s, e, limit, i);
      RunKept(s, e, limit, j);
      if i !in s.rows {
        NewRows(s, e, limit, i);
      }
      if j !in s.rows {
        NewRows(s, e, limit, j);
      }
    }
  }

  /** A call that a step started or moved. */
  lemma NewCallOk(s: Registry, e: Event, limit: nat, call: int)
    requires RunsOk(s) && CallsOk(s) && Enabled(s, e, limit) && ByCancel(e)
    requires call in Next(s, e, limit).calls
    requires call in s.calls ==> Next(s, e, limit).calls[call] != s.calls[call]
    ensures CallOk(Next(s, e, limit), Next(s, e, limit).calls[call])
  {
    assert call in s.calls ==> CallOk(s, s.calls[call]);
    hide Holders, Remove, RunsOk, CallsOk;
  }

  lemma CallsKept(s: Registry, e: Event, limit: nat)
    requires Inv(s, limit) && Enabled(s, e, limit)
    ensures CallsOk(Next(s, e, limit))
  {
    hide Enabled, Next, RunsOk, OrderOk, KeysOk, ReportsOk, Holders, RunOk, ReportBound;
    var t := Next(s, e, limit);
    forall call | call in t.calls ensures CallOk(t, t.calls[call]) {
      if call in s.calls && t.calls[call] == s.calls[call] {
        assert CallOk(s, s.calls[call]);
        RunKept(s, e, limit, s.calls[call].id);
      } else {
        StepLeaves(s, e, limit);
        NewCallOk(s, e, limit, call);
      }
    }
  }

  lemma NewReportOk(s: Registry, e: Event, limit: nat, id: int, done: nat)
    requires Enabled(s, e, limit) && e.Report?
    requires (id, done) in Next(s, e, limit).reports && (id, done) !in s.reports
    ensures ReportOk(Next(s, e, limit), id, done)
  {
  }

  lemma ReportsKept(s: Registry, e: Event, limit: nat)
    requires Inv(s, limit) && Enabled(s, e, limit)
    ensures ReportsOk(Next(s, e, limit))
  {
    hide Enabled, Next, RunsOk, OrderOk, KeysOk, CallsOk, Holders, RunOk, ReportBound, RowMoves;
    var t := Next(s, e, limit);
    forall id, done | (id, done) in t.reports ensures ReportOk(t, id, done) {
      if (id, done) in s.reports {
        assert ReportOk(s, id, done);
        RunKept(s, e, limit, id);
      } else {
        StepLeaves(s, e, limit);
        NewReportOk(s, e, limit, id, done);
      }
    }
  }

  // ----- the order of the lists -----

  lemma OrderKeptBySubmit(s: Registry, id: int)
    requires OrderOk(s) && RunsOk(s) && id in s.inserting
    ensures OrderOk(Start(s, id))
  {
    assert RunOk(s, id);
    var t := Start(s, id);
    assert id !in s.submitted;
    WithoutAppend(s.submitted, s.skipped, id);
    WithoutAppend(s.waiters, s.withdrawn, id);
    assert id !in s.skipped && id !in s.withdrawn;
    assert t.entered + t.waiters == (s.entered + s.waiters) + [id];
  }

  lemma OrderKeptByAct(s: Registry, call: int)
    requires OrderOk(s) && call in s.calls && s.calls[call].pc.HasRead?
    ensures OrderOk(Act(s, call))
  {
    QueueDistinct(s);
    WithoutOneMore(s.waiters, s.withdrawn, s.calls[call].id);
  }

  lemma {:induction false} HeadLeaves(waiters: seq<int>, withdrawn: set<int>, id: int)
    requires |waiters| > 0 && waiters[0] == id && Distinct(waiters)
    ensures forall y :: y in waiters[1..] <==> y in waiters && y != id
    ensures var queue := Without(waiters, withdrawn);
            Without(waiters[1..], withdrawn) == if id in queue then Remove(queue, id) else queue
  {
    var rest := Without(waiters[1..], withdrawn);
    assert waiters == [id] + waiters[1..];
    WithoutMeans(waiters, withdrawn);
    if id !in withdrawn {
      assert Without(waiters, withdrawn) == [id] + rest;
      assert ([id] + rest)[1..] == rest;
    }
  }

  lemma OrderKeptByEnter(s: Registry, id: int)
    requires OrderOk(s)
    requires id in s.jobs && s.jobs[id] == Waiting && |s.waiters| > 0 && s.waiters[0] == id
    ensures OrderOk(EnterSemaphore(s, id))
  {
    hide Without, Remove, Distinct;
    QueueDistinct(s);
    HeadLeaves(s.waiters, s.withdrawn, id);
    assert (s.entered + [id]) + s.waiters[1..] == s.entered + s.waiters;
  }

  lemma {:induction false} OrderKeptByInterrupt(s: Registry, id: int)
    requires OrderOk(s) && RunsOk(s)
    requires id in s.jobs && id in s.doomed && s.jobs[id] == Waiting
    ensures OrderOk(End(s, id).(waiters := Remove(s.waiters, id), skipped := s.skipped + {id}))
  {
    QueueDistinct(s);
    RemoveMeans(s.waiters, id);
    WithoutOneMore(s.submitted, s.skipped, id);
    assert id !in s.entered by {
      var k :| 0 <= k < |s.waiters| && s.waiters[k] == id;
      assert (s.entered + s.waiters)[|s.entered| + k] == id;
      assert forall i | 0 <= i < |s.entered| :: (s.entered + s.waiters)[i] == s.entered[i];
    }
    RemoveBehind(s.entered, s.waiters, id);
    assert RunOk(s, id);
    WithoutRemoved(s.waiters, s.withdrawn, id);
  }

  lemma {:induction false} WithoutRemoved(s: seq<int>, out: set<int>, x: int)
    requires x in out
    ensures Without(Remove(s, x), out) == Without(s, out)
  {
    if |s| > 0 && s[0] != x {
      WithoutRemoved(s[1..], out, x);
      assert ([s[0]] + Remove(s[1..], x))[1..] == Remove(s[1..], x);
    }
  }

  lemma OrderOfLists(s: Registry, t: Registry)
    requires OrderOk(s) && SameLists(s, t)
    ensures OrderOk(t)
  {
    hide Without, Distinct;
  }

  lemma OrderKept(s: Registry, e: Event, limit: nat)
    requires OrderOk(s) && RunsOk(s)
    requires Enabled(s, e, limit)
    ensures OrderOk(Next(s, e, limit))
  {
    hide OrderOk, RunsOk, SameLists, Holders;
    if e.SubmitStart? {
      OrderKeptBySubmit(s, e.id);
    } else if e.CancelAct? {
      OrderKeptByAct(s, e.call);
    } else if e.Enter? {
      OrderKeptByEnter(s, e.id);
    } else if e.Interrupt? && s.jobs[e.id] == Waiting {
      OrderKeptByInterrupt(s, e.id);
    } else {
      StepLeaves(s, e, limit);
      OrderOfLists(s, Next(s, e, limit));
    }
  }

  // ----- the semaphore -----

  lemma HoldersKept(s: Registry, e: Event, limit: nat)
    requires |Holders(s)| <= limit && Enabled(s, e, limit)
    ensures |Holders(Next(s, e, limit))| <= limit
  {
    hide Next, Enabled, SameLists;
    var t := Next(s, e, limit);
    if e.Enter? {
      EnterAddsOne(s, e, limit);
      SubsetSize(Holders(t), Holders(s) + {e.id});
    } else {
      StepLeaves(s, e, limit);
      forall id | id in Holders(t) ensures id in Holders(s) {
        assert t.jobs[id].HoldsSemaphore();
      }
      SubsetSize(Holders(t), Holders(s));
    }
  }

  lemma EnterAddsOne(s: Registry, e: Event, limit: nat)
    requires Enabled(s, e, limit) && e.Enter?
    ensures Holders(Next(s, e, limit)) <= Holders(s) + {e.id} && |Holders(s)| < limit
  {
    hide Remove;
  }

  // ----- the whole invariant -----

  lemma InvKept(s: Registry, e: Event, limit: nat)
    requires Inv(s, limit) && Enabled(s, e, limit)
    ensures Inv(Next(s, e, limit), limit)
  {
    hide Next, Enabled, RunOk, RunMoves, KeysOk, CallsOk, ReportsOk, OrderOk, Holders;
    var t := Next(s, e, limit);
    forall id ensures RunOk(t, id) {
      RunKept(s, e, limit, id);
    }
    KeysKept(s, e, limit);
    CallsKept(s, e, limit);
    ReportsKept(s, e, limit);
    OrderKept(s, e, limit);
    HoldersKept(s, e, limit);
  }
}
