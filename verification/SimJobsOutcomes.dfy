/** How a run ends, over every run of every interleaving: which status and count its row
    gets, and which event is behind it. */
module SimJobsOutcomes {
  import opened SimJobs
  import opened SimJobsSafety
  import opened SimJobsRuns

  // ----- what one step does to a run, and by which event -----

  /** The step of `cancel` on the run between its read and its UPDATE. */
  ghost predicate ActsOn(s: Registry, e: Event, id: int) {
    e.CancelAct? && e.call in s.calls && s.calls[e.call].id == id
  }

  /** How far a task has come. */
  function Stage(pc: Pc): nat {
    match pc
    case Waiting => 0
    case Dropping(_) => 1
    case Starting(_) => 1
    case Playing(_) => 2
    case Recording(_) => 3
    case Finishing(_, _, _) => 4
    case Failing(_) => 5
    case Ended => 6
  }

  /** A task goes forward only; it comes to its three last stops by these events alone. */
  ghost predicate TaskFrom(s: Registry, e: Event, t: Registry, id: int) {
    && (id in s.jobs ==> id in t.jobs && Stage(s.jobs[id]) <= Stage(t.jobs[id]))
    && (id in s.jobs && id in t.jobs && s.jobs[id] == Waiting && t.jobs[id] != Waiting ==>
          (e == Enter(id) && Resumes(s, id)) || (e == Interrupt(id) && t.jobs[id] == Ended))
    && (id in t.jobs && (id !in s.jobs || t.jobs[id] != s.jobs[id]) ==>
          match t.jobs[id]
          case Recording(n) =>
            id in s.jobs && s.jobs[id].Playing?
            && e.PlayEnd? && e.id == id && e.nDone == n && !e.cancelled
          case Finishing(status, n, written) =>
            id in s.jobs
            && ((s.jobs[id].Playing? && !written && e.PlayEnd? && e.id == id && e.nDone == n
                 && status == (if e.cancelled then Cancelled else Done) && (e.cancelled ==> id in s.cancels))
                || (s.jobs[id] == Recording(n) && !written && e == RecordEnd(id) && status == Done)
                || (s.jobs[id] == Finishing(status, n, false) && written && e == WriteFinish(id)))
          case Failing(written) =>
            id in s.jobs && if written then s.jobs[id] == Failing(false) && e == WriteFailed(id) else e == Raise(id)
          case _ => true)
  }

  /** A row changes its status by one of these writes, and its progress by two of them. */
  ghost predicate RowFrom(s: Registry, e: Event, t: Registry, id: int) {
    id in t.rows ==>
      && (id !in s.rows ==> e.SubmitInsert? && t.rows[id] == Row(e.key, Queued, 0))
      && (id in s.rows && t.rows[id].status != s.rows[id].status ==>
            || (e == WriteRunning(id) && t.rows[id].status == Running)
            || (e == WriteFinish(id) && id in s.jobs && s.jobs[id].Finishing? && t.rows[id].status == s.jobs[id].status)
            || (e == WriteFailed(id) && id in s.jobs && s.jobs[id].Failing? && t.rows[id].status == Failed)
            || (e == WriteDropped(id) && id in s.jobs && s.jobs[id].Dropping? && t.rows[id].status == Cancelled)
            || (e.CancelWrite? && e.call in s.calls && s.calls[e.call].id == id && s.calls[e.call].pc.Withdrawing?
                && t.rows[id].status == Cancelled))
      && (id in s.rows ==>
            t.rows[id].progress ==
            if e == WriteFinish(id) && id in s.jobs && s.jobs[id].Finishing? then s.jobs[id].nDone
            else if e.WriteReport? && e.id == id && s.rows[id].status == Running && s.rows[id].progress < e.done
            then e.done
            else s.rows[id].progress)
  }

  /** A flag, a withdrawal and an entry come by one event each; a cancelled task stays
      cancelled until it ends. */
  ghost predicate MarksFrom(s: Registry, e: Event, t: Registry, id: int) {
    && (id in t.cancels && id !in s.cancels ==> ActsOn(s, e, id))
    && (id in t.withdrawn && id !in s.withdrawn ==> ActsOn(s, e, id))
    && (id in t.entered && id !in s.entered ==> e == Enter(id) && Resumes(s, id))
    && (id in s.doomed ==> id in t.doomed || (id in t.jobs && t.jobs[id] == Ended))
  }

  ghost predicate From(s: Registry, e: Event, t: Registry, id: int) {
    TaskFrom(s, e, t, id) && RowFrom(s, e, t, id) && MarksFrom(s, e, t, id)
  }

  lemma FromBySubmit(s: Registry, e: Event, limit: nat, id: int)
    requires Enabled(s, e, limit) && BySubmit(e)
    requires (id in s.rows ==> id < s.nextId) && (id in s.inserting ==> id !in s.jobs)
    ensures From(s, e, Next(s, e, limit), id)
  {
    hide Remove, Holders;
  }

  lemma FromByCancel(s: Registry, e: Event, limit: nat, id: int)
    requires Enabled(s, e, limit) && ByCancel(e)
    requires id in s.rows ==> id < s.nextId
    ensures From(s, e, Next(s, e, limit), id)
  {
    hide Remove, Holders;
  }

  lemma TaskFromByQueue(s: Registry, e: Event, limit: nat, id: int)
    requires Enabled(s, e, limit) && ByQueue(e)
    ensures TaskFrom(s, e, Next(s, e, limit), id)
  {
    hide Remove, Holders, FailRow;
  }

  lemma FromByQueue(s: Registry, e: Event, limit: nat, id: int)
    requires Enabled(s, e, limit) && ByQueue(e)
    ensures From(s, e, Next(s, e, limit), id)
  {
    hide Remove, Holders, TaskFrom;
    TaskFromByQueue(s, e, limit, id);
  }

  lemma FromByStart(s: Registry, e: Event, limit: nat, id: int)
    requires Enabled(s, e, limit) && ByStart(e)
    requires id in s.rows ==> id < s.nextId
    ensures From(s, e, Next(s, e, limit), id)
  {
    hide Remove, Holders;
  }

  lemma FromByReport(s: Registry, e: Event, limit: nat, id: int)
    requires Enabled(s, e, limit) && ByReport(e)
    requires id in s.rows ==> id < s.nextId
    ensures From(s, e, Next(s, e, limit), id)
  {
    hide Remove, Holders;
  }

  lemma TaskFromByFinish(s: Registry, e: Event, limit: nat, id: int)
    requires Enabled(s, e, limit) && ByFinish(e)
    ensures TaskFrom(s, e, Next(s, e, limit), id)
  {
    hide Remove, Holders, FailRow;
  }

  lemma FromByFinish(s: Registry, e: Event, limit: nat, id: int)
    requires Enabled(s, e, limit) && ByFinish(e)
    ensures From(s, e, Next(s, e, limit), id)
  {
    hide Remove, Holders, TaskFrom;
    TaskFromByFinish(s, e, limit, id);
  }

  lemma TaskFromByFailure(s: Registry, e: Event, limit: nat, id: int)
    requires Enabled(s, e, limit) && ByFailure(e)
    ensures TaskFrom(s, e, Next(s, e, limit), id)
  {
    hide Remove, Holders, FailRow;
  }

  lemma FromByFailure(s: Registry, e: Event, limit: nat, id: int)
    requires Enabled(s, e, limit) && ByFailure(e)
    ensures From(s, e, Next(s, e, limit), id)
  {
    hide Remove, Holders, TaskFrom;
    TaskFromByFailure(s, e, limit, id);
  }

  /** A task that ends leaves the registry's table and lists alone. */
  lemma EndMeans(s: Registry, e: Event, limit: nat)
    requires Enabled(s, e, limit) && ByEnd(e)
    ensures var t := Next(s, e, limit);
            && e.id in s.jobs && s.jobs[e.id] != Waiting && t.jobs == s.jobs[e.id := Ended] && t.rows == s.rows
            && t.tasks == s.tasks - {e.id} && t.cancels == s.cancels - {e.id} && t.doomed == s.doomed - {e.id}
            && t.withdrawn == s.withdrawn && t.entered == s.entered
  {
    hide Holders;
  }

  lemma FromByEnd(s: Registry, e: Event, limit: nat, id: int)
    requires Enabled(s, e, limit) && ByEnd(e)
    ensures From(s, e, Next(s, e, limit), id)
  {
    hide Enabled, Next;
    EndMeans(s, e, limit);
  }

  /** One step, whatever it is. */
  lemma StepFrom(s: Registry, e: Event, limit: nat, id: int)
    requires Enabled(s, e, limit) && RunOk(s, id)
    ensures From(s, e, Next(s, e, limit), id)
  {
    hide Enabled, Next, From, JobOk;
    if BySubmit(e) {
      FromBySubmit(s, e, limit, id);
    } else if ByCancel(e) {
      FromByCancel(s, e, limit, id);
    } else if ByQueue(e) {
      FromByQueue(s, e, limit, id);
    } else if ByStart(e) {
      FromByStart(s, e, limit, id);
    } else if ByReport(e) {
      FromByReport(s, e, limit, id);
    } else if ByFinish(e) {
      FromByFinish(s, e, limit, id);
    } else if ByFailure(e) {
      FromByFailure(s, e, limit, id);
    } else {
      FromByEnd(s, e, limit, id);
    }
  }

  // ----- the events behind a run's state -----

  ghost predicate Acted(states: seq<Registry>, events: seq<Event>, i: nat, id: int)
    requires i <= |events| && |states| == |events| + 1
  {
    exists k :: 0 <= k < i && ActsOn(states[k], events[k], id)
  }

  ghost predicate Raised(events: seq<Event>, i: nat, id: int)
    requires i <= |events|
  {
    exists k :: 0 <= k < i && events[k] == Raise(id)
  }

  /** The job's play ended with the count `n`, cancelled or not. */
  ghost predicate PlayEnded(events: seq<Event>, i: nat, id: int, n: nat, cancelled: bool)
    requires i <= |events|
  {
    exists k :: 0 <= k < i && events[k].PlayEnd? && events[k].id == id && events[k].nDone == n
                && events[k].cancelled == cancelled
  }

  /** Every flag, last stop and end status of the run has its event. */
  ghost predicate Explained(states: seq<Registry>, events: seq<Event>, i: nat, id: int)
    requires i <= |events| && |states| == |events| + 1
  {
    var s := states[i];
    && (id in s.cancels || id in s.withdrawn ==> Acted(states, events, i, id))
    && (id in s.jobs ==>
          match s.jobs[id]
          case Recording(n) => PlayEnded(events, i, id, n, false)
          case Finishing(status, n, _) =>
            || (status == Done && PlayEnded(events, i, id, n, false))
            || (status == Cancelled && PlayEnded(events, i, id, n, true) && Acted(states, events, i, id))
          case Failing(_) => Raised(events, i, id)
          case _ => true)
    && (id in s.rows ==>
          match s.rows[id].status
          case Done => PlayEnded(events, i, id, s.rows[id].progress, false)
          case Cancelled => Acted(states, events, i, id)
          case Failed => Raised(events, i, id)
          case _ => true)
  }

  lemma BehindGrows(states: seq<Registry>, events: seq<Event>, i: nat, id: int)
    requires i < |events| && |states| == |events| + 1
    ensures Acted(states, events, i, id) || ActsOn(states[i], events[i], id) ==> Acted(states, events, i + 1, id)
    ensures Raised(events, i, id) || events[i] == Raise(id) ==> Raised(events, i + 1, id)
    ensures forall n, c | PlayEnded(events, i, id, n, c) :: PlayEnded(events, i + 1, id, n, c)
    ensures events[i].PlayEnd? && events[i].id == id ==>
              PlayEnded(events, i + 1, id, events[i].nDone, events[i].cancelled)
  {
  }

  /** A finished row stays as it is, and a job that is being dropped was flagged. */
  lemma ExplainedByStep(states: seq<Registry>, events: seq<Event>, limit: nat, i: nat, id: int)
    requires IsRun(states, events, limit) && i < |events| && Explained(states, events, i, id)
    ensures Explained(states, events, i + 1, id)
  {
    hide Acted, Raised, PlayEnded, ActsOn, Enabled, Next, Inv, IsRun, Stage;
    StepAt(states, events, limit, i, id);
    BehindGrows(states, events, i, id);
  }

  /** What the run's definition and its invariant give of one step. */
  lemma StepAt(states: seq<Registry>, events: seq<Event>, limit: nat, i: nat, id: int)
    requires IsRun(states, events, limit) && i < |events|
    ensures |states| == |events| + 1 && From(states[i], events[i], states[i + 1], id)
    ensures id in states[i].rows ==> id in states[i + 1].rows && RowMoves(states[i].rows[id], states[i + 1].rows[id])
    ensures id in states[i].jobs && states[i].jobs[id].Dropping? ==> id in states[i].cancels
    ensures events[i].CancelWrite? && events[i].call in states[i].calls && states[i].calls[events[i].call].id == id ==>
              id in states[i].withdrawn
  {
    hide From, Next, Enabled, RowMoves;
    InvAt(states, events, limit, i);
    assert RunOk(states[i], id);
    StepFrom(states[i], events[i], limit, id);
    RunKept(states[i], events[i], limit, id);
    CancelWriteIsWithdrawn(states[i], events[i], limit);
    hide RunsOk, KeysOk, OrderOk, ReportsOk, Holders;
  }

  lemma CancelWriteIsWithdrawn(s: Registry, e: Event, limit: nat)
    requires Enabled(s, e, limit) && CallsOk(s)
    ensures e.CancelWrite? ==> e.call in s.calls && s.calls[e.call].id in s.withdrawn
  {
    if e.CancelWrite? {
      assert CallOk(s, s.calls[e.call]);
    }
    hide Holders;
  }

  lemma {:induction false} AllExplained(states: seq<Registry>, events: seq<Event>, limit: nat, i: nat, id: int)
    requires IsRun(states, events, limit) && i <= |events|
    ensures Explained(states, events, i, id)
  {
    hide Explained, Enabled, Next;
    if i == 0 {
      NothingAtBoot(states, events, id);
    } else {
      AllExplained(states, events, limit, i - 1, id);
      ExplainedByStep(states, events, limit, i - 1, id);
    }
  }

  lemma NothingAtBoot(states: seq<Registry>, events: seq<Event>, id: int)
    requires |states| == |events| + 1 && states[0] == EMPTY
    ensures Explained(states, events, 0, id)
  {
  }

  /** A row is done only after its play ended uncancelled, with that play's count; cancelled
      only after a cancel acted on it; failed only after its job raised. */
  lemma EndsForAReason(states: seq<Registry>, events: seq<Event>, limit: nat, i: nat, id: int)
    requires IsRun(states, events, limit) && i <= |events| && id in states[i].rows
    ensures states[i].rows[id].status == Done ==>
              exists k :: 0 <= k < i && events[k].PlayEnd? && events[k].id == id && !events[k].cancelled
                          && events[k].nDone == states[i].rows[id].progress
    ensures states[i].rows[id].status == Cancelled ==>
              exists k :: 0 <= k < i && events[k].CancelAct? && events[k].call in states[k].calls
                          && states[k].calls[events[k].call].id == id
    ensures states[i].rows[id].status == Failed ==> exists k :: 0 <= k < i && events[k] == Raise(id)
  {
    hide Enabled, Next;
    AllExplained(states, events, limit, i, id);
    if states[i].rows[id].status == Cancelled {
      var k :| 0 <= k < i && ActsOn(states[k], events[k], id);
    }
  }

  // ----- the end of a play decides the row -----

  /** The task's way is decided: the count `n`, and whether it was cancelled. */
  ghost predicate Decided(s: Registry, id: int, n: nat, cancelled: bool) {
    id in s.jobs
    && match s.jobs[id]
       case Recording(m) => m == n && !cancelled
       case Finishing(status, m, _) => m == n && status == if cancelled then Cancelled else Done
       case Failing(_) => true
       case Ended => true
       case _ => false
  }

  lemma {:induction false} DecidedFrom(states: seq<Registry>, events: seq<Event>, limit: nat, i: nat, j: nat, id: int)
    requires IsRun(states, events, limit) && i < j <= |events|
    requires events[i].PlayEnd? && events[i].id == id
    ensures Decided(states[j], id, events[i].nDone, events[i].cancelled)
    decreases j
  {
    hide Enabled, Next, RowFrom, MarksFrom;
    StepAt(states, events, limit, j - 1, id);
    if j == i + 1 {
      PlayEndMeans(states[i], events[i], limit);
    } else {
      DecidedFrom(states, events, limit, i, j - 1, id);
    }
  }

  lemma PlayEndMeans(s: Registry, e: Event, limit: nat)
    requires Enabled(s, e, limit) && e.PlayEnd?
    ensures Decided(Next(s, e, limit), e.id, e.nDone, e.cancelled)
  {
    hide Holders;
  }

  lemma FinishWrites(s: Registry, id: int, limit: nat)
    requires Inv(s, limit) && Enabled(s, WriteFinish(id), limit)
    ensures id in s.jobs && s.jobs[id].Finishing? && id in Next(s, WriteFinish(id), limit).rows
    ensures Next(s, WriteFinish(id), limit).rows[id]
         == s.rows[id].(status := s.jobs[id].status, progress := s.jobs[id].nDone)
  {
    assert RunOk(s, id);
    hide RunsOk, KeysOk, CallsOk, OrderOk, ReportsOk, Holders, JobOk;
  }

  /** When the play of a job has ended and its result is written, in whatever interleaving: the
      row holds the play's count, and is cancelled if the play was and done if it was not. */
  lemma ResultIsWritten(states: seq<Registry>, events: seq<Event>, limit: nat, i: nat, j: nat, id: int)
    requires IsRun(states, events, limit) && i < j < |events|
    requires events[i].PlayEnd? && events[i].id == id && events[j] == WriteFinish(id)
    ensures id in states[j + 1].rows
    ensures states[j + 1].rows[id].progress == events[i].nDone
    ensures states[j + 1].rows[id].status == if events[i].cancelled then Cancelled else Done
  {
    hide Enabled, Next, Inv;
    DecidedFrom(states, events, limit, i, j, id);
    InvAt(states, events, limit, j);
    FinishWrites(states[j], id, limit);
  }

  // ----- the progress bar -----

  /** The greatest progress written for the run by the first `i` events, 0 if none. */
  function Written(events: seq<Event>, i: nat, id: int): nat
    requires i <= |events|
  {
    if i == 0 then 0
    else
      var before, e := Written(events, i - 1, id), events[i - 1];
      if e.WriteReport? && e.id == id && e.done > before then e.done else before
  }

  /** A running row shows the greatest progress written; a queued one has none, nor one to come. */
  ghost predicate Shows(s: Registry, events: seq<Event>, i: nat, id: int)
    requires i <= |events|
  {
    && (id !in s.rows || s.rows[id].status == Queued ==>
          Written(events, i, id) == 0 && forall done :: (id, done) !in s.reports)
    && (id in s.rows && s.rows[id].status == Queued ==> s.rows[id].progress == 0)
    && (id in s.rows && s.rows[id].status == Running ==> s.rows[id].progress == Written(events, i, id))
  }

  lemma ReportsByPlaying(s: Registry, e: Event, limit: nat, id: int, done: nat)
    requires Inv(s, limit) && Enabled(s, e, limit)
    requires (id, done) in Next(s, e, limit).reports && (id, done) !in s.reports
    ensures id in s.rows && s.rows[id].status == Running
  {
    assert RunOk(s, id);
    hide Next, Holders, KeysOk, CallsOk, OrderOk, SameLists, RunsOk;
    StepLeaves(s, e, limit);
    ReportIsOf(s, e, limit, id, done);
  }

  lemma ReportIsOf(s: Registry, e: Event, limit: nat, id: int, done: nat)
    requires Enabled(s, e, limit) && e.Report?
    requires (id, done) in Next(s, e, limit).reports && (id, done) !in s.reports
    ensures e.id == id && e.done == done
  {
  }

  lemma ShowsStep(states: seq<Registry>, events: seq<Event>, limit: nat, i: nat, id: int)
    requires IsRun(states, events, limit) && i < |events| && Shows(states[i], events, i, id)
    ensures Shows(states[i + 1], events, i + 1, id)
  {
    hide Next, Inv, Written, TaskFrom, MarksFrom;
    var s, e, t := states[i], events[i], states[i + 1];
    InvAt(states, events, limit, i);
    StepAt(states, events, limit, i, id);
    if e == WriteFinish(id) {
      FinishEnds(s, id, limit);
    }
    WrittenGrows(events, i, id);
    forall done | (id, done) in t.reports
      ensures (id, done) in s.reports || (id in s.rows && s.rows[id].status == Running)
    {
      if (id, done) !in s.reports {
        ReportsByPlaying(s, e, limit, id, done);
      }
    }
  }

  lemma FinishEnds(s: Registry, id: int, limit: nat)
    requires Inv(s, limit) && Enabled(s, WriteFinish(id), limit)
    ensures id in Next(s, WriteFinish(id), limit).rows && !Next(s, WriteFinish(id), limit).rows[id].status.Active()
  {
    hide Next, Enabled, Holders;
    assert RunOk(s, id);
    FinishWrites(s, id, limit);
  }

  lemma WrittenGrows(events: seq<Event>, i: nat, id: int)
    requires i < |events|
    ensures Written(events, i + 1, id) ==
            if events[i].WriteReport? && events[i].id == id && events[i].done > Written(events, i, id)
            then events[i].done else Written(events, i, id)
  {
  }

  /** While a run is running, its progress is the greatest one reported and written so far. */
  lemma {:induction false} ProgressIsWritten(states: seq<Registry>, events: seq<Event>, limit: nat, i: nat, id: int)
    requires IsRun(states, events, limit) && i <= |events|
    ensures Shows(states[i], events, i, id)
  {
    hide Enabled, Next, Shows;
    if i == 0 {
      NothingShown(events, id);
    } else {
      ProgressIsWritten(states, events, limit, i - 1, id);
      ShowsStep(states, events, limit, i - 1, id);
    }
  }

  lemma NothingShown(events: seq<Event>, id: int)
    ensures Shows(EMPTY, events, 0, id)
  {
  }

  // ----- a cancelled wait -----

  /** The run is out for good: its task is over, or waits with a cancel upon it. */
  ghost predicate OutForGood(s: Registry, id: int) {
    && id !in s.entered
    && id in s.jobs && (s.jobs[id] == Ended || (s.jobs[id] == Waiting && id in s.doomed))
  }

  lemma CancelEndDooms(s: Registry, e: Event, limit: nat)
    requires Inv(s, limit) && Enabled(s, e, limit) && e.CancelEnd?
    requires s.calls[e.call].id in s.tasks && s.calls[e.call].id in s.jobs && s.jobs[s.calls[e.call].id] == Waiting
    ensures OutForGood(Next(s, e, limit), s.calls[e.call].id)
  {
    var id := s.calls[e.call].id;
    QueueDistinct(s);
    assert id in s.waiters;
    NotEntered(s.entered, s.waiters, id);
    hide RunsOk, KeysOk, CallsOk, OrderOk, ReportsOk, Holders;
  }

  lemma NotEntered(a: seq<int>, b: seq<int>, x: int)
    requires Distinct(a + b) && x in b
    ensures x !in a
  {
    var k :| 0 <= k < |b| && b[k] == x;
    assert (a + b)[|a| + k] == x;
    forall i | 0 <= i < |a| ensures a[i] != x {
      assert (a + b)[i] == a[i];
    }
  }

  lemma OutStaysOut(s: Registry, e: Event, limit: nat, id: int)
    requires Inv(s, limit) && Enabled(s, e, limit) && OutForGood(s, id)
    ensures OutForGood(Next(s, e, limit), id)
  {
    assert RunOk(s, id);
    StepFrom(s, e, limit, id);
    hide RunsOk, KeysOk, CallsOk, OrderOk, ReportsOk, Holders, Next, RowFrom, Enabled, RunOk;
  }

  /** Once a cancel has reached the task of a run that waits, the run never enters the
      semaphore, whatever comes after. */
  lemma {:induction false} CancelledNeverEnters(states: seq<Registry>, events: seq<Event>, limit: nat, i: nat, j: nat)
    requires IsRun(states, events, limit) && i < j <= |events| && events[i].CancelEnd?
    requires events[i].call in states[i].calls
    requires var id := states[i].calls[events[i].call].id;
             id in states[i].tasks && id in states[i].jobs && states[i].jobs[id] == Waiting
    ensures states[i].calls[events[i].call].id !in states[j].entered
    ensures OutForGood(states[j], states[i].calls[events[i].call].id)
    decreases j
  {
    hide Next, Inv, Enabled, OutForGood;
    InvAt(states, events, limit, j - 1);
    if j == i + 1 {
      CancelEndDooms(states[i], events[i], limit);
    } else {
      CancelledNeverEnters(states, events, limit, i, j - 1);
      OutStaysOut(states[j - 1], events[j - 1], limit, states[i].calls[events[i].call].id);
    }
    OutIsNotIn(states[j], states[i].calls[events[i].call].id);
  }

  lemma OutIsNotIn(s: Registry, id: int)
    requires OutForGood(s, id)
    ensures id !in s.entered
  {
  }
}
