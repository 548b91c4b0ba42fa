/** What can still happen from any reachable state: a free place is taken, any active run can
    be cancelled, a run may fail anywhere, and everything can end. */
module SimJobsProgress {
  import opened Helpers
  import opened SimJobs
  import opened SimJobsSafety
  import opened SimJobsRuns

  // ----- the next steps of one run -----

  /** With a place free, the run that has waited longest enters, or a cancel has reached it and
      it leaves. */
  lemma HeadCanEnter(s: Registry, limit: nat)
    requires Inv(s, limit) && |s.waiters| > 0 && |Holders(s)| < limit
    ensures Enabled(s, if s.waiters[0] in s.doomed then Interrupt(s.waiters[0]) else Enter(s.waiters[0]), limit)
  {
    assert s.waiters[0] in s.waiters;
    hide RunsOk, KeysOk, CallsOk, ReportsOk, Holders, Without, Distinct;
  }

  /** Any active run can be cancelled at any moment, started or not: two steps of a new call
      flag it. */
  lemma CancelReaches(s: Registry, limit: nat, id: int, call: int)
    requires id in s.rows && s.rows[id].status.Active() && call !in s.calls
    ensures Enabled(s, CancelRead(call, id), limit)
    ensures Enabled(Next(s, CancelRead(call, id), limit), CancelAct(call), limit)
    ensures id in Next(Next(s, CancelRead(call, id), limit), CancelAct(call), limit).cancels
  {
    hide Holders, Remove;
  }

  /** A run that holds the semaphore may fail there, unless a cancel has reached its task. The
      failed write ends an active row; a lost write leaves the row as it is, with no task. */
  lemma MayFail(s: Registry, limit: nat, id: int)
    requires Inv(s, limit) && id in s.jobs && s.jobs[id].HoldsSemaphore() && id !in s.doomed
    ensures Enabled(s, Raise(id), limit)
    ensures var t := Next(s, Raise(id), limit);
      && id in s.rows
      && Enabled(t, WriteFailed(id), limit) && Enabled(Next(t, WriteFailed(id), limit), EndFailed(id), limit)
      && (var u := Next(Next(t, WriteFailed(id), limit), EndFailed(id), limit);
          id in u.rows && id in u.jobs && u.jobs[id] == Ended && id !in u.tasks
          && u.rows[id].status == if s.rows[id].status.Active() then Failed else s.rows[id].status)
      && Enabled(t, FailLost(id), limit)
      && (var u := Next(t, FailLost(id), limit);
          id in u.jobs && u.jobs[id] == Ended && id !in u.tasks && id in u.rows && u.rows[id] == s.rows[id])
  {
    hide Next, Inv, Enabled;
    HasRow(s, limit, id);
    RaiseMeans(s, limit, id);
    FailureIsWritten(Next(s, Raise(id), limit), limit, id);
    FailureIsLost(Next(s, Raise(id), limit), limit, id);
  }

  lemma HasRow(s: Registry, limit: nat, id: int)
    requires Inv(s, limit) && id in s.jobs
    ensures id in s.rows
  {
    assert RunOk(s, id);
    hide RunsOk, KeysOk, CallsOk, OrderOk, ReportsOk, Holders, JobOk;
  }

  lemma RaiseMeans(s: Registry, limit: nat, id: int)
    requires id in s.jobs && s.jobs[id].HoldsSemaphore() && id !in s.doomed
    ensures Enabled(s, Raise(id), limit)
    ensures Next(s, Raise(id), limit) == s.(jobs := s.jobs[id := Failing(false)])
  {
    hide Holders;
  }

  lemma FailureIsWritten(t: Registry, limit: nat, id: int)
    requires id in t.jobs && t.jobs[id] == Failing(false) && id !in t.doomed && id in t.rows
    ensures Enabled(t, WriteFailed(id), limit) && Enabled(Next(t, WriteFailed(id), limit), EndFailed(id), limit)
    ensures var u := Next(Next(t, WriteFailed(id), limit), EndFailed(id), limit);
      && id in u.rows && id in u.jobs && u.jobs[id] == Ended && id !in u.tasks
      && u.rows[id].status == if t.rows[id].status.Active() then Failed else t.rows[id].status
  {
    hide Holders;
  }

  lemma FailureIsLost(t: Registry, limit: nat, id: int)
    requires id in t.jobs && t.jobs[id] == Failing(false) && id !in t.doomed && id in t.rows
    ensures Enabled(t, FailLost(id), limit)
    ensures var u := Next(t, FailLost(id), limit);
      && id in u.jobs && u.jobs[id] == Ended && id !in u.tasks && id in u.rows && u.rows[id] == t.rows[id]
  {
    hide Holders;
  }

  /** A playing run may report any count. The write it schedules may be lost, like the answer of
      an INSERT and of a cancel's UPDATE: the table stays as the database left it. */
  lemma MayLose(s: Registry, limit: nat, id: int, done: nat, call: int)
    ensures id in s.jobs && s.jobs[id].Playing? ==>
              Enabled(s, Report(id, done), limit) && (id, done) in Next(s, Report(id, done), limit).reports
    ensures (id, done) in s.reports ==>
              Enabled(s, LoseReport(id, done), limit) && Next(s, LoseReport(id, done), limit).rows == s.rows
    ensures id in s.inserting ==>
              Enabled(s, SubmitLost(id), limit) && Next(s, SubmitLost(id), limit).rows == s.rows
    ensures call in s.calls && s.calls[call].pc.Withdrawing? ==>
              Enabled(s, CancelRaise(call), limit) && Next(s, CancelRaise(call), limit).rows == s.rows
              && Next(s, CancelRaise(call), limit).jobs == s.jobs
  {
    hide Holders;
  }

  // ----- everything can end -----

  /** Nothing new is asked of the registry, and no write fails. */
  predicate Quiet(e: Event) {
    !e.SubmitInsert? && !e.CancelRead? && !e.Report? && !e.Raise? && !WriteFails(e)
  }

  ghost predicate Idle(s: Registry) {
    && (forall id :: id !in s.inserting) && (forall call :: call !in s.calls)
    && (forall id, done :: (id, done) !in s.reports)
    && forall id | id in s.jobs :: s.jobs[id] == Ended
  }

  /** How far a task has come, write by write. */
  function Rank(pc: Pc): nat {
    match pc
    case Waiting => 0
    case Dropping(written) => if written then 2 else 1
    case Starting(written) => if written then 2 else 1
    case Playing(_) => 3
    case Recording(_) => 4
    case Finishing(_, _, written) => if written then 6 else 5
    case Failing(written) => if written then 6 else 5
    case Ended => 7
  }

  function CallRank(pc: CancelPc): nat {
    match pc
    case HasRead(_) => 0
    case Withdrawing(written) => if written then 2 else 1
  }

  /** The steps still before the tasks, and before the cancel calls. */
  ghost function JobSteps(jobs: map<int, Pc>): set<(int, int)> {
    set id, k | id in jobs && 0 <= k < 7 && Rank(jobs[id]) <= k :: (id, k)
  }

  ghost function CallSteps(calls: map<int, CancelCall>): set<(int, int)> {
    set call, k | call in calls && 0 <= k < 3 && CallRank(calls[call].pc) <= k :: (call, k)
  }

  /** The task's own next step. */
  function OwnStep(s: Registry, id: int): Event
    requires id in s.jobs && s.jobs[id] != Waiting && s.jobs[id] != Ended
  {
    if id in s.doomed then Interrupt(id)
    else
      match s.jobs[id]
      case Dropping(written) => if written then EndDropped(id) else WriteDropped(id)
      case Starting(written) => if written then StartPlay(id) else WriteRunning(id)
      case Playing(m) => PlayEnd(id, m, false, true)
      case Recording(_) => RecordEnd(id)
      case Finishing(_, _, written) => if written then EndFinish(id) else WriteFinish(id)
      case Failing(written) => if written then EndFailed(id) else WriteFailed(id)
  }

  ghost predicate JobMoves(s: Registry, t: Registry, id: int) {
    && id in s.jobs && id in t.jobs && Rank(s.jobs[id]) < Rank(t.jobs[id])
    && t.jobs == s.jobs[id := t.jobs[id]]
    && t.inserting == s.inserting && t.calls == s.calls && t.reports == s.reports
  }

  lemma OwnStepMoves(s: Registry, limit: nat, id: int)
    requires id in s.jobs && s.jobs[id] != Waiting && s.jobs[id] != Ended
    ensures Quiet(OwnStep(s, id)) && Enabled(s, OwnStep(s, id), limit)
    ensures JobMoves(s, Next(s, OwnStep(s, id), limit), id)
  {
    hide Holders, FailRow;
  }

  lemma HeadMoves(s: Registry, limit: nat)
    requires |s.waiters| > 0
    requires var id := s.waiters[0]; id in s.jobs && s.jobs[id] == Waiting
    ensures var id := s.waiters[0]; var e := if id in s.doomed then Interrupt(id) else Enter(id);
            Enabled(s, e, limit) ==> JobMoves(s, Next(s, e, limit), id)
  {
    hide Holders, Remove;
  }

  /** The call's own next step. */
  function CallStep(s: Registry, call: int): Event
    requires call in s.calls
  {
    match s.calls[call].pc
    case HasRead(_) => CancelAct(call)
    case Withdrawing(written) => if written then CancelEnd(call) else CancelWrite(call)
  }

  lemma CallStepMoves(s: Registry, limit: nat, call: int)
    requires call in s.calls
    ensures Quiet(CallStep(s, call)) && Enabled(s, CallStep(s, call), limit)
    ensures var t := Next(s, CallStep(s, call), limit);
            && t.inserting == s.inserting
            && if call in t.calls then
                 t.calls == s.calls[call := t.calls[call]] && CallRank(s.calls[call].pc) < CallRank(t.calls[call].pc)
               else t.calls == s.calls - {call}
  {
    hide Holders, FailRow, Remove;
  }

  /** One quiet step that brings the registry nearer to rest. */
  ghost predicate Nearer(s: Registry, t: Registry) {
    || |t.inserting| < |s.inserting|
    || (t.inserting == s.inserting
        && (|| |CallSteps(t.calls)| < |CallSteps(s.calls)|
            || (t.calls == s.calls
                && (|| |t.reports| < |s.reports|
                    || (t.reports == s.reports && |JobSteps(t.jobs)| < |JobSteps(s.jobs)|)))))
  }

  lemma CallNearer(s: Registry, limit: nat, call: int)
    requires call in s.calls
    ensures Nearer(s, Next(s, CallStep(s, call), limit))
  {
    hide Next, Enabled;
    CallStepMoves(s, limit, call);
    var t := Next(s, CallStep(s, call), limit);
    var step := (call, CallRank(s.calls[call].pc) as int);
    assert step in CallSteps(s.calls) && step !in CallSteps(t.calls);
    ProperSubsetSize(CallSteps(t.calls), CallSteps(s.calls));
  }

  lemma JobNearer(s: Registry, t: Registry, id: int)
    requires JobMoves(s, t, id)
    ensures Nearer(s, t)
  {
    var step := (id, Rank(s.jobs[id]) as int);
    assert step in JobSteps(s.jobs) && step !in JobSteps(t.jobs);
    ProperSubsetSize(JobSteps(t.jobs), JobSteps(s.jobs));
  }

  lemma ReportNearer(s: Registry, limit: nat, id: int, done: nat)
    requires (id, done) in s.reports
    ensures Enabled(s, WriteReport(id, done), limit) && Nearer(s, Next(s, WriteReport(id, done), limit))
  {
    hide Holders, ProgressRow, JobSteps, CallSteps;
  }

  lemma StartNearer(s: Registry, limit: nat, id: int)
    requires id in s.inserting
    ensures Enabled(s, SubmitStart(id), limit) && Nearer(s, Next(s, SubmitStart(id), limit))
  {
    hide Holders, JobSteps, CallSteps;
    assert id in s.inserting && id !in s.inserting - {id};
    ProperSubsetSize(s.inserting - {id}, s.inserting);
  }

  /** The tasks still live all wait: the longest waiting one can go on. */
  lemma WaiterNearer(s: Registry, limit: nat) returns (e: Event)
    requires Inv(s, limit) && limit > 0
    requires exists id :: id in s.jobs && s.jobs[id] != Ended
    requires forall id | id in s.jobs :: s.jobs[id] == Waiting || s.jobs[id] == Ended
    ensures Quiet(e) && Enabled(s, e, limit) && Nearer(s, Next(s, e, limit))
  {
    hide RunsOk, KeysOk, CallsOk, ReportsOk, Enabled, Next, Nearer, Without, Distinct;
    var id :| id in s.jobs && s.jobs[id] != Ended;
    assert id in s.waiters;
    assert forall other :: other !in Holders(s);
    assert Holders(s) == {};
    var head := s.waiters[0];
    assert head in s.waiters;
    e := if head in s.doomed then Interrupt(head) else Enter(head);
    HeadCanEnter(s, limit);
    HeadMoves(s, limit);
    JobNearer(s, Next(s, e, limit), head);
  }

  lemma QuietStep(s: Registry, limit: nat) returns (e: Event)
    requires Inv(s, limit) && limit > 0 && !Idle(s)
    ensures Quiet(e) && Enabled(s, e, limit) && Nearer(s, Next(s, e, limit))
  {
    hide Inv, Enabled, Next, Nearer;
    if exists id :: id in s.inserting {
      var id :| id in s.inserting;
      e := SubmitStart(id);
      StartNearer(s, limit, id);
    } else if exists call :: call in s.calls {
      var call :| call in s.calls;
      e := CallStep(s, call);
      CallStepMoves(s, limit, call);
      CallNearer(s, limit, call);
    } else if exists id, done :: (id, done) in s.reports {
      var id, done :| (id, done) in s.reports;
      e := WriteReport(id, done);
      ReportNearer(s, limit, id, done);
    } else if exists id :: id in s.jobs && s.jobs[id] != Waiting && s.jobs[id] != Ended {
      var id :| id in s.jobs && s.jobs[id] != Waiting && s.jobs[id] != Ended;
      e := OwnStep(s, id);
      OwnStepMoves(s, limit, id);
      JobNearer(s, Next(s, e, limit), id);
    } else {
      e := WaiterNearer(s, limit);
    }
  }

  /** Steps from one state on, each enabled where it happens. */
  ghost predicate Leads(s: Registry, states: seq<Registry>, events: seq<Event>, limit: nat) {
    && |states| == |events| + 1 && states[0] == s
    && forall i | 0 <= i < |events| ::
         Quiet(events[i]) && Enabled(states[i], events[i], limit) && states[i + 1] == Next(states[i], events[i], limit)
  }

  lemma OneStepMore(s: Registry, e: Event, states: seq<Registry>, events: seq<Event>, limit: nat)
    requires Quiet(e) && Enabled(s, e, limit) && Leads(Next(s, e, limit), states, events, limit)
    ensures Leads(s, [s] + states, [e] + events, limit)
  {
    hide Enabled, Next, Quiet;
    var longer, more := [s] + states, [e] + events;
    forall i | 0 <= i < |more|
      ensures Quiet(more[i]) && Enabled(longer[i], more[i], limit) && longer[i + 1] == Next(longer[i], more[i], limit)
    {
      if i > 0 {
        assert more[i] == events[i - 1] && longer[i] == states[i - 1] && longer[i + 1] == states[i];
      }
    }
  }

  lemma {:induction false} Drain(s: Registry, limit: nat) returns (states: seq<Registry>, events: seq<Event>)
    requires Inv(s, limit) && limit > 0
    ensures Leads(s, states, events, limit)
    ensures Inv(states[|events|], limit) && Idle(states[|events|]) && states[|events|].lost == s.lost
    decreases |s.inserting|, |CallSteps(s.calls)|, |s.reports|, |JobSteps(s.jobs)|
  {
    hide Inv, Enabled, Next, Idle, JobSteps, CallSteps, SameLists, NoNewHolder;
    if Idle(s) {
      states, events := [s], [];
    } else {
      var e := QuietStep(s, limit);
      InvKept(s, e, limit);
      StepLeaves(s, e, limit);
      var rest, after := Drain(Next(s, e, limit), limit);
      OneStepMore(s, e, rest, after, limit);
      states, events := [s] + rest, [e] + after;
    }
  }

  lemma IdleRows(s: Registry, limit: nat, id: int)
    requires Inv(s, limit) && Idle(s) && id in s.rows
    ensures s.rows[id].status.Active() ==> id in s.lost
  {
    assert RunOk(s, id);
    hide RunsOk, KeysOk, CallsOk, OrderOk, ReportsOk, Holders;
  }

  /** Nothing ever hangs: from every reachable state, with no new request and no failure, some
      steps lead to a state where every task has ended, no cancel or progress write is left
      over, and no row is active but those whose writes were already lost. */
  lemma EverythingCanEnd(states: seq<Registry>, events: seq<Event>, limit: nat, i: nat)
    requires IsRun(states, events, limit) && i <= |events| && limit > 0
    ensures |states| == |events| + 1
    ensures exists after, steps :: Leads(states[i], after, steps, limit)
              && (var t := after[|steps|];
                  && Idle(t)
                  && forall id | id in t.rows && t.rows[id].status.Active() :: id in states[i].lost)
  {
    hide Inv, Enabled, Next, Leads, Idle;
    InvAt(states, events, limit, i);
    var after, steps := Drain(states[i], limit);
    LeadsLength(states[i], after, steps, limit);
    forall id | id in after[|steps|].rows && after[|steps|].rows[id].status.Active() ensures id in states[i].lost {
      IdleRows(after[|steps|], limit, id);
    }
  }

  lemma LeadsLength(s: Registry, states: seq<Registry>, events: seq<Event>, limit: nat)
    requires Leads(s, states, events, limit)
    ensures |states| == |events| + 1
  {
  }
}
