/** The run-job registry (api/sim_jobs.py) as a state machine.

    One event is what runs between two awaits, or the effect of one SQL statement in the
    database. A statement may fail before or after its effect; a statement whose caller
    saw an error has no later effect. Any events may interleave. */
module SimJobs {
  import opened Helpers

  datatype Status = Queued | Running | Done | Failed | Cancelled {
    predicate Active() {
      Queued? || Running?
    }
  }

  datatype Row = Row(key: int, status: Status, progress: nat)

  /** Where a job's task stands. `written` says whether the awaited statement took effect. */
  datatype Pc =
    | Waiting
    | Dropping(written: bool)
    | Starting(written: bool)
    | Playing(reported: nat)
    | Recording(nDone: nat)
    | Finishing(status: Status, nDone: nat, written: bool)
    | Failing(written: bool)
    | Ended
  {
    predicate HoldsSemaphore() {
      Dropping? || Starting? || Playing? || Recording? || Finishing?
    }
  }

  /** A cancel() in flight: it has read the row, or awaits its UPDATE. */
  datatype CancelPc = HasRead(status: Status) | Withdrawing(written: bool)

  datatype CancelCall = CancelCall(id: int, pc: CancelPc)

  datatype Registry = Registry(
    // the table
    rows: map<int, Row>,
    nextId: int,
    // the registry's fields
    queue: seq<int>,
    cancels: set<int>,
    tasks: set<int>,
    // the event loop: coroutines, the semaphore's waiters, scheduled progress writes
    inserting: set<int>,
    jobs: map<int, Pc>,
    waiters: seq<int>,
    calls: map<int, CancelCall>,
    doomed: set<int>,
    reports: multiset<(int, nat)>,
    // history
    submitted: seq<int>,
    entered: seq<int>,
    withdrawn: set<int>,
    skipped: set<int>,
    lost: set<int>)

  datatype Event =
    | SubmitInsert(key: int)
    | SubmitLost(id: int)
    | SubmitStart(id: int)
    | CancelRead(call: int, id: int)
    | CancelAct(call: int)
    | CancelWrite(call: int)
    | CancelEnd(call: int)
    | CancelRaise(call: int)
    | Enter(id: int)
    | Interrupt(id: int)
    | WriteDropped(id: int)
    | EndDropped(id: int)
    | WriteRunning(id: int)
    | StartPlay(id: int)
    | Report(id: int, done: nat)
    | WriteReport(id: int, done: nat)
    | LoseReport(id: int, done: nat)
    | PlayEnd(id: int, nDone: nat, cancelled: bool, records: bool)
    | RecordEnd(id: int)
    | WriteFinish(id: int)
    | EndFinish(id: int)
    | Raise(id: int)
    | WriteFailed(id: int)
    | EndFailed(id: int)
    | FailLost(id: int)

  // ----- helpers -----

  /** `list.remove`. */
  function Remove(s: seq<int>, x: int): seq<int> {
    if |s| == 0 then []
    else if s[0] == x then s[1..]
    else [s[0]] + Remove(s[1..], x)
  }

  function Without(s: seq<int>, out: set<int>): seq<int> {
    if |s| == 0 then []
    else (if s[0] in out then [] else [s[0]]) + Without(s[1..], out)
  }

  function Holders(s: Registry): set<int> {
    set id | id in s.jobs && s.jobs[id].HoldsSemaphore()
  }

  /** The guarded UPDATE of _SQL_FAIL. */
  function FailRow(rows: map<int, Row>, id: int, status: Status): map<int, Row> {
    if id in rows && rows[id].status.Active() then rows[id := rows[id].(status := status)] else rows
  }

  /** The guarded UPDATE of _SQL_PROGRESS. */
  function ProgressRow(rows: map<int, Row>, id: int, done: nat): map<int, Row> {
    if id in rows && rows[id].status == Running && rows[id].progress < done
    then rows[id := rows[id].(progress := done)] else rows
  }

  /** A task resumes normally only while nobody has cancelled it. */
  predicate Resumes(s: Registry, id: int) {
    id in s.jobs && id !in s.doomed
  }

  /** The `finally` of a job. */
  function End(s: Registry, id: int): Registry {
    s.(jobs := s.jobs[id := Ended], tasks := s.tasks - {id}, cancels := s.cancels - {id},
       doomed := s.doomed - {id})
  }

  // ----- the steps -----

  predicate Enabled(s: Registry, e: Event, limit: nat) {
    match e
    case SubmitInsert(key) =>
      forall id | id in s.rows :: !(s.rows[id].key == key && s.rows[id].status.Active())
    case SubmitLost(id) => id in s.inserting
    case SubmitStart(id) => id in s.inserting
    case CancelRead(call, id) => call !in s.calls && id in s.rows && s.rows[id].status.Active()
    case CancelAct(call) => call in s.calls && s.calls[call].pc.HasRead?
    case CancelWrite(call) => call in s.calls && s.calls[call].pc == Withdrawing(false)
    case CancelEnd(call) => call in s.calls && s.calls[call].pc == Withdrawing(true)
    case CancelRaise(call) => call in s.calls && s.calls[call].pc.Withdrawing?
    case Enter(id) =>
      Resumes(s, id) && s.jobs[id] == Waiting && |s.waiters| > 0 && s.waiters[0] == id
      && |Holders(s)| < limit
    case Interrupt(id) => id in s.jobs && id in s.doomed
    case WriteDropped(id) => id in s.jobs && s.jobs[id] == Dropping(false)
    case EndDropped(id) => Resumes(s, id) && s.jobs[id] == Dropping(true)
    case WriteRunning(id) => id in s.jobs && s.jobs[id] == Starting(false)
    case StartPlay(id) => Resumes(s, id) && s.jobs[id] == Starting(true)
    case Report(id, done) => id in s.jobs && s.jobs[id].Playing?
    case WriteReport(id, done) => (id, done) in s.reports
    case LoseReport(id, done) => (id, done) in s.reports
    case PlayEnd(id, nDone, cancelled, records) =>
      Resumes(s, id) && s.jobs[id].Playing? && s.jobs[id].reported <= nDone
      && (cancelled ==> id in s.cancels)
    case RecordEnd(id) => Resumes(s, id) && s.jobs[id].Recording?
    case WriteFinish(id) => id in s.jobs && s.jobs[id].Finishing? && !s.jobs[id].written
    case EndFinish(id) => Resumes(s, id) && s.jobs[id].Finishing? && s.jobs[id].written
    case Raise(id) => Resumes(s, id) && s.jobs[id].HoldsSemaphore()
    case WriteFailed(id) => id in s.jobs && s.jobs[id] == Failing(false)
    case EndFailed(id) => Resumes(s, id) && s.jobs[id] == Failing(true)
    case FailLost(id) => Resumes(s, id) && s.jobs[id] == Failing(false)
  }

  function Insert(s: Registry, key: int): Registry {
    s.(rows := s.rows[s.nextId := Row(key, Queued, 0)], nextId := s.nextId + 1,
       inserting := s.inserting + {s.nextId})
  }

  function Start(s: Registry, id: int): Registry {
    s.(inserting := s.inserting - {id}, queue := s.queue + [id], tasks := s.tasks + {id},
       jobs := s.jobs[id := Waiting], waiters := s.waiters + [id], submitted := s.submitted + [id])
  }

  function Act(s: Registry, call: int): Registry
    requires call in s.calls && s.calls[call].pc.HasRead?
  {
    var id := s.calls[call].id;
    var flagged := s.(cancels := s.cancels + {id});
    if s.calls[call].pc.status == Queued && id in s.queue then
      flagged.(queue := Remove(s.queue, id), withdrawn := s.withdrawn + {id},
               calls := s.calls[call := CancelCall(id, Withdrawing(false))])
    else flagged.(calls := s.calls - {call})
  }

  function EndCancel(s: Registry, call: int): Registry
    requires call in s.calls
  {
    var id := s.calls[call].id;
    s.(calls := s.calls - {call}, tasks := s.tasks - {id},
       doomed := if id in s.tasks then s.doomed + {id} else s.doomed)
  }

  function EnterSemaphore(s: Registry, id: int): Registry
    requires |s.waiters| > 0
  {
    s.(waiters := s.waiters[1..], entered := s.entered + [id],
       queue := if id in s.queue then Remove(s.queue, id) else s.queue,
       jobs := s.jobs[id := if id in s.cancels then Dropping(false) else Starting(false)])
  }

  function Next(s: Registry, e: Event, limit: nat): Registry
    requires Enabled(s, e, limit)
  {
    match e
    case SubmitInsert(key) => Insert(s, key)
    case SubmitLost(id) => s.(inserting := s.inserting - {id}, lost := s.lost + {id})
    case SubmitStart(id) => Start(s, id)
    case CancelRead(call, id) => s.(calls := s.calls[call := CancelCall(id, HasRead(s.rows[id].status))])
    case CancelAct(call) => Act(s, call)
    case CancelWrite(call) =>
      s.(rows := FailRow(s.rows, s.calls[call].id, Cancelled),
         calls := s.calls[call := s.calls[call].(pc := Withdrawing(true))])
    case CancelEnd(call) => EndCancel(s, call)
    case CancelRaise(call) => s.(calls := s.calls - {call})
    case Enter(id) => EnterSemaphore(s, id)
    case Interrupt(id) =>
      if s.jobs[id] == Waiting
      then End(s, id).(waiters := Remove(s.waiters, id), skipped := s.skipped + {id})
      else End(s, id)
    case WriteDropped(id) =>
      s.(rows := FailRow(s.rows, id, Cancelled), jobs := s.jobs[id := Dropping(true)])
    case EndDropped(id) => End(s, id)
    case WriteRunning(id) =>
      s.(rows := if id in s.rows then s.rows[id := s.rows[id].(status := Running)] else s.rows,
         jobs := s.jobs[id := Starting(true)])
    case StartPlay(id) => s.(jobs := s.jobs[id := Playing(0)])
    case Report(id, done) =>
      s.(reports := s.reports + multiset{(id, done)},
         jobs := s.jobs[id := Playing(if done > s.jobs[id].reported then done else s.jobs[id].reported)])
    case WriteReport(id, done) =>
      s.(rows := ProgressRow(s.rows, id, done), reports := s.reports - multiset{(id, done)})
    case LoseReport(id, done) => s.(reports := s.reports - multiset{(id, done)})
    case PlayEnd(id, nDone, cancelled, records) =>
      s.(jobs := s.jobs[id := if !cancelled && records then Recording(nDone)
                              else Finishing(if cancelled then Cancelled else Done, nDone, false)])
    case RecordEnd(id) => s.(jobs := s.jobs[id := Finishing(Done, s.jobs[id].nDone, false)])
    case WriteFinish(id) =>
      var pc := s.jobs[id];
      s.(rows := if id in s.rows
                 then s.rows[id := s.rows[id].(status := pc.status, progress := pc.nDone)] else s.rows,
         jobs := s.jobs[id := pc.(written := true)])
    case EndFinish(id) => End(s, id)
    case Raise(id) => s.(jobs := s.jobs[id := Failing(false)])
    case WriteFailed(id) =>
      s.(rows := FailRow(s.rows, id, Failed), jobs := s.jobs[id := Failing(true)])
    case EndFailed(id) => End(s, id)
    case FailLost(id) => End(s, id).(lost := s.lost + {id})
  }

  const EMPTY := Registry(map[], 0, [], {}, {}, {}, map[], [], map[], {}, multiset{}, [], [], {}, {}, {})

  /** The states of a run: any events, each enabled where it happens. */
  ghost predicate IsRun(states: seq<Registry>, events: seq<Event>, limit: nat) {
    && |states| == |events| + 1 && states[0] == EMPTY
    && forall i | 0 <= i < |events| ::
         Enabled(states[i], events[i], limit) && states[i + 1] == Next(states[i], events[i], limit)
  }

  // ----- the invariant -----

  /** What one started job keeps, whatever the other jobs do. */
  ghost predicate JobOk(row: Row, pc: Pc, inQueue: bool, flagged: bool, tasked: bool, doomed: bool,
                        withdrawn: bool, skipped: bool, lost: bool) {
    && (match pc
        case Waiting =>
          && row.progress == 0
          && (if inQueue then row.status == Queued && !withdrawn
              else withdrawn && flagged && (row.status == Queued || row.status == Cancelled))
        case Dropping(written) =>
          && flagged && !inQueue
          && (row.status == Cancelled || (row.status == Queued && !written))
        case Starting(written) =>
          !inQueue && !withdrawn && row.progress == 0 && row.status == (if written then Running else Queued)
        case Playing(m) => !inQueue && !withdrawn && row.status == Running && row.progress <= m
        case Recording(n) => !inQueue && !withdrawn && row.status == Running && row.progress <= n
        case Finishing(status, n, written) =>
          && !inQueue && !withdrawn && !status.Active()
          && (if written then row.status == status else row.status == Running && row.progress <= n)
        case Failing(written) => !inQueue && (written ==> !row.status.Active())
        case Ended => !inQueue && !tasked && (lost || !row.status.Active()))
    && (pc != Ended && row.status.Active() ==> tasked)
    && (doomed ==> withdrawn && !row.status.Active() && pc != Ended)
    && (withdrawn ==> row.status != Running && row.status != Done)
    && (skipped ==> pc == Ended && row.status == Cancelled)
  }

  /** What the registry keeps of one run id. */
  ghost predicate RunOk(s: Registry, id: int) {
    && (id in s.jobs ==>
          && id in s.rows
          && JobOk(s.rows[id], s.jobs[id], id in s.queue, id in s.cancels, id in s.tasks,
                   id in s.doomed, id in s.withdrawn, id in s.skipped, id in s.lost))
    && (id in s.rows ==> id < s.nextId && (id in s.inserting || id in s.jobs || id in s.lost))
    && (id in s.inserting ==>
          id in s.rows && s.rows[id].status == Queued && s.rows[id].progress == 0 && id !in s.jobs)
    && (id in s.queue || id in s.tasks || id in s.doomed || id in s.withdrawn || id in s.skipped ==> id in s.jobs)
    && (id in s.lost ==> id in s.rows)
  }

  ghost predicate RunsOk(s: Registry) {
    forall id :: RunOk(s, id)
  }

  /** One active row per key. */
  ghost predicate KeysOk(s: Registry) {
    forall i, j | i in s.rows && j in s.rows && i != j && s.rows[i].status.Active()
                  && s.rows[j].status.Active() :: s.rows[i].key != s.rows[j].key
  }

  ghost predicate CallOk(s: Registry, c: CancelCall) {
    && c.id in s.rows
    && (c.pc.Withdrawing? ==> c.id in s.withdrawn && (c.pc.written ==> !s.rows[c.id].status.Active()))
  }

  ghost predicate CallsOk(s: Registry) {
    forall call | call in s.calls :: CallOk(s, s.calls[call])
  }

  /** How many progress values may be scheduled while the task stands here: the counts below
      this one. No bound once the final count is written or the row is left to fail. */
  ghost function ReportBound(pc: Pc): Option<nat> {
    match pc
    case Playing(m) => Some(m + 1)
    case Recording(n) => Some(n + 1)
    case Finishing(_, n, written) => if written then None else Some(n + 1)
    case Failing(_) => None
    case Ended => None
    case _ => Some(0)
  }

  ghost predicate ReportOk(s: Registry, id: int, done: nat) {
    id in s.jobs && (ReportBound(s.jobs[id]).Some? ==> done < ReportBound(s.jobs[id]).value)
  }

  ghost predicate ReportsOk(s: Registry) {
    forall id, done | (id, done) in s.reports :: ReportOk(s, id, done)
  }

  ghost predicate Distinct(s: seq<int>) {
    forall i, j | 0 <= i < j < |s| :: s[i] != s[j]
  }

  ghost predicate OrderOk(s: Registry) {
    && Distinct(s.submitted)
    && (forall id :: id in s.submitted <==> id in s.jobs)
    && (forall id :: id in s.waiters <==> id in s.jobs && s.jobs[id] == Waiting)
    && s.entered + s.waiters == Without(s.submitted, s.skipped)
    && s.queue == Without(s.waiters, s.withdrawn)
  }

  ghost predicate Inv(s: Registry, limit: nat) {
    && RunsOk(s) && KeysOk(s) && CallsOk(s) && ReportsOk(s) && OrderOk(s)
    && |Holders(s)| <= limit
  }
}
