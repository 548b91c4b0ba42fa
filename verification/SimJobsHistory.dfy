/** What the registry holds at a moment, told from the events behind it. */
module SimJobsHistory {
  import opened SimJobs
  import opened SimJobsSafety
  import opened SimJobsRuns
  import opened SimJobsOutcomes

  // ----- the scheduled progress writes -----

  lemma PendingStep(s: Registry, e: Event, limit: nat, id: int, done: nat)
    requires Enabled(s, e, limit)
    ensures Next(s, e, limit).reports[(id, done)]
          + (if e in {WriteReport(id, done), LoseReport(id, done)} then 1 else 0)
         == s.reports[(id, done)] + if e == Report(id, done) then 1 else 0
  {
    hide Remove, Holders;
  }

  lemma OneMoreSeen(events: seq<Event>, i: nat, e: Event)
    requires i < |events|
    ensures multiset(events[..i + 1])[e] == multiset(events[..i])[e] + if events[i] == e then 1 else 0
  {
    assert events[..i + 1] == events[..i] + [events[i]];
  }

  lemma StepOf(states: seq<Registry>, events: seq<Event>, limit: nat, i: nat)
    requires IsRun(states, events, limit) && i < |events|
    ensures |states| == |events| + 1
    ensures Enabled(states[i], events[i], limit) && states[i + 1] == Next(states[i], events[i], limit)
  {
    hide Enabled, Next;
  }

  lemma NoneAtBoot(states: seq<Registry>, events: seq<Event>, limit: nat, id: int, done: nat)
    requires IsRun(states, events, limit)
    ensures |states| == |events| + 1 && states[0].reports[(id, done)] == 0
  {
  }

  /** Each reported count is scheduled, written or lost: none is forgotten, none appears twice. */
  lemma {:induction false} PendingExact(states: seq<Registry>, events: seq<Event>, limit: nat, i: nat, id: int,
          done: nat)
    requires IsRun(states, events, limit) && i <= |events|
    ensures |states| == |events| + 1
    ensures states[i].reports[(id, done)]
          + multiset(events[..i])[WriteReport(id, done)] + multiset(events[..i])[LoseReport(id, done)]
         == multiset(events[..i])[Report(id, done)]
  {
    hide IsRun, Enabled, Next;
    if i == 0 {
      NoneAtBoot(states, events, limit, id, done);
    } else {
      var e := events[i - 1];
      PendingExact(states, events, limit, i - 1, id, done);
      StepOf(states, events, limit, i - 1);
      PendingStep(states[i - 1], e, limit, id, done);
      OneMoreSeen(events, i - 1, Report(id, done));
      OneMoreSeen(events, i - 1, WriteReport(id, done));
      OneMoreSeen(events, i - 1, LoseReport(id, done));
    }
  }

  // ----- the flag, the task and the cancel upon it -----

  /** What a step does to a run's marks and task. */
  ghost predicate MarksMove(s: Registry, e: Event, t: Registry, id: int) {
    && (ActsOn(s, e, id) ==> id in t.cancels)
    && (id in s.cancels ==> id in t.cancels || (id in t.jobs && t.jobs[id] == Ended))
    && (id in t.tasks ==> id in s.tasks || e == SubmitStart(id))
    && (id in s.tasks ==> id in t.tasks || Reaches(s, e, id) || (id in t.jobs && t.jobs[id] == Ended))
    && (e == SubmitStart(id) ==> id in t.tasks)
    && (id in t.jobs ==> id in s.jobs || e == SubmitStart(id))
    && (Reaches(s, e, id) ==> id !in t.tasks)
  }

  /** The last step of `cancel`: it cancels the task itself. */
  ghost predicate Reaches(s: Registry, e: Event, id: int) {
    e.CancelEnd? && e.call in s.calls && s.calls[e.call].id == id
  }

  lemma MarksByCancel(s: Registry, e: Event, limit: nat)
    requires Enabled(s, e, limit) && ByCancel(e)
    ensures MarksMove(s, e, Next(s, e, limit), Subject(s, e))
  {
    hide Remove, Holders, FailRow, ProgressRow;
  }

  lemma MarksByQueue(s: Registry, e: Event, limit: nat)
    requires Enabled(s, e, limit) && (ByQueue(e) || BySubmit(e))
    ensures MarksMove(s, e, Next(s, e, limit), Subject(s, e))
  {
    hide Remove, Holders, FailRow, ProgressRow;
  }

  lemma PlayKeepsMarks(s: Registry, e: Event, limit: nat)
    requires Enabled(s, e, limit) && (ByStart(e) || ByReport(e))
    ensures Next(s, e, limit).tasks == s.tasks && Next(s, e, limit).cancels == s.cancels
  {
    hide Holders, FailRow, ProgressRow;
  }

  lemma FinishKeepsMarks(s: Registry, e: Event, limit: nat)
    requires Enabled(s, e, limit) && (ByFinish(e) || ByFailure(e))
    ensures Next(s, e, limit).tasks == s.tasks && Next(s, e, limit).cancels == s.cancels
  {
    hide Holders, FailRow, ProgressRow;
  }

  lemma MarksOfSubject(s: Registry, e: Event, limit: nat)
    requires Enabled(s, e, limit)
    ensures MarksMove(s, e, Next(s, e, limit), Subject(s, e))
  {
    hide Enabled, Next;
    if ByCancel(e) {
      MarksByCancel(s, e, limit);
    } else if ByQueue(e) || BySubmit(e) {
      MarksByQueue(s, e, limit);
    } else if ByEnd(e) {
      EndMeans(s, e, limit);
    } else {
      StepLeaves(s, e, limit);
      if ByStart(e) || ByReport(e) {
        PlayKeepsMarks(s, e, limit);
      } else {
        FinishKeepsMarks(s, e, limit);
      }
    }
  }

  lemma MarksAt(states: seq<Registry>, events: seq<Event>, limit: nat, i: nat, id: int)
    requires IsRun(states, events, limit) && i < |events|
    ensures |states| == |events| + 1 && MarksMove(states[i], events[i], states[i + 1], id)
  {
    hide Enabled, Next;
    if id == Subject(states[i], events[i]) {
      MarksOfSubject(states[i], events[i], limit);
    } else {
      OthersKept(states[i], events[i], limit, id);
    }
  }

  /** Until its task has ended, a run is flagged exactly when some `cancel` has acted on it. */
  lemma {:induction false} FlagMeans(states: seq<Registry>, events: seq<Event>, limit: nat, i: nat, id: int)
    requires IsRun(states, events, limit) && i <= |events|
    requires id in states[i].jobs ==> states[i].jobs[id] != Ended
    ensures id in states[i].cancels <==>
            exists k :: 0 <= k < i && events[k].CancelAct? && events[k].call in states[k].calls
                        && states[k].calls[events[k].call].id == id
  {
    hide Enabled, Next, From;
    AllExplained(states, events, limit, i, id);
    FlagFollows(states, events, limit, i, id);
    if k :| 0 <= k < i && events[k].CancelAct? && events[k].call in states[k].calls
            && states[k].calls[events[k].call].id == id {
      assert ActsOn(states[k], events[k], id);
    }
  }

  lemma {:induction false} FlagFollows(states: seq<Registry>, events: seq<Event>, limit: nat, i: nat, id: int)
    requires IsRun(states, events, limit) && i <= |events|
    requires id in states[i].jobs ==> states[i].jobs[id] != Ended
    ensures |states| == |events| + 1
    ensures Acted(states, events, i, id) ==> id in states[i].cancels
  {
    hide Enabled, Next, RowFrom, MarksFrom;
    if i > 0 {
      StepAt(states, events, limit, i - 1, id);
      MarksAt(states, events, limit, i - 1, id);
      FlagFollows(states, events, limit, i - 1, id);
    }
  }

  ghost predicate Reached(states: seq<Registry>, events: seq<Event>, i: nat, id: int)
    requires i <= |events| && |states| == |events| + 1
  {
    exists k :: 0 <= k < i && Reaches(states[k], events[k], id)
  }

  lemma ReachedGrows(states: seq<Registry>, events: seq<Event>, i: nat, id: int)
    requires i < |events| && |states| == |events| + 1
    ensures Reached(states, events, i + 1, id) <==> Reached(states, events, i, id) || Reaches(states[i], events[i], id)
  {
  }

  /** A task's place in the registry, and the cancels that have reached it. */
  ghost predicate Tasked(states: seq<Registry>, events: seq<Event>, i: nat, id: int)
    requires i <= |events| && |states| == |events| + 1
  {
    && (id !in states[i].jobs ==> !Reached(states, events, i, id))
    && (id in states[i].tasks <==>
          id in states[i].jobs && states[i].jobs[id] != Ended && !Reached(states, events, i, id))
  }

  lemma CancelsAreOfJobs(s: Registry, e: Event, limit: nat, id: int)
    requires Inv(s, limit) && Enabled(s, e, limit) && Reaches(s, e, id)
    ensures id in s.jobs
  {
    assert CallOk(s, s.calls[e.call]) && RunOk(s, id);
    hide RunsOk, KeysOk, OrderOk, ReportsOk, Holders;
  }

  lemma EndedHasNoTask(s: Registry, limit: nat, id: int)
    requires Inv(s, limit) && id in s.jobs && s.jobs[id] == Ended
    ensures id !in s.tasks
  {
    assert RunOk(s, id);
    hide RunsOk, KeysOk, OrderOk, ReportsOk, Holders;
  }

  lemma StartIsNew(s: Registry, limit: nat, id: int)
    requires Inv(s, limit) && Enabled(s, SubmitStart(id), limit)
    ensures id !in s.jobs
    ensures id in Next(s, SubmitStart(id), limit).jobs && Next(s, SubmitStart(id), limit).jobs[id] == Waiting
  {
    assert RunOk(s, id);
    hide RunsOk, KeysOk, OrderOk, ReportsOk, Holders;
  }

  lemma TaskedByStep(states: seq<Registry>, events: seq<Event>, limit: nat, i: nat, id: int)
    requires IsRun(states, events, limit) && i < |events| && Tasked(states, events, i, id)
    ensures Tasked(states, events, i + 1, id)
  {
    hide Enabled, Next, Inv, Reached, Reaches, RowFrom, MarksFrom;
    var s, e, t := states[i], events[i], states[i + 1];
    InvAt(states, events, limit, i);
    InvAt(states, events, limit, i + 1);
    StepAt(states, events, limit, i, id);
    MarksAt(states, events, limit, i, id);
    ReachedGrows(states, events, i, id);
    if Reaches(s, e, id) {
      CancelsAreOfJobs(s, e, limit, id);
    }
    if id in t.jobs && t.jobs[id] == Ended {
      EndedHasNoTask(t, limit, id);
    }
    if e == SubmitStart(id) {
      StartIsNew(s, limit, id);
    }
  }

  lemma NoTaskAtBoot(states: seq<Registry>, events: seq<Event>, id: int)
    requires |states| == |events| + 1 && states[0] == EMPTY
    ensures Tasked(states, events, 0, id)
  {
  }

  lemma {:induction false} AlwaysTasked(states: seq<Registry>, events: seq<Event>, limit: nat, i: nat, id: int)
    requires IsRun(states, events, limit) && i <= |events|
    ensures |states| == |events| + 1 && Tasked(states, events, i, id)
  {
    hide Enabled, Next, Tasked;
    if i == 0 {
      NoTaskAtBoot(states, events, id);
    } else {
      AlwaysTasked(states, events, limit, i - 1, id);
      TaskedByStep(states, events, limit, i - 1, id);
    }
  }

  /** The count that the restart waits for counts exactly the started tasks that have not ended
      and that no cancel has reached. */
  lemma TasksExact(states: seq<Registry>, events: seq<Event>, limit: nat, i: nat, id: int)
    requires IsRun(states, events, limit) && i <= |events|
    ensures id in states[i].tasks <==>
            && id in states[i].jobs && states[i].jobs[id] != Ended
            && !exists k :: 0 <= k < i && events[k].CancelEnd? && events[k].call in states[k].calls
                            && states[k].calls[events[k].call].id == id
  {
    hide Enabled, Next;
    AlwaysTasked(states, events, limit, i, id);
    if k :| 0 <= k < i && events[k].CancelEnd? && events[k].call in states[k].calls
            && states[k].calls[events[k].call].id == id {
      assert Reaches(states[k], events[k], id);
    }
  }

  // ----- a cancel, from its read to its act -----

  lemma CallStays(s: Registry, e: Event, limit: nat, call: int)
    requires Enabled(s, e, limit) && call in s.calls && s.calls[call].pc.HasRead? && e != CancelAct(call)
    ensures call in Next(s, e, limit).calls && Next(s, e, limit).calls[call] == s.calls[call]
  {
    hide Remove, Holders, FailRow, ProgressRow;
  }

  lemma ReadMeans(s: Registry, call: int, id: int, limit: nat)
    requires Enabled(s, CancelRead(call, id), limit)
    ensures id in s.rows && call in Next(s, CancelRead(call, id), limit).calls
    ensures Next(s, CancelRead(call, id), limit).calls[call] == CancelCall(id, HasRead(s.rows[id].status))
  {
    hide Holders;
  }

  lemma {:induction false} CallKept(states: seq<Registry>, events: seq<Event>, limit: nat, i: nat, j: nat,
          call: int, id: int)
    requires IsRun(states, events, limit) && i < j <= |events|
    requires events[i] == CancelRead(call, id) && forall h | i < h < j :: events[h] != CancelAct(call)
    ensures id in states[i].rows && call in states[j].calls
    ensures states[j].calls[call] == CancelCall(id, HasRead(states[i].rows[id].status))
    decreases j
  {
    hide Enabled, Next;
    if j == i + 1 {
      ReadMeans(states[i], call, id, limit);
    } else {
      CallKept(states, events, limit, i, j - 1, call, id);
      CallStays(states[j - 1], events[j - 1], limit, call);
    }
  }

  lemma ActMeans(s: Registry, call: int, limit: nat)
    requires Enabled(s, CancelAct(call), limit)
    ensures var id, t := s.calls[call].id, Next(s, CancelAct(call), limit);
      && id in t.cancels
      && if s.calls[call].pc.status == Queued && id in s.queue
         then t.withdrawn == s.withdrawn + {id} && t.queue == Remove(s.queue, id) && call in t.calls
         else t.withdrawn == s.withdrawn && t.queue == s.queue && call !in t.calls
  {
    hide Holders, Remove;
  }

  /** What a cancel does, whatever happens between its read and its act: it flags the run; and
      it withdraws the run, out of the queue for good, exactly when the row it read was queued
      and the run still stands in the queue. Otherwise the call is over. */
  lemma CancelMeans(states: seq<Registry>, events: seq<Event>, limit: nat, i: nat, j: nat, call: int, id: int)
    requires IsRun(states, events, limit) && i < j < |events|
    requires events[i] == CancelRead(call, id) && events[j] == CancelAct(call)
    requires forall h | i < h < j :: events[h] != CancelAct(call)
    ensures id in states[i].rows && id in states[j + 1].cancels
    ensures var withdraws := states[i].rows[id].status == Queued && id in states[j].queue;
      && (call in states[j + 1].calls <==> withdraws)
      && (forall x :: x in states[j + 1].withdrawn <==> x in states[j].withdrawn || (withdraws && x == id))
      && (forall x :: x in states[j + 1].queue <==> x in states[j].queue && !(withdraws && x == id))
  {
    hide Enabled, Next, Inv;
    InvAt(states, events, limit, j);
    QueueIsSettled(states[j], limit);
    RemoveMeans(states[j].queue, id);
    CallKept(states, events, limit, i, j, call, id);
    ActMeans(states[j], call, limit);
  }

  // ----- a submit whose answer is lost -----

  /** Queued, with no task and none to come. */
  ghost predicate Stray(s: Registry, id: int) {
    id in s.rows && s.rows[id].status == Queued && id !in s.inserting && id !in s.jobs
  }

  lemma LostIsStray(s: Registry, id: int, limit: nat)
    requires Inv(s, limit) && Enabled(s, SubmitLost(id), limit)
    ensures Stray(Next(s, SubmitLost(id), limit), id)
  {
    assert RunOk(s, id);
    hide RunsOk, KeysOk, CallsOk, OrderOk, ReportsOk, Holders;
  }

  lemma StrayOfSubject(s: Registry, e: Event, limit: nat)
    requires Inv(s, limit) && Enabled(s, e, limit) && Stray(s, Subject(s, e))
    ensures Stray(Next(s, e, limit), Subject(s, e))
    ensures Next(s, e, limit).rows[Subject(s, e)] == s.rows[Subject(s, e)]
  {
    assert RunOk(s, Subject(s, e));
    CancelWriteIsWithdrawn(s, e, limit);
    hide RunsOk, KeysOk, CallsOk, OrderOk, ReportsOk, Holders, Remove;
  }

  /** The row of a lost submit stays queued for good: no task ever plays it, no cancel ends it. */
  lemma {:induction false} LostSubmitNeverStarts(states: seq<Registry>, events: seq<Event>, limit: nat, i: nat,
          j: nat, id: int)
    requires IsRun(states, events, limit) && i < j <= |events| && events[i] == SubmitLost(id)
    ensures id in states[j].rows && states[j].rows[id].status == Queued && id !in states[j].jobs
    ensures Stray(states[j], id)
    decreases j
  {
    hide Enabled, Next, Inv, Subject;
    InvAt(states, events, limit, j - 1);
    if j == i + 1 {
      LostIsStray(states[i], id, limit);
    } else {
      LostSubmitNeverStarts(states, events, limit, i, j - 1, id);
      if id == Subject(states[j - 1], events[j - 1]) {
        StrayOfSubject(states[j - 1], events[j - 1], limit);
      } else {
        OthersKept(states[j - 1], events[j - 1], limit, id);
      }
    }
  }

  // ----- when a key is free -----

  /** Event `k` is the INSERT of row `id` with the key. */
  ghost predicate Inserts(s: Registry, e: Event, id: int, key: int) {
    e == SubmitInsert(key) && s.nextId == id
  }

  lemma InsertedHere(s: Registry, e: Event, limit: nat, id: int)
    requires Inv(s, limit) && Enabled(s, e, limit)
    ensures id in Next(s, e, limit).rows && id !in s.rows ==> Inserts(s, e, id, Next(s, e, limit).rows[id].key)
    ensures e.SubmitInsert? ==> s.nextId in Next(s, e, limit).rows && Next(s, e, limit).rows[s.nextId].key == e.key
  {
    hide Enabled, RunOk, KeysOk, CallsOk, OrderOk, ReportsOk, Holders, Next;
    if id in Next(s, e, limit).rows && id !in s.rows {
      NewRows(s, e, limit, id);
    }
    if e.SubmitInsert? {
      InsertMeans(s, e, limit);
    }
  }

  /** Every row came by one INSERT of its key. */
  lemma {:induction false} RowsAreInserted(states: seq<Registry>, events: seq<Event>, limit: nat, i: nat, id: int)
    requires IsRun(states, events, limit) && i <= |events| && id in states[i].rows
    ensures |states| == |events| + 1
    ensures exists k :: 0 <= k < i && Inserts(states[k], events[k], id, states[i].rows[id].key)
  {
    hide Enabled, Next, Inv, Inserts, RowMoves;
    InvAt(states, events, limit, i - 1);
    InsertedHere(states[i - 1], events[i - 1], limit, id);
    if id in states[i - 1].rows {
      RowsAreInserted(states, events, limit, i - 1, id);
      RowHistory(states, events, limit, i - 1, i, id);
    }
  }

  /** A key can be submitted exactly while every run submitted with it before has ended. */
  lemma KeyIsFree(states: seq<Registry>, events: seq<Event>, limit: nat, i: nat, key: int)
    requires IsRun(states, events, limit) && i <= |events|
    ensures |states| == |events| + 1
    ensures Enabled(states[i], SubmitInsert(key), limit) <==>
            forall k | 0 <= k < i && events[k] == SubmitInsert(key) ::
              states[k].nextId in states[i].rows && !states[i].rows[states[k].nextId].status.Active()
  {
    hide Next, Inv, Inserts, Holders, IsRun, Enabled;
    RunLength(states, events, limit);
    assert Enabled(states[i], SubmitInsert(key), limit) <==>
           forall id | id in states[i].rows ::
             !(states[i].rows[id].key == key && states[i].rows[id].status.Active()) by {
      KeyTest(states[i], key, limit);
    }
    forall k | 0 <= k < i && events[k] == SubmitInsert(key)
      ensures states[k].nextId in states[i].rows && states[i].rows[states[k].nextId].key == key
    {
      InsertStays(states, events, limit, k, i);
    }
    forall id | id in states[i].rows && states[i].rows[id].key == key
      ensures exists k :: 0 <= k < i && events[k] == SubmitInsert(key) && states[k].nextId == id
    {
      RowsAreInserted(states, events, limit, i, id);
      var k :| 0 <= k < i && Inserts(states[k], events[k], id, states[i].rows[id].key);
      InsertsMeans(states[k], events[k], id, key);
    }
  }

  lemma RunLength(states: seq<Registry>, events: seq<Event>, limit: nat)
    requires IsRun(states, events, limit)
    ensures |states| == |events| + 1
  {
  }

  lemma InsertsMeans(s: Registry, e: Event, id: int, key: int)
    ensures Inserts(s, e, id, key) <==> e == SubmitInsert(key) && s.nextId == id
  {
  }

  lemma KeyTest(s: Registry, key: int, limit: nat)
    ensures Enabled(s, SubmitInsert(key), limit) <==>
            forall id | id in s.rows :: !(s.rows[id].key == key && s.rows[id].status.Active())
  {
    hide Holders;
  }

  lemma InsertStays(states: seq<Registry>, events: seq<Event>, limit: nat, k: nat, i: nat)
    requires IsRun(states, events, limit) && k < i <= |events| && events[k].SubmitInsert?
    ensures states[k].nextId in states[i].rows && states[i].rows[states[k].nextId].key == events[k].key
  {
    hide Enabled, Next, Inv;
    InvAt(states, events, limit, k);
    InsertedHere(states[k], events[k], limit, states[k].nextId);
    RowHistory(states, events, limit, k + 1, i, states[k].nextId);
  }

  // ----- the end of a play -----

  /** A task plays from the step that starts it; while it plays only its reports change it. */
  ghost predicate PlayFrom(s: Registry, e: Event, t: Registry, id: int) {
    && (id in t.jobs && t.jobs[id].Playing? ==>
          && id in s.jobs
          && if e == StartPlay(id) then t.jobs[id] == Playing(0)
             else s.jobs[id].Playing?
                  && t.jobs[id].reported == if e.Report? && e.id == id && e.done > s.jobs[id].reported then e.done
                                            else s.jobs[id].reported)
    && (e.Report? && e.id == id ==> id in s.jobs && s.jobs[id].Playing?)
    && (e == StartPlay(id) ==> id in s.jobs && s.jobs[id].Starting?)
  }

  lemma PlayFromByPlay(s: Registry, e: Event, limit: nat)
    requires Enabled(s, e, limit) && (ByStart(e) || ByReport(e))
    ensures PlayFrom(s, e, Next(s, e, limit), e.id)
  {
    hide Remove, Holders, FailRow, ProgressRow;
  }

  lemma PlayFromByOther(s: Registry, e: Event, limit: nat)
    requires Enabled(s, e, limit) && !ByStart(e) && !ByReport(e) && !ByEnd(e)
    ensures PlayFrom(s, e, Next(s, e, limit), Subject(s, e))
  {
    hide Remove, Holders, FailRow, ProgressRow;
  }

  lemma PlayFromSubject(s: Registry, e: Event, limit: nat)
    requires Enabled(s, e, limit)
    ensures PlayFrom(s, e, Next(s, e, limit), Subject(s, e))
  {
    hide Enabled, Next;
    if ByStart(e) || ByReport(e) {
      PlayFromByPlay(s, e, limit);
    } else if ByEnd(e) {
      EndMeans(s, e, limit);
    } else {
      PlayFromByOther(s, e, limit);
    }
  }

  lemma PlayFromAt(states: seq<Registry>, events: seq<Event>, limit: nat, i: nat, id: int)
    requires IsRun(states, events, limit) && i < |events|
    ensures |states| == |events| + 1 && PlayFrom(states[i], events[i], states[i + 1], id)
  {
    hide Enabled, Next;
    if id == Subject(states[i], events[i]) {
      PlayFromSubject(states[i], events[i], limit);
    } else {
      OthersKept(states[i], events[i], limit, id);
    }
  }

  ghost predicate Unreported(events: seq<Event>, i: nat, id: int)
    requires i <= |events|
  {
    forall k | 0 <= k < i :: !(events[k].Report? && events[k].id == id)
  }

  ghost predicate LargestReport(events: seq<Event>, i: nat, id: int, m: nat)
    requires i <= |events|
  {
    && (forall k | 0 <= k < i && events[k].Report? && events[k].id == id :: events[k].done <= m)
    && (m > 0 ==> exists k :: 0 <= k < i && events[k] == Report(id, m))
  }

  lemma {:induction false} NoReportsYet(states: seq<Registry>, events: seq<Event>, limit: nat, i: nat, id: int)
    requires IsRun(states, events, limit) && i <= |events|
    requires id in states[i].jobs ==> Stage(states[i].jobs[id]) < 2
    ensures Unreported(events, i, id)
  {
    hide Enabled, Next, RowFrom, MarksFrom;
    if i > 0 {
      StepAt(states, events, limit, i - 1, id);
      PlayFromAt(states, events, limit, i - 1, id);
      NoReportsYet(states, events, limit, i - 1, id);
    }
  }

  /** A playing task remembers the largest count it has reported, 0 before the first. */
  lemma {:induction false} ReportedMeans(states: seq<Registry>, events: seq<Event>, limit: nat, i: nat, id: int)
    requires IsRun(states, events, limit) && i <= |events|
    requires id in states[i].jobs && states[i].jobs[id].Playing?
    ensures LargestReport(events, i, id, states[i].jobs[id].reported)
  {
    hide Enabled, Next;
    PlayFromAt(states, events, limit, i - 1, id);
    if events[i - 1] == StartPlay(id) {
      NoReportsYet(states, events, limit, i - 1, id);
    } else {
      ReportedMeans(states, events, limit, i - 1, id);
    }
  }

  lemma PlayMayEnd(s: Registry, limit: nat, id: int, nDone: nat, cancelled: bool, records: bool)
    requires Inv(s, limit) && id in s.jobs && s.jobs[id].Playing?
    ensures Enabled(s, PlayEnd(id, nDone, cancelled, records), limit) <==>
            s.jobs[id].reported <= nDone && (cancelled ==> id in s.cancels)
  {
    assert RunOk(s, id);
    hide RunsOk, KeysOk, CallsOk, OrderOk, ReportsOk, Holders;
  }

  /** How a play may end, told from the events: with any count from the largest it reported on;
      as cancelled only when a cancel has acted on the run, and even then perhaps not: the
      flag may come after the last chunk. */
  lemma PlayEndsIff(states: seq<Registry>, events: seq<Event>, limit: nat, i: nat, id: int,
                    nDone: nat, cancelled: bool, records: bool)
    requires IsRun(states, events, limit) && i <= |events|
    requires id in states[i].jobs && states[i].jobs[id].Playing?
    ensures Enabled(states[i], PlayEnd(id, nDone, cancelled, records), limit) <==>
            && (forall k | 0 <= k < i && events[k].Report? && events[k].id == id :: events[k].done <= nDone)
            && (cancelled ==> exists k :: 0 <= k < i && events[k].CancelAct? && events[k].call in states[k].calls
                                          && states[k].calls[events[k].call].id == id)
  {
    hide Enabled, Next, Inv;
    InvAt(states, events, limit, i);
    PlayMayEnd(states[i], limit, id, nDone, cancelled, records);
    ReportedMeans(states, events, limit, i, id);
    FlagMeans(states, events, limit, i, id);
  }

  // ----- the recorded game -----

  ghost predicate RecordedBetween(events: seq<Event>, i: nat, j: nat, id: int)
    requires j <= |events|
  {
    exists k :: i < k < j && events[k] == RecordEnd(id)
  }

  /** A play that records leaves for the row's UPDATE by way of the recording alone. */
  lemma {:induction false} RecordingFirst(states: seq<Registry>, events: seq<Event>, limit: nat, i: nat,
          j: nat, id: int)
    requires IsRun(states, events, limit) && i < j <= |events|
    requires events[i].PlayEnd? && events[i].id == id && events[i].records && !events[i].cancelled
    ensures id in states[j].jobs && Stage(states[j].jobs[id]) >= 3
    ensures states[j].jobs[id].Finishing? ==> RecordedBetween(events, i, j, id)
    decreases j
  {
    hide Enabled, Next, RowFrom, MarksFrom;
    StepAt(states, events, limit, j - 1, id);
    if j == i + 1 {
      PlayEndStages(states[i], events[i], limit);
    } else {
      RecordingFirst(states, events, limit, i, j - 1, id);
    }
  }

  lemma PlayEndStages(s: Registry, e: Event, limit: nat)
    requires Enabled(s, e, limit) && e.PlayEnd?
    ensures e.id in Next(s, e, limit).jobs
    ensures Stage(Next(s, e, limit).jobs[e.id]) == if e.records && !e.cancelled then 3 else 4
  {
    hide Holders;
  }

  lemma {:induction false} NothingToRecord(states: seq<Registry>, events: seq<Event>, limit: nat, i: nat,
          j: nat, id: int)
    requires IsRun(states, events, limit) && i < j <= |events|
    requires events[i].PlayEnd? && events[i].id == id && !(events[i].records && !events[i].cancelled)
    ensures id in states[j].jobs && Stage(states[j].jobs[id]) >= 4
    decreases j
  {
    hide Enabled, Next, RowFrom, MarksFrom;
    StepAt(states, events, limit, j - 1, id);
    if j == i + 1 {
      PlayEndStages(states[i], events[i], limit);
    } else {
      NothingToRecord(states, events, limit, i, j - 1, id);
    }
  }

  lemma RecordingIsOn(s: Registry, id: int, limit: nat)
    requires Enabled(s, RecordEnd(id), limit)
    ensures id in s.jobs && Stage(s.jobs[id]) == 3
  {
    hide Holders;
  }

  /** The representative game is recorded between the end of the play and the final UPDATE,
      exactly when there is a recorder and the play was not cancelled. */
  lemma RecordsBeforeFinish(states: seq<Registry>, events: seq<Event>, limit: nat, i: nat, j: nat, id: int)
    requires IsRun(states, events, limit) && i < j < |events|
    requires events[i].PlayEnd? && events[i].id == id && events[j] == WriteFinish(id)
    ensures (exists k :: i < k < j && events[k] == RecordEnd(id)) <==> events[i].records && !events[i].cancelled
  {
    hide Enabled, Next, Inv;
    if events[i].records && !events[i].cancelled {
      InvAt(states, events, limit, j);
      FinishWrites(states[j], id, limit);
      RecordingFirst(states, events, limit, i, j, id);
    } else {
      forall k | i < k < j ensures events[k] != RecordEnd(id) {
        NothingToRecord(states, events, limit, i, k, id);
        if events[k] == RecordEnd(id) {
          RecordingIsOn(states[k], id, limit);
        }
      }
    }
  }
}
