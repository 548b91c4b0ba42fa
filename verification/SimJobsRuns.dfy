/** The promises of the run-job registry, over every run of every interleaving. */
module SimJobsRuns {
  import opened SimJobs
  import opened SimJobsSafety

  lemma {:induction false} InvAt(states: seq<Registry>, events: seq<Event>, limit: nat, i: nat)
    requires IsRun(states, events, limit) && i < |states|
    ensures Inv(states[i], limit)
  {
    hide Inv, Next, Enabled;
    if i == 0 {
      InvAtBoot(limit);
    } else {
      InvAt(states, events, limit, i - 1);
      InvKept(states[i - 1], events[i - 1], limit);
    }
  }

  lemma InvAtBoot(limit: nat)
    ensures Inv(EMPTY, limit)
  {
    assert Holders(EMPTY) == {};
  }

  // ----- one row -----

  /** The two UPDATEs without a status guard only ever meet the row they expect. */
  lemma UnguardedWritesAreSafe(s: Registry, id: int, limit: nat)
    requires Inv(s, limit)
    ensures Enabled(s, WriteRunning(id), limit) ==> id in s.rows && s.rows[id].status == Queued
    ensures Enabled(s, WriteFinish(id), limit) ==>
            && id in s.rows && s.rows[id].status == Running
            && s.rows[id].progress <= s.jobs[id].nDone && !s.jobs[id].status.Active()
  {
    assert RunOk(s, id);
    hide RunsOk, KeysOk, CallsOk, OrderOk, ReportsOk, Holders;
  }

  lemma RowMovesAtStep(s: Registry, e: Event, limit: nat, id: int)
    requires Inv(s, limit) && Enabled(s, e, limit) && id in s.rows
    ensures id in Next(s, e, limit).rows
    ensures RowMoves(s.rows[id], Next(s, e, limit).rows[id])
  {
    hide Inv, Next, Enabled, RunOk, RowMoves;
    RunKept(s, e, limit, id);
  }

  lemma {:induction false} RowHistory(states: seq<Registry>, events: seq<Event>, limit: nat, i: nat, j: nat, id: int)
    requires IsRun(states, events, limit) && i <= j < |states|
    requires id in states[i].rows
    ensures id in states[j].rows
    ensures states[i].rows[id].progress <= states[j].rows[id].progress
    ensures !states[i].rows[id].status.Active() ==> states[j].rows[id] == states[i].rows[id]
    ensures states[i].rows[id].key == states[j].rows[id].key
    ensures states[i].rows[id].status == Running ==> states[j].rows[id].status != Queued
    decreases j
  {
    hide Inv, Next, Enabled;
    if i < j {
      RowHistory(states, events, limit, i, j - 1, id);
      InvAt(states, events, limit, j - 1);
      RowMovesAtStep(states[j - 1], events[j - 1], limit, id);
    }
  }

  /** A run that reached done, failed or cancelled never changes again. */
  lemma TerminalForever(states: seq<Registry>, events: seq<Event>, limit: nat, i: nat, j: nat, id: int)
    requires IsRun(states, events, limit) && i <= j < |states|
    requires id in states[i].rows && !states[i].rows[id].status.Active()
    ensures id in states[j].rows && states[j].rows[id] == states[i].rows[id]
  {
    hide IsRun;
    RowHistory(states, events, limit, i, j, id);
  }

  /** The progress bar never moves backwards, the final count included. */
  lemma ProgressNeverFalls(states: seq<Registry>, events: seq<Event>, limit: nat, i: nat, j: nat, id: int)
    requires IsRun(states, events, limit) && i <= j < |states|
    requires id in states[i].rows
    ensures id in states[j].rows && states[i].rows[id].progress <= states[j].rows[id].progress
  {
    hide IsRun;
    RowHistory(states, events, limit, i, j, id);
  }

  // ----- every state of a run -----

  /** At most `limit` jobs are inside the semaphore, and a job is inside it all the time it
      plays, records and writes its result. */
  lemma AtMostLimitPlay(states: seq<Registry>, events: seq<Event>, limit: nat, i: nat)
    requires IsRun(states, events, limit) && i < |states|
    ensures |Holders(states[i])| <= limit
    ensures forall id | id in states[i].jobs :: id in Holders(states[i]) <==>
              var pc := states[i].jobs[id];
              pc.Dropping? || pc.Starting? || pc.Playing? || pc.Recording? || pc.Finishing?
  {
    InvAt(states, events, limit, i);
    hide IsRun, RunsOk, KeysOk, CallsOk, OrderOk, ReportsOk;
  }

  /** One active run per key. */
  lemma OneActiveRunPerKey(states: seq<Registry>, events: seq<Event>, limit: nat, i: nat, a: int, b: int)
    requires IsRun(states, events, limit) && i < |states|
    requires a in states[i].rows && b in states[i].rows
    requires states[i].rows[a].status.Active() && states[i].rows[b].status.Active()
    requires states[i].rows[a].key == states[i].rows[b].key
    ensures a == b
  {
    InvAt(states, events, limit, i);
    hide IsRun, RunsOk, CallsOk, OrderOk, ReportsOk, Holders;
  }

  /** `position`: the 1-based place in the queue, or 0 when the run is not waiting. */
  function Position(queue: seq<int>, id: int): nat {
    if |queue| == 0 then 0
    else if queue[0] == id then 1
    else
      var rest := Position(queue[1..], id);
      if rest == 0 then 0 else rest + 1
  }

  lemma {:induction false} PositionMeans(queue: seq<int>, id: int)
    ensures Position(queue, id) <= |queue|
    ensures Position(queue, id) > 0 <==> id in queue
    ensures Position(queue, id) > 0 ==> queue[Position(queue, id) - 1] == id
    ensures forall k | 0 <= k < Position(queue, id) - 1 :: queue[k] != id
  {
    if |queue| > 0 {
      PositionMeans(queue[1..], id);
      assert queue == [queue[0]] + queue[1..];
    }
  }

  /** The waiting runs hold the positions 1 to n, one each, and every run in the queue
      is queued in the table. */
  lemma PositionsAreExact(states: seq<Registry>, events: seq<Event>, limit: nat, i: nat, k: nat)
    requires IsRun(states, events, limit) && i < |states|
    requires k < |states[i].queue|
    ensures Position(states[i].queue, states[i].queue[k]) == k + 1
    ensures states[i].queue[k] in states[i].rows
    ensures states[i].rows[states[i].queue[k]].status == Queued
  {
    InvAt(states, events, limit, i);
    QueueDistinct(states[i]);
    PositionMeans(states[i].queue, states[i].queue[k]);
    assert RunOk(states[i], states[i].queue[k]) && states[i].queue[k] in states[i].queue;
    hide IsRun, RunsOk, KeysOk, CallsOk, OrderOk, ReportsOk, Holders;
  }

  /** Jobs enter the semaphore in submit order: the entered list is the start of the
      submitted list once the runs cancelled while waiting are taken out, and each of
      those is cancelled in the table. */
  lemma EntersInSubmitOrder(states: seq<Registry>, events: seq<Event>, limit: nat, i: nat)
    requires IsRun(states, events, limit) && i < |states|
    ensures states[i].entered <= Without(states[i].submitted, states[i].skipped)
    ensures forall id | id in states[i].skipped ::
              id in states[i].rows && states[i].rows[id].status == Cancelled
  {
    InvAt(states, events, limit, i);
    hide IsRun, KeysOk, CallsOk, ReportsOk, Holders, Without;
    forall id | id in states[i].skipped
      ensures id in states[i].rows && states[i].rows[id].status == Cancelled
    {
      assert RunOk(states[i], id);
    }
  }

  // ----- who starts next -----

  /** The event takes a run out of the queue and into the semaphore. */
  ghost predicate Admits(s: Registry, e: Event) {
    e.Enter? && e.id in s.queue
  }

  lemma {:induction false} RemoveKeepsPrefix(front: seq<int>, back: seq<int>, x: int)
    ensures Remove(front, x) <= Remove(front + back, x)
  {
    if |front| == 0 {
      assert front + back == back;
    } else {
      assert (front + back)[1..] == front[1..] + back;
      RemoveKeepsPrefix(front[1..], back, x);
    }
  }

  /** A step that admits no one takes from the queue only the run it withdraws. */
  lemma {:induction false} QueueStep(s: Registry, e: Event, limit: nat, was: seq<int>)
    requires Enabled(s, e, limit) && !Admits(s, e) && Distinct(was)
    requires Without(was, s.withdrawn) <= s.queue
    ensures Without(was, Next(s, e, limit).withdrawn) <= Next(s, e, limit).queue
  {
    if e.CancelAct? {
      QueueStepByAct(s, e.call, was);
    } else if Reorders(s, e) {
      hide Holders, Without;
    } else {
      hide Enabled, Next, Without, Reorders;
      StepLeaves(s, e, limit);
    }
  }

  lemma {:induction false} QueueStepByAct(s: Registry, call: int, was: seq<int>)
    requires call in s.calls && s.calls[call].pc.HasRead? && Distinct(was)
    requires Without(was, s.withdrawn) <= s.queue
    ensures Without(was, Act(s, call).withdrawn) <= Act(s, call).queue
  {
    hide Without, Remove, Distinct;
    var id := s.calls[call].id;
    var left := Without(was, s.withdrawn);
    assert s.queue == left + s.queue[|left|..];
    WithoutOneMore(was, s.withdrawn, id);
    RemoveKeepsPrefix(left, s.queue[|left|..], id);
  }

  /** While no one is admitted, the queue begins with what it was, less the withdrawn. */
  lemma {:induction false} QueueSince(states: seq<Registry>, events: seq<Event>, limit: nat, i: nat, j: nat)
    requires IsRun(states, events, limit) && i <= j < |states|
    requires forall h | i <= h < j :: !Admits(states[h], events[h])
    ensures Without(states[i].queue, states[j].withdrawn) <= states[j].queue
    decreases j
  {
    hide Inv, Next, Enabled, Without;
    InvAt(states, events, limit, i);
    QueueIsSettled(states[i], limit);
    if i < j {
      QueueSince(states, events, limit, i, j - 1);
      QueueStep(states[j - 1], events[j - 1], limit, states[i].queue);
    }
  }

  lemma {:induction false} WithoutTwice(s: seq<int>, out: set<int>)
    ensures Without(Without(s, out), out) == Without(s, out)
  {
    if |s| > 0 {
      var rest := Without(s[1..], out);
      WithoutTwice(s[1..], out);
      if s[0] in out {
        assert Without(s, out) == rest;
      } else {
        assert Without(s, out) == [s[0]] + rest;
        assert ([s[0]] + rest)[1..] == rest;
      }
    }
  }

  lemma QueueIsSettled(s: Registry, limit: nat)
    requires Inv(s, limit)
    ensures Distinct(s.queue) && Without(s.queue, s.withdrawn) == s.queue
    ensures |s.waiters| > 0 && s.waiters[0] in s.queue ==> s.queue[0] == s.waiters[0]
  {
    hide RunsOk, KeysOk, CallsOk, ReportsOk, Holders, Distinct;
    QueueDistinct(s);
    WithoutMeans(s.waiters, s.withdrawn);
    WithoutTwice(s.waiters, s.withdrawn);
  }

  /** The head of the queue is the next run to start. Whatever happens between a state `i`
      and the next admission at `j`, the admitted run is the first of the queue of state `i`
      that no cancel has withdrawn meanwhile (and when none is left, the first to have joined
      the queue since). The admitted run starts exactly when no cancel has flagged it, and no
      run starts except from the queue. */
  lemma HeadIsNext(states: seq<Registry>, events: seq<Event>, limit: nat, i: nat, j: nat, id: int)
    requires IsRun(states, events, limit) && i <= j < |events|
    requires events[j] == Enter(id)
    requires forall h | i <= h < j :: !Admits(states[h], events[h])
    ensures id in states[j + 1].jobs
    ensures states[j + 1].jobs[id].Starting? <==> id !in states[j].cancels
    ensures states[j + 1].jobs[id].Starting? ==> id in states[j].queue
    ensures id in states[j].queue ==>
              && states[j].queue[0] == id
              && var left := Without(states[i].queue, states[j].withdrawn);
                 |left| > 0 ==> left[0] == id
  {
    hide Inv, Without, Enabled, Next;
    InvAt(states, events, limit, j);
    QueueSince(states, events, limit, i, j);
    QueueIsSettled(states[j], limit);
    EntersFromQueue(states[j], id, limit);
  }

  lemma EntersFromQueue(s: Registry, id: int, limit: nat)
    requires Inv(s, limit) && Enabled(s, Enter(id), limit)
    ensures |s.waiters| > 0 && s.waiters[0] == id
    ensures id in Next(s, Enter(id), limit).jobs
    ensures Next(s, Enter(id), limit).jobs[id].Starting? <==> id !in s.cancels
    ensures Next(s, Enter(id), limit).jobs[id].Starting? ==> id in s.queue
  {
    assert RunOk(s, id);
    hide RunsOk, KeysOk, CallsOk, ReportsOk, OrderOk, Holders;
  }

  // ----- the count that the restart waits for -----

  /** No run is forgotten: an active row has a live task, or its submit is about to
      start one, or a write for it failed (`lost`). */
  lemma ActiveRowsAreCounted(states: seq<Registry>, events: seq<Event>, limit: nat, i: nat, id: int)
    requires IsRun(states, events, limit) && i < |states|
    requires id in states[i].rows && states[i].rows[id].status.Active()
    ensures id in states[i].tasks || id in states[i].inserting || id in states[i].lost
  {
    InvAt(states, events, limit, i);
    assert RunOk(states[i], id);
    hide IsRun, RunsOk, KeysOk, CallsOk, OrderOk, ReportsOk, Holders;
  }

  lemma {:induction false} NothingLost(states: seq<Registry>, events: seq<Event>, limit: nat, i: nat)
    requires IsRun(states, events, limit) && i < |states|
    requires forall k | 0 <= k < |events| :: !WriteFails(events[k])
    ensures states[i].lost == {}
  {
    hide Next, Enabled, SameLists, Reorders;
    if i > 0 {
      NothingLost(states, events, limit, i - 1);
      StepLeaves(states[i - 1], events[i - 1], limit);
    }
  }

  /** Exactly when the count the restart waits for is right: while row writes succeed, a
      count of zero means no active row if and only if no INSERT is in flight. */
  lemma ZeroMeansIdle(states: seq<Registry>, events: seq<Event>, limit: nat, i: nat)
    requires IsRun(states, events, limit) && i < |states|
    requires forall k | 0 <= k < |events| :: !WriteFails(events[k])
    requires states[i].tasks == {}
    ensures (forall id | id in states[i].rows :: !states[i].rows[id].status.Active())
            <==> states[i].inserting == {}
  {
    hide IsRun, RunsOk, KeysOk, CallsOk, OrderOk, ReportsOk, Holders;
    NothingLost(states, events, limit, i);
    forall id | id in states[i].rows && states[i].rows[id].status.Active() ensures id in states[i].inserting {
      ActiveRowsAreCounted(states, events, limit, i, id);
    }
    InvAt(states, events, limit, i);
    if exists id :: id in states[i].inserting {
      var id :| id in states[i].inserting;
      InsertedIsActive(states[i], id);
    } else {
      assert states[i].inserting == {};
    }
  }

  lemma InsertedIsActive(s: Registry, id: int)
    requires RunsOk(s) && id in s.inserting
    ensures id in s.rows && s.rows[id].status.Active()
  {
    assert RunOk(s, id);
  }

  /** The gap is one step wide: the first INSERT leaves a queued row and a count of zero. */
  lemma InsertIsNotCounted(key: int, limit: nat)
    ensures IsRun([EMPTY, Insert(EMPTY, key)], [SubmitInsert(key)], limit)
    ensures Insert(EMPTY, key).tasks == {}
    ensures 0 in Insert(EMPTY, key).rows && Insert(EMPTY, key).rows[0].status == Queued
  {
  }

  /** A run withdrawn from the queue by a cancel never plays. */
  lemma WithdrawnNeverPlays(states: seq<Registry>, events: seq<Event>, limit: nat, i: nat, id: int)
    requires IsRun(states, events, limit) && i < |states|
    requires id in states[i].withdrawn
    ensures id in states[i].jobs && id in states[i].rows
    ensures !states[i].jobs[id].Playing? && states[i].rows[id].status != Running
    ensures states[i].rows[id].status != Done
  {
    InvAt(states, events, limit, i);
    assert RunOk(states[i], id);
    hide IsRun, RunsOk, KeysOk, CallsOk, OrderOk, ReportsOk, Holders;
  }
}
