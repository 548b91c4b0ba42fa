/** The registry object: the code that runs between two awaits, on the object's own
    fields. Each method is one event of the state machine, which `world` records; the
    table, the event loop and the coroutines of other calls live in `world` alone. */
module SimJobRegistry {
  import opened SimJobs
  import opened SimJobsRuns

  class Jobs {
    var queue: seq<int>
    var cancels: set<int>
    var tasks: set<int>
    ghost var world: Registry

    ghost predicate Valid()
      reads this
    {
      world.queue == queue && world.cancels == cancels && world.tasks == tasks
    }

    constructor ()
      ensures Valid() && world == EMPTY
    {
      queue, cancels, tasks := [], {}, {};
      world := EMPTY;
    }

    /** `submit` after its INSERT: queue the run and create its task. */
    method StartTask(runId: int, ghost limit: nat)
      requires Valid() && Enabled(world, SubmitStart(runId), limit)
      modifies this
      ensures Valid() && world == Next(old(world), SubmitStart(runId), limit)
    {
      queue := queue + [runId];
      tasks := tasks + {runId};
      world := Next(world, SubmitStart(runId), limit);
    }

    /** `cancel` after it has read the row: flag the run, and take it out of the queue
        when it still waits there. */
    method FlagAndWithdraw(runId: int, status: Status, ghost call: int, ghost limit: nat) returns (withdrawn: bool)
      requires Valid() && Enabled(world, CancelAct(call), limit)
      requires world.calls[call] == CancelCall(runId, HasRead(status))
      modifies this
      ensures Valid() && world == Next(old(world), CancelAct(call), limit)
      ensures withdrawn <==> status == Queued && runId in old(queue)
    {
      cancels := cancels + {runId};
      withdrawn := status == Queued && runId in queue;
      if withdrawn {
        queue := Remove(queue, runId);
      }
      world := Next(world, CancelAct(call), limit);
    }

    /** `cancel` after its UPDATE: forget the task and cancel it. */
    method CancelTask(runId: int, ghost call: int, ghost limit: nat) returns (cancelled: bool)
      requires Valid() && Enabled(world, CancelEnd(call), limit)
      requires world.calls[call].id == runId
      modifies this
      ensures Valid() && world == Next(old(world), CancelEnd(call), limit)
      ensures cancelled <==> runId in old(tasks)
    {
      cancelled := runId in tasks;
      tasks := tasks - {runId};
      world := Next(world, CancelEnd(call), limit);
    }

    /** `_run` once it holds the semaphore: leave the queue, and drop a cancelled run. */
    method EnterSlot(runId: int, ghost limit: nat) returns (drop: bool)
      requires Valid() && Enabled(world, Enter(runId), limit)
      modifies this
      ensures Valid() && world == Next(old(world), Enter(runId), limit)
      ensures drop <==> runId in cancels
    {
      if runId in queue {
        queue := Remove(queue, runId);
      }
      drop := runId in cancels;
      world := Next(world, Enter(runId), limit);
    }

    /** The `finally` of `_run`, after the last UPDATE of the run. */
    method Finally(runId: int, ghost last: Event, ghost limit: nat)
      requires Valid() && Enabled(world, last, limit)
      requires last in {Interrupt(runId), EndDropped(runId), EndFinish(runId), EndFailed(runId), FailLost(runId)}
      modifies this
      ensures Valid() && world == Next(old(world), last, limit)
    {
      tasks := tasks - {runId};
      cancels := cancels - {runId};
      world := Next(world, last, limit);
    }

    /** `position`. */
    method PositionOf(runId: int) returns (place: nat)
      ensures place == Position(queue, runId)
    {
      place := 0;
      var k := 0;
      while k < |queue|
        invariant 0 <= k <= |queue|
        invariant forall h | 0 <= h < k :: queue[h] != runId
      {
        if queue[k] == runId {
          PositionMeans(queue, runId);
          return k + 1;
        }
        k := k + 1;
      }
      PositionMeans(queue, runId);
    }
  }
}
