// CTaskSchedulerImpl as an object. Each method is one or more of the machine's steps without
// interruption; interleavings are the subject of SchedulerRuns.
module TaskScheduler {
  import opened Wrappers
  import opened TaskMap
  import opened Scheduler
  import opened SchedulerSafety
  import opened SchedulerCalls
  import opened SchedulerEffects

  const INVALID_TASK_ID: int := -1

  const VERSION: nat := 1

  // What PostTask finds in the caller's record.
  datatype Request = Request(hasName: bool, hasFunction: bool, version: nat, task: Task)

  // The begin() of a key-ordered map's remaining part.
  method First(keys: set<nat>) returns (k: nat)
    requires keys != {}
    ensures k == Least(keys)
  {
    ghost var least := Least(keys);
    k :| k in keys && forall j :: j in keys ==> k <= j;
  }

  class TaskSchedulerImpl {
    var tasks: Tasks
    var nextId: nat
    var clock: nat     // CLOCK_MONOTONIC, in nanoseconds

    ghost var phase: Phase
    ghost var history: seq<Event>
    ghost var issued: seq<Draft>
    ghost var finished: set<nat>
    ghost var erased: set<nat>

    ghost function State(): Scheduler.State
      reads this
    {
      Scheduler.State(clock, tasks, nextId, phase, map[], history, issued, finished, erased)
    }

    ghost predicate Valid()
      reads this
    {
      Inv(State()) && phase == Waiting
    }

    constructor ()
      ensures Valid() && Initial(State())
    {
      tasks, nextId := map[], 0;
      clock, phase, history, issued, finished, erased := 0, Waiting, [], [], {}, {};
      new;
      InitialInv(State());
    }

    // A clock reading: any time not before the last one.
    method ReadClock() returns (now: nat, ghost steps: seq<Step>)
      requires Inv(State())
      modifies this`clock
      ensures Inv(State()) && now == clock >= old(clock)
      ensures Leads(old(State()), steps, State()) && steps == [Tick(clock - old(clock))]
    {
      hide Inv, Leads;
      var passed: nat :| 0 <= passed;
      LeadsOne(State(), Tick(passed));
      clock := clock + passed;
      now, steps := clock, [Tick(passed)];
    }

    // Linear probing, under the lock.
    method FreeKey(base: nat) returns (k: nat)
      ensures k == Probe(tasks, base)
    {
      k := base;
      while k in tasks
        invariant base <= k && Probe(tasks, k) == Probe(tasks, base)
        decreases |KeysFrom(tasks, k)|
      {
        KeysFromStep(tasks, k);
        k := k + 1;
      }
    }

    // The locked section of PostTask, for a clock reading taken before it.
    method Insert(now: nat, task: Task) returns (id: nat)
      modifies this`tasks, this`nextId, this`issued
      ensures id == old(nextId) && State() == Inserted(old(State()), now, task)
      ensures exists k: nat ::
        && FreeAfter(old(tasks), now, task.delayUs, k)
        && tasks == old(tasks)[k := NewEntry(task, id)]
    {
      hide Probe;
      var k := FreeKey(now + task.delayUs * MICRO);
      tasks := tasks[k := TaskEx(task, task.cancelled, false, 0, nextId)];
      id := nextId;
      nextId := nextId + 1;
      issued := issued + [Draft(now, task)];
      assert FreeAfter(old(tasks), now, task.delayUs, k);
    }

    // PostTask: a null or malformed request is refused and changes nothing; otherwise the
    // task is in the map under the next id, at the first free key from its time on.
    method PostTask(request: Option<Request>)
        returns (id: int, error: ErrorCode, ghost steps: seq<Step>)
      requires Valid()
      modifies this
      ensures Valid() && Leads(old(State()), steps, State())
      ensures error == match request
                       case None => InvalidParam
                       case Some(r) =>
                         if !r.hasName || !r.hasFunction || r.version != VERSION then InvalidParam else Success
      ensures error != Success ==> id == INVALID_TASK_ID && State() == old(State())
      ensures error == Success ==> id == old(nextId) && old(clock) <= clock
      ensures error == Success ==>
        && nextId == old(nextId) + 1
        && exists k: nat ::
             && FreeAfter(old(tasks), clock, request.value.task.delayUs, k)
             && tasks == old(tasks)[k := NewEntry(request.value.task, old(nextId))]
      ensures error == Success ==>
        State() == old(State()).(clock := clock, tasks := tasks, nextId := nextId,
                                 issued := old(issued) + [Draft(clock, request.value.task)])
    {
      hide Inv, Leads, FreeAfter;
      if request.None? {
        LeadsNowhere(State());
        return INVALID_TASK_ID, InvalidParam, [];
      }
      var r := request.value;
      if !r.hasName || !r.hasFunction || r.version != VERSION {
        LeadsNowhere(State());
        return INVALID_TASK_ID, InvalidParam, [];
      }
      ghost var before := State();
      var now, read := ReadClock();
      ghost var ticked := State();
      PostLeads(ticked, r.task);
      id := Insert(now, r.task);
      error, steps := Success, read + [ReadPostClock(0, r.task), InsertPost(0)];
      LeadsThen(before, read, ticked, [ReadPostClock(0, r.task), InsertPost(0)], State());
    }

    // CancleTask: the entries are visited in key order.
    method CancelTask(id: nat) returns (error: ErrorCode)
      requires Valid()
      modifies this`tasks
      ensures Leads(old(State()), [Cancel(id)], State())
      ensures Valid() && State() == DoCancel(old(State()), id)
      ensures error == if Pending(old(tasks), id) then Success else InvalidParam
      ensures error == Success ==>
        exists k :: && k in old(tasks) && old(tasks)[k].id == id
                    && tasks == old(tasks)[k := old(tasks)[k].(cancelled := true)]
      ensures error != Success ==> tasks == old(tasks)
    {
      hide Inv, Leads;
      LeadsOne(State(), Cancel(id));
      ghost var hits := set k | k in tasks.Keys && tasks[k].id == id;
      if Pending(tasks, id) {
        ghost var k :| k in tasks && tasks[k].id == id;
        assert k in hits;
      }
      var rest := tasks.Keys;
      while rest != {}
        invariant tasks == old(tasks) && rest <= tasks.Keys
        invariant hits <= rest
        invariant forall j, k :: j in tasks && j !in rest && k in rest ==> j < k
      {
        var k := First(rest);
        if tasks[k].id == id {
          assert k in hits && Least(hits) == k;
          tasks := tasks[k := tasks[k].(cancelled := true)];
          return Success;
        }
        rest := rest - {k};
      }
      assert hits == {};
      return InvalidParam;
    }

    // Run's first locked section: collect due tasks from the smallest key on.
    method CollectBatch(now: nat) returns (batch: seq<nat>)
      modifies this`tasks
      ensures (tasks, batch) == Collect(old(tasks), now)
    {
      batch := [];
      var iter: nat := 0;
      ghost var all := Collect(tasks, now);
      while KeysFrom(tasks, iter) != {}
        invariant CollectFrom(tasks, iter, now, batch) == all && |batch| < BATCH
        decreases |KeysFrom(tasks, iter)|
      {
        var k := First(KeysFrom(tasks, iter));
        if tasks[k].cancelled {
          SmallerAfterErase(tasks, iter, k);
          tasks := tasks - {k};
          iter := k;
          continue;
        }
        if k > now {
          return;
        }
        ghost var before := tasks;
        tasks := tasks[k := tasks[k].(running := true)];
        SmallerAfterStep(before, tasks, iter, k);
        batch := batch + [k];
        iter := k + 1;
        if |batch| >= BATCH {
          return;
        }
      }
    }

    // Run's unlocked section for one task: call it, then count the execution. The task
    // function takes its time.
    method Execute(k: nat) returns (ghost steps: seq<Step>)
      requires Inv(State()) && Scheduler.Enabled(State(), BeginTask) && k == phase.batch[phase.next]
      modifies this`tasks, this`history, this`phase, this`clock
      ensures Inv(State()) && old(clock) <= clock
      ensures phase == Executing(old(phase).batch, old(phase).next + 1, false)
      ensures k in old(tasks) && history == old(history) + [Event(old(tasks)[k].id, old(clock))]
      ensures tasks == old(tasks)[k := old(tasks)[k].(count := old(tasks)[k].count + 1)]
      ensures Leads(old(State()), steps, State()) && RunStepsOnly(steps) && Starts(steps) == 0
    {
      hide Inv, Leads;
      ghost var before := State();
      NextIsReady(before);
      LeadsOne(before, BeginTask);
      history := history + [Event(tasks[k].id, clock)];
      phase := phase.(inside := true);
      ghost var begun := State();
      var now, passed := ReadClock();
      ghost var ran := State();
      LeadsThen(before, [BeginTask], begun, passed, ran);
      LeadsOne(ran, EndTask);
      tasks := tasks[k := tasks[k].(count := tasks[k].count + 1)];
      phase := Executing(phase.batch, phase.next + 1, false);
      LeadsThen(before, [BeginTask] + passed, ran, [EndTask], State());
      steps := [BeginTask] + passed + [EndTask];
      StartsAdd([BeginTask] + passed, [EndTask]);
      StartsAdd([BeginTask], passed);
    }

    // Run's last locked section for one task: put it back or let it go.
    method Rekey(k: nat) returns (ghost steps: seq<Step>)
      requires Inv(State()) && Scheduler.Enabled(State(), Scheduler.Rekey) && k == phase.batch[phase.next]
      modifies this`tasks, this`clock, this`phase, this`finished
      ensures Inv(State())
      ensures old(clock) <= clock && k in old(tasks)
      ensures State() == DoRekey(old(State()).(clock := clock))
      ensures var t := old(tasks)[k];
              if t.task.kind.RunPeriodic? || t.count < t.task.execTimes then
                && finished == old(finished)
                && exists k': nat ::
                     && FreeAfter(old(tasks), clock, t.task.intervalUs, k')
                     && tasks == old(tasks)[k' := t.(running := false)] - {k}
              else tasks == old(tasks) - {k} && finished == old(finished) + {t.id}
      ensures phase == Rekeying(old(phase).batch, old(phase).next + 1)
      ensures Leads(old(State()), steps, State()) && RunStepsOnly(steps) && Starts(steps) == 0
    {
      hide Inv, Leads, Probe;
      ghost var before := State();
      RekeyPhase(before);
      LeadsNowhere(before);
      steps := [];
      var t := tasks[k].(running := false);
      var again := t.task.kind.RunPeriodic? || t.count < t.task.execTimes;
      if again {
        var now;
        now, steps := ReadClock();
      }
      ghost var ticked := State();
      LeadsOne(ticked, Scheduler.Rekey);
      if again {
        var k' := FreeKey(clock + t.task.intervalUs * MICRO);
        assert FreeAfter(tasks, clock, t.task.intervalUs, k');
        tasks := tasks[k' := t];
      } else {
        finished := finished + {t.id};
      }
      phase := Rekeying(phase.batch, phase.next + 1);
      tasks := tasks - {k};
      LeadsThen(before, steps, ticked, [Scheduler.Rekey], State());
      steps := steps + [Scheduler.Rekey];
    }

    // The clock reading and the first locked section.
    method Select() returns (now: nat, batch: seq<nat>, ghost steps: seq<Step>)
      requires Valid()
      modifies this`clock, this`phase, this`tasks, this`erased
      ensures Inv(State()) && old(clock) <= now == clock
      ensures phase == Executing(batch, 0, false) && batch == Collect(old(tasks), now).1
      ensures forall k :: k in batch ==> k in old(tasks) && k in tasks && tasks[k].id == old(tasks)[k].id
      ensures Leads(old(State()), steps, State()) && RunStepsOnly(steps) && Starts(steps) == 1
    {
      hide Inv, Collect, Leads;
      ghost var before := State();
      ghost var ticked, stamped;
      now, steps := ReadClock();
      ticked := State();
      LeadsOne(ticked, StampRun);
      phase := Stamped(now);
      stamped := State();
      LeadsThen(before, steps, ticked, [StampRun], stamped);
      LeadsOne(stamped, Scheduler.CollectBatch);
      CollectKeeps(tasks, now);
      batch := CollectBatch(now);
      phase := Executing(batch, 0, false);
      erased := erased + (IdsOf(stamped.tasks) - IdsOf(tasks));
      assert State() == DoCollect(stamped);
      LeadsThen(before, steps + [StampRun], stamped, [Scheduler.CollectBatch], State());
      StartsAdd(steps + [StampRun], [Scheduler.CollectBatch]);
      StartsAdd(steps, [StampRun]);
      steps := steps + [StampRun] + [Scheduler.CollectBatch];
    }

    // The loop over the batch without the lock.
    method ExecuteAll(batch: seq<nat>, ghost m: Tasks) returns (ghost steps: seq<Step>)
      requires Inv(State()) && phase == Executing(batch, 0, false)
      requires forall k :: k in batch ==> k in m && k in tasks && tasks[k].id == m[k].id
      modifies this`tasks, this`history, this`phase, this`clock
      ensures Inv(State()) && phase == Executing(batch, |batch|, false) && old(clock) <= clock
      ensures Ran(m, batch, old(history), history)
      ensures Leads(old(State()), steps, State()) && RunStepsOnly(steps) && Starts(steps) == 0
    {
      hide Inv, Leads;
      LeadsNowhere(State());
      steps := [];
      for i := 0 to |batch|
        invariant Inv(State()) && phase == Executing(batch, i, false) && old(clock) <= clock
        invariant forall k :: k in batch ==> k in m && k in tasks && tasks[k].id == m[k].id
        invariant Ran(m, batch[..i], old(history), history)
        invariant Leads(old(State()), steps, State()) && RunStepsOnly(steps) && Starts(steps) == 0
      {
        ghost var ran := State();
        ghost var more := Execute(batch[i]);
        RanMore(m, batch, i, old(history), ran.history, history);
        LeadsThen(old(State()), steps, ran, more, State());
        StartsAdd(steps, more);
        steps := steps + more;
      }
      assert batch[..|batch|] == batch;
    }

    // The last loop, one locked section for each task.
    method RekeyAll(batch: seq<nat>) returns (ghost steps: seq<Step>)
      requires Inv(State()) && phase == Rekeying(batch, 0)
      modifies this`tasks, this`clock, this`phase, this`finished
      ensures Inv(State()) && phase == Rekeying(batch, |batch|) && old(clock) <= clock
      ensures Leads(old(State()), steps, State()) && RunStepsOnly(steps) && Starts(steps) == 0
    {
      hide Inv, DoRekey, Leads;
      LeadsNowhere(State());
      steps := [];
      for i := 0 to |batch|
        invariant Inv(State()) && phase == Rekeying(batch, i) && old(clock) <= clock
        invariant Leads(old(State()), steps, State()) && RunStepsOnly(steps) && Starts(steps) == 0
      {
        ghost var ran := State();
        ghost var more := Rekey(batch[i]);
        LeadsThen(old(State()), steps, ran, more, State());
        StartsAdd(steps, more);
        steps := steps + more;
      }
    }

    // Run, after the wait: collect, execute, re-key. The tasks executed are the batch for
    // some clock reading during the call, each once, in key order; the whole call is one
    // Run of the machine, so the map it leaves is the machine's.
    method Run() returns (ghost steps: seq<Step>)
      requires Valid()
      modifies this
      ensures Valid() && old(clock) <= clock
      ensures Leads(old(State()), steps, State()) && RunStepsOnly(steps) && Starts(steps) == 1
      ensures exists now: nat ::
        old(clock) <= now <= clock && Ran(old(tasks), Collect(old(tasks), now).1, old(history), history)
    {
      hide Inv, Collect, Ran, Leads;
      ghost var before, m := State(), tasks;
      var now, batch, select := Select();
      ghost var selected := State();
      ghost var execute := ExecuteAll(batch, m);
      ghost var executed := State();
      LeadsThen(before, select, selected, execute, executed);
      LeadsOne(executed, StartRekey);
      phase := Rekeying(batch, 0);
      ghost var started := State();
      LeadsThen(before, select + execute, executed, [StartRekey], started);
      ghost var rekey := RekeyAll(batch);
      ghost var rekeyed := State();
      LeadsThen(before, select + execute + [StartRekey], started, rekey, rekeyed);
      LeadsOne(rekeyed, EndRun);
      phase := Waiting;
      LeadsThen(before, select + execute + [StartRekey] + rekey, rekeyed, [EndRun], State());
      steps := select + execute + [StartRekey] + rekey + [EndRun];
      OneStart(select, execute, rekey);
      assert old(clock) <= now <= clock && Ran(m, Collect(m, now).1, old(history), history);
    }
  }

  lemma OneStart(select: seq<Step>, execute: seq<Step>, rekey: seq<Step>)
    requires Starts(select) == 1 && Starts(execute) == Starts(rekey) == 0
    requires RunStepsOnly(select) && RunStepsOnly(execute) && RunStepsOnly(rekey)
    ensures var steps := select + execute + [StartRekey] + rekey + [EndRun];
            Starts(steps) == 1 && RunStepsOnly(steps)
  {
    StartsAdd(select, execute);
    StartsAdd(select + execute, [StartRekey]);
    StartsAdd(select + execute + [StartRekey], rekey);
    StartsAdd(select + execute + [StartRekey] + rekey, [EndRun]);
  }

  // One execution for each key of the batch, in order, and nothing else.
  ghost predicate Ran(m: Tasks, batch: seq<nat>, before: seq<Event>, after: seq<Event>) {
    && |after| == |before| + |batch| && before <= after
    && forall i :: 0 <= i < |batch| ==> batch[i] in m && after[|before| + i].id == m[batch[i]].id
  }

  lemma RanMore(m: Tasks, batch: seq<nat>, i: nat, h: seq<Event>, ran: seq<Event>, after: seq<Event>)
    requires i < |batch| && Ran(m, batch[..i], h, ran)
    requires |after| == |ran| + 1 && ran <= after && batch[i] in m && after[|ran|].id == m[batch[i]].id
    ensures Ran(m, batch[..i + 1], h, after)
  {
    var more := batch[..i + 1];
    forall j | 0 <= j < |more| ensures more[j] in m && after[|h| + j].id == m[more[j]].id {
      if j < i {
        assert more[j] == batch[..i][j] && ran[|h| + j] == after[|h| + j];
      }
    }
  }

  lemma CollectKeeps(m: Tasks, now: nat)
    ensures var (m', batch) := Collect(m, now);
            forall k :: k in batch ==> k in m && k in m' && m'[k].id == m[k].id
  {
    CollectExact(m, now);
  }
}
