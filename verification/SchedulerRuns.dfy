// Whole runs of the scheduler: conservation, timing, cancellation and bounded waiting under
// every interleaving of posts, cancels and the phases of Run.
module SchedulerRuns {
  import opened TaskMap
  import opened Scheduler
  import opened SchedulerSafety

  ghost predicate Runnable(s: State, steps: seq<Step>)
    requires Inv(s)
    decreases |steps|
  {
    steps == [] ||
    (Enabled(s, steps[0]) &&
     (StepKeepsInv(s, steps[0]);
      Runnable(Apply(s, steps[0]), steps[1..])))
  }

  ghost function Exec(s: State, steps: seq<Step>): (s': State)
    requires Inv(s) && Runnable(s, steps)
    ensures Inv(s')
    decreases |steps|
  {
    if steps == [] then s
    else
      StepKeepsInv(s, steps[0]);
      Exec(Apply(s, steps[0]), steps[1..])
  }

  // A run from the start.
  ghost predicate IsRun(s: State, steps: seq<Step>) {
    Initial(s) && (InitialInv(s); Runnable(s, steps))
  }

  ghost function Reached(s: State, steps: seq<Step>): (s': State)
    requires IsRun(s, steps)
    ensures Inv(s')
  {
    InitialInv(s);
    Exec(s, steps)
  }

  /* Why a task is cancelled */

  // The id a step cancels with success.
  ghost function CancelledBy(s: State, step: Step): set<nat> {
    if step.Cancel? && Pending(s.tasks, step.id) then {step.id} else {}
  }

  // The ids cancelled with success in a run.
  ghost function Cancelled(s: State, steps: seq<Step>): set<nat>
    requires Inv(s) && Runnable(s, steps)
    decreases |steps|
  {
    if steps == [] then {}
    else
      StepKeepsInv(s, steps[0]);
      CancelledBy(s, steps[0]) + Cancelled(Apply(s, steps[0]), steps[1..])
  }

  lemma {:induction false} CancelledIsCalled(s: State, steps: seq<Step>, id: nat)
    requires Inv(s) && Runnable(s, steps) && id in Cancelled(s, steps)
    ensures Cancel(id) in steps
    decreases |steps|
  {
    hide Inv, Apply;
    StepKeepsInv(s, steps[0]);
    if id !in CancelledBy(s, steps[0]) {
      CancelledIsCalled(Apply(s, steps[0]), steps[1..], id);
    }
  }

  // The id was posted cancelled, or is among `hits`.
  ghost predicate Excused(issued: seq<Draft>, hits: set<nat>, id: nat) {
    id < |issued| && (issued[id].task.cancelled || id in hits)
  }

  ghost predicate Caused(s: State, hits: set<nat>) {
    && (forall k :: k in s.tasks && s.tasks[k].cancelled ==> Excused(s.issued, hits, s.tasks[k].id))
    && (forall id :: id in s.erased ==> Excused(s.issued, hits, id))
  }

  lemma CausedInsert(s: State, thread: int, hits: set<nat>)
    requires Inv(s) && Enabled(s, InsertPost(thread)) && Caused(s, hits)
    ensures Caused(DoInsert(s, thread), hits)
  {
    hide Conserved, EntriesOk, OnTime, LeftOk, Probe;
  }

  lemma CausedCancel(s: State, id: nat, hits: set<nat>)
    requires Inv(s) && Caused(s, hits)
    ensures Caused(DoCancel(s, id), hits + CancelledBy(s, Cancel(id)))
  {
    hide OnTime, LeftOk, PhaseOk, Executions, RestedBy;
    var keys := set k | k in s.tasks.Keys && s.tasks[k].id == id;
    if keys != {} {
      var k := Least(keys);
      assert EntryOk(s.tasks[k], k, s.phase, s.history, s.issued);
    }
  }

  lemma CausedCollect(s: State, hits: set<nat>)
    requires Inv(s) && s.phase.Stamped? && Caused(s, hits)
    ensures Caused(DoCollect(s), hits)
  {
    hide Inv, CollectFrom;
    CollectExact(s.tasks, s.phase.now);
    var s' := DoCollect(s);
    forall id | id in s'.erased ensures Excused(s.issued, hits, id) {
      if id !in s.erased {
        var k :| k in s.tasks.Keys && s.tasks[k].id == id;
        assert k !in s'.tasks;
      }
    }
  }

  lemma CausedRekey(s: State, hits: set<nat>)
    requires Inv(s) && Enabled(s, Rekey) && Caused(s, hits) && s.phase.batch[s.phase.next] in s.tasks
    ensures Caused(DoRekey(s), hits)
  {
    hide Inv, Probe;
  }

  lemma CausedStep(s: State, step: Step, hits: set<nat>)
    requires Inv(s) && Enabled(s, step) && Caused(s, hits)
    ensures Caused(Apply(s, step), hits + CancelledBy(s, step))
  {
    hide DoInsert, DoCancel, DoCollect, DoRekey, Conserved, EntriesOk, OnTime, LeftOk;
    assert !step.Cancel? ==> hits + CancelledBy(s, step) == hits;
    if step.InsertPost? {
      CausedInsert(s, step.thread, hits);
    } else if step.Cancel? {
      CausedCancel(s, step.id, hits);
    } else if step.CollectBatch? {
      CausedCollect(s, hits);
    } else if step.Rekey? {
      RekeyPhase(s);
      CausedRekey(s, hits);
    }
  }

  lemma {:induction false} CausedRun(s: State, steps: seq<Step>, hits: set<nat>)
    requires Inv(s) && Runnable(s, steps) && Caused(s, hits)
    ensures Caused(Exec(s, steps), hits + Cancelled(s, steps))
    decreases |steps|
  {
    hide Inv, Apply, Caused;
    if steps == [] {
      assert hits + Cancelled(s, steps) == hits;
    } else {
      StepKeepsInv(s, steps[0]);
      CausedStep(s, steps[0], hits);
      var s', more := Apply(s, steps[0]), hits + CancelledBy(s, steps[0]);
      CausedRun(s', steps[1..], more);
      assert more + Cancelled(s', steps[1..]) == hits + Cancelled(s, steps);
    }
  }

  // Only a task that was cancelled with success, or posted cancelled, is ever erased.
  lemma ErasedWasCancelled(s: State, steps: seq<Step>, id: nat)
    requires IsRun(s, steps) && id in Reached(s, steps).erased
    ensures var s' := Reached(s, steps);
            && id < |s'.issued|
            && (s'.issued[id].task.cancelled || (InitialInv(s); id in Cancelled(s, steps)))
  {
    hide Inv;
    InitialInv(s);
    CausedRun(s, steps, {});
  }

  /* Conservation, counts and timing */

  // Ids in the map are unique, and every issued id is in exactly one of three places:
  // pending, finished, or erased after a successful cancel (or a cancelled post). Between
  // two Runs the stored count of a pending task is the number of its executions.
  lemma IdsAreConserved(s: State, steps: seq<Step>, id: nat)
    requires IsRun(s, steps)
    ensures var s' := Reached(s, steps);
            && IdsUnique(s'.tasks)
            && (id < s'.nextId <==> Pending(s'.tasks, id) || id in s'.finished || id in s'.erased)
            && !(Pending(s'.tasks, id) && id in s'.finished)
            && !(Pending(s'.tasks, id) && id in s'.erased)
            && !(id in s'.finished && id in s'.erased)
            && (id in s'.erased ==>
                  id < |s'.issued| && (s'.issued[id].task.cancelled || Cancel(id) in steps))
            && (s'.phase.Waiting? ==> forall k :: k in s'.tasks ==>
                  s'.tasks[k].count == Executions(s'.history, s'.tasks[k].id))
  {
    hide Executions, EntryOk, OnTime, LeftOk;
    var s' := Reached(s, steps);
    if s'.phase.Waiting? {
      CountsAtRest(s');
    }
    if id in s'.erased {
      InitialInv(s);
      ErasedWasCancelled(s, steps, id);
      if id in Cancelled(s, steps) {
        CancelledIsCalled(s, steps, id);
      }
    }
  }

  lemma CountsAtRest(s: State)
    requires Inv(s) && s.phase.Waiting?
    ensures forall k :: k in s.tasks ==> s.tasks[k].count == Executions(s.history, s.tasks[k].id)
  {
    hide Executions, Conserved, OnTime, LeftOk, RestedBy;
  }

  // A task that was never cancelled and is no longer in the map has run exactly as often
  // as asked (a count of zero counts as one).
  lemma UncancelledRunsInFull(s: State, steps: seq<Step>, id: nat)
    requires IsRun(s, steps) && Cancel(id) !in steps
    requires var s' := Reached(s, steps);
             id < |s'.issued| && !s'.issued[id].task.cancelled && !Pending(s'.tasks, id)
    ensures var s' := Reached(s, steps);
            && id in s'.finished && s'.issued[id].task.kind.RunFixedCount?
            && Executions(s'.history, id) == MaxRuns(s'.issued[id].task)
  {
    hide Executions, EntriesOk, OnTime;
    IdsAreConserved(s, steps, id);
    assert Inv(Reached(s, steps));
  }

  // The map entries Run still refers to are there, whatever others posted or cancelled.
  lemma BatchStaysValid(s: State, steps: seq<Step>, k: nat)
    requires IsRun(s, steps)
    ensures k in Outstanding(Reached(s, steps).phase) ==> k in Reached(s, steps).tasks
  {
    hide Conserved, EntriesOk, OnTime, LeftOk;
    var s' := Reached(s, steps);
    assert Inv(s');
  }

  // No execution before the post's clock reading plus its delay; executions of one task are
  // its interval apart; a fixed-count task never runs more often than asked.
  lemma TasksRunOnTime(s: State, steps: seq<Step>, i: nat, j: nat)
    requires IsRun(s, steps) && i < |Reached(s, steps).history|
    ensures var s' := Reached(s, steps);
            var id := s'.history[i].id;
            && id < |s'.issued|
            && s'.issued[id].clock + s'.issued[id].task.delayUs * MICRO <= s'.history[i].time
            && (i < j < |s'.history| && s'.history[j].id == id ==>
                  s'.history[i].time + s'.issued[id].task.intervalUs * MICRO <= s'.history[j].time)
            && (s'.issued[id].task.kind.RunFixedCount? ==>
                  Executions(s'.history, id) <= MaxRuns(s'.issued[id].task))
  {
    hide Executions;
    var s' := Reached(s, steps);
    var id := s'.history[i].id;
    assert id < |s'.issued|;
    if Pending(s'.tasks, id) {
      var k :| k in s'.tasks && s'.tasks[k].id == id;
      assert EntryOk(s'.tasks[k], k, s'.phase, s'.history, s'.issued);
    }
  }

  /* Cancellation */

  // Batch entries that Run has selected and not yet started.
  function Remaining(phase: Phase): seq<nat> {
    if phase.Executing? && phase.next < |phase.batch|
    then phase.batch[if phase.inside then phase.next + 1 else phase.next..]
    else []
  }

  ghost predicate Owes(s: State, id: nat) {
    exists k :: k in Remaining(s.phase) && k in s.tasks && s.tasks[k].id == id
  }

  ghost function Owed(s: State, id: nat): nat {
    if Owes(s, id) then 1 else 0
  }

  // The steps of posting and cancelling threads, and of time.
  predicate IsClientStep(step: Step) {
    step.Tick? || step.ReadPostClock? || step.InsertPost? || step.Cancel?
  }

  lemma ClientStep(s: State, step: Step)
    requires Inv(s) && Enabled(s, step) && IsClientStep(step)
    ensures var s' := Apply(s, step);
            && s'.phase == s.phase && s'.history == s.history && s.clock <= s'.clock
            && (forall k :: k in s.tasks ==>
                  && k in s'.tasks && s'.tasks[k].id == s.tasks[k].id
                  && (s.tasks[k].cancelled ==> s'.tasks[k].cancelled))
  {
    hide Inv, Probe;
  }

  lemma SameOwners(s: State, s': State, id: nat, keys: seq<nat>)
    requires forall k :: k in keys ==> k in s.tasks && k in s'.tasks && s'.tasks[k].id == s.tasks[k].id
    ensures (exists k :: k in keys && k in s.tasks && s.tasks[k].id == id)
       <==> (exists k :: k in keys && k in s'.tasks && s'.tasks[k].id == id)
  {
  }

  lemma RemainingInTasks(s: State)
    requires Inv(s)
    ensures forall k :: k in Remaining(s.phase) ==> k in s.tasks
  {
    hide Conserved, EntriesOk, OnTime, LeftOk;
  }

  lemma BeginOwed(s: State, id: nat)
    requires Inv(s) && Enabled(s, BeginTask)
    ensures var s' := DoBegin(s);
            Executions(s'.history, id) + Owed(s', id) == Executions(s.history, id) + Owed(s, id)
  {
    hide Executions, EntriesOk, OnTime, LeftOk;
    var batch, n := s.phase.batch, s.phase.next;
    var s', first := DoBegin(s), s.tasks[batch[n]].id;
    assert Remaining(s.phase) == [batch[n]] + Remaining(s'.phase);
    ExecutionsAppend(s.history, Event(first, s.clock), id);
    RemainingInTasks(s);
    SameOwners(s, s', id, Remaining(s'.phase));
    if first == id {
      assert batch[n] in Remaining(s.phase);
      assert !Owes(s', id);
    }
  }

  lemma EndOwed(s: State, id: nat)
    requires Inv(s) && Enabled(s, EndTask)
    ensures var s' := DoEnd(s);
            Executions(s'.history, id) + Owed(s', id) == Executions(s.history, id) + Owed(s, id)
  {
    hide Executions, EntriesOk, OnTime, LeftOk, Conserved;
    var s' := DoEnd(s);
    assert Remaining(s'.phase) == Remaining(s.phase);
    RemainingInTasks(s);
    SameOwners(s, s', id, Remaining(s.phase));
  }

  // While a batch is executed, each selected task is started once and no other.
  lemma ExecutingStep(s: State, step: Step, id: nat)
    requires Inv(s) && Enabled(s, step) && s.phase.Executing?
    ensures Executions(Apply(s, step).history, id) + Owed(Apply(s, step), id)
         == Executions(s.history, id) + Owed(s, id)
  {
    hide Executions, EntriesOk, OnTime, LeftOk, Conserved, DoBegin, DoEnd, DoInsert, DoCancel;
    if step.BeginTask? {
      BeginOwed(s, id);
    } else if step.EndTask? {
      EndOwed(s, id);
    } else if step.StartRekey? {
      assert Remaining(s.phase) == [];
    } else if IsClientStep(step) {
      ClientStep(s, step);
      RemainingInTasks(s);
      SameOwners(s, Apply(s, step), id, Remaining(s.phase));
    }
  }

  // The task has been cancelled, or has left the map.
  ghost predicate Dead(s: State, id: nat) {
    id < s.nextId && forall k :: k in s.tasks && s.tasks[k].id == id ==> s.tasks[k].cancelled
  }

  lemma DeadAfterClient(s: State, step: Step, id: nat)
    requires Inv(s) && Enabled(s, step) && IsClientStep(step) && Dead(s, id)
    ensures Dead(Apply(s, step), id)
  {
    hide Inv, Probe;
  }

  lemma DeadAfterRun(s: State, step: Step, id: nat)
    requires Inv(s) && Enabled(s, step) && !IsClientStep(step) && Dead(s, id)
    ensures Dead(Apply(s, step), id)
  {
    hide EntryOk, OnTime, LeftOk, Conserved, Probe, CollectFrom, Executions;
    match step
    case CollectBatch => CollectExact(s.tasks, s.phase.now);
    case Rekey => RekeyPhase(s);
    case _ =>
  }

  // A cancelled task is not selected again.
  lemma DeadCollect(s: State, id: nat)
    requires Inv(s) && s.phase.Stamped? && Dead(s, id)
    ensures !Owes(DoCollect(s), id)
  {
    hide EntryOk, OnTime, LeftOk, Conserved, CollectFrom, Executions;
    CollectExact(s.tasks, s.phase.now);
    var (tasks', batch) := Collect(s.tasks, s.phase.now);
    assert Remaining(Executing(batch, 0, false)) == batch;
  }

  lemma DeadStep(s: State, step: Step, id: nat)
    requires Inv(s) && Enabled(s, step) && Dead(s, id)
    ensures var s' := Apply(s, step);
            && Dead(s', id)
            && Executions(s'.history, id) + Owed(s', id) <= Executions(s.history, id) + Owed(s, id)
  {
    hide Inv, Dead, Executions, DoBegin, DoEnd, DoInsert, DoCancel, DoCollect, DoRekey;
    if IsClientStep(step) {
      DeadAfterClient(s, step, id);
    } else {
      DeadAfterRun(s, step, id);
    }
    if s.phase.Executing? {
      ExecutingStep(s, step, id);
    } else {
      IdleStep(s, step, id);
      if step.CollectBatch? {
        DeadCollect(s, id);
      }
    }
  }

  // Outside the execution phase nothing is executed or owed.
  lemma IdleStep(s: State, step: Step, id: nat)
    requires Inv(s) && Enabled(s, step) && !s.phase.Executing?
    ensures Apply(s, step).history == s.history
    ensures !step.CollectBatch? ==> Owed(Apply(s, step), id) == 0
  {
    hide Inv, Probe, CollectFrom;
  }

  lemma {:induction false} DeadRun(s: State, steps: seq<Step>, id: nat)
    requires Inv(s) && Runnable(s, steps) && Dead(s, id)
    ensures var s' := Exec(s, steps);
            Executions(s'.history, id) + Owed(s', id) <= Executions(s.history, id) + Owed(s, id)
    decreases |steps|
  {
    hide Inv, Dead, Executions, Owed, Apply;
    if steps != [] {
      StepKeepsInv(s, steps[0]);
      DeadStep(s, steps[0], id);
      DeadRun(Apply(s, steps[0]), steps[1..], id);
    }
  }

  // CancleTask succeeds exactly on a pending id.
  lemma CancelHits(s: State, id: nat)
    requires Inv(s) && Pending(s.tasks, id)
    ensures Dead(DoCancel(s, id), id)
  {
    hide EntryOk, OnTime, LeftOk, Executions, PhaseOk;
    var k :| k in s.tasks && s.tasks[k].id == id;
    var keys := set j | j in s.tasks.Keys && s.tasks[j].id == id;
    assert k in keys;
    assert Least(keys) == k;
    assert id < s.nextId;
  }

  // After a successful cancel a task that is not waiting in the current batch never
  // executes again, and one that is executes at most the once already selected, although
  // its cancelled record may still be copied to a new key.
  lemma CancelIsSafe(s: State, id: nat, steps: seq<Step>)
    requires Inv(s) && Pending(s.tasks, id)
    requires Inv(DoCancel(s, id)) && Runnable(DoCancel(s, id), steps)
    ensures var s' := Exec(DoCancel(s, id), steps);
            Executions(s'.history, id) <= Executions(s.history, id) + if Owes(s, id) then 1 else 0
  {
    hide Inv, Executions, Dead, DoCancel, Apply;
    CancelHits(s, id);
    DeadRun(DoCancel(s, id), steps, id);
    ClientStep(s, Cancel(id));
    CancelApply(s, id);
    RemainingInTasks(s);
    SameOwners(s, DoCancel(s, id), id, Remaining(s.phase));
  }

  lemma CancelApply(s: State, id: nat)
    requires Inv(s)
    ensures Apply(s, Cancel(id)) == DoCancel(s, id)
  {
  }

  /* A batch is executed */

  lemma {:induction false} ExecutingRun(s: State, steps: seq<Step>, id: nat)
    requires Inv(s) && Runnable(s, steps) && s.phase.Executing? && StartRekey !in steps
    ensures var s' := Exec(s, steps);
            && s'.phase.Executing?
            && Executions(s'.history, id) + Owed(s', id) == Executions(s.history, id) + Owed(s, id)
    decreases |steps|
  {
    hide Inv, Executions, Owed, Apply;
    if steps != [] {
      StepKeepsInv(s, steps[0]);
      ExecutingStep(s, steps[0], id);
      StaysExecuting(s, steps[0]);
      ExecutingRun(Apply(s, steps[0]), steps[1..], id);
    }
  }

  lemma StaysExecuting(s: State, step: Step)
    requires Inv(s) && Enabled(s, step) && s.phase.Executing? && step != StartRekey
    ensures Apply(s, step).phase.Executing?
  {
    hide Inv, Probe;
  }

  // Every selected task has been executed exactly once more when the batch is done,
  // whatever was posted or cancelled meanwhile.
  lemma SelectedIsExecuted(s: State, steps: seq<Step>, k: nat)
    requires Inv(s) && s.phase.Executing? && s.phase.next == 0 && !s.phase.inside
    requires k in s.phase.batch && k in s.tasks
    requires Runnable(s, steps) && StartRekey !in steps && Enabled(Exec(s, steps), StartRekey)
    ensures var id := s.tasks[k].id;
            Executions(Exec(s, steps).history, id) == Executions(s.history, id) + 1
  {
    hide Inv, Executions;
    ExecutingRun(s, steps, s.tasks[k].id);
    assert Remaining(s.phase) == s.phase.batch;
    assert Remaining(Exec(s, steps).phase) == [];
  }

  /* Bounded waiting */

  // The task at key k is due, uncancelled and not selected.
  ghost predicate WaitsAt(s: State, k: nat, id: nat) {
    && k in s.tasks && s.tasks[k].id == id && !s.tasks[k].cancelled
    && k <= s.clock && k !in Outstanding(s.phase)
  }

  // Who may still be selected before it: uncancelled tasks at smaller keys, and posts that
  // read the clock early enough to end up at one.
  ghost function Ahead(s: State, k: nat): set<nat> {
    set x | x in s.tasks.Keys && x < k && !s.tasks[x].cancelled && x !in Outstanding(s.phase)
  }

  ghost function EarlyDrafts(drafts: map<int, Draft>, k: nat): set<int> {
    set thread | thread in drafts.Keys && Base(drafts[thread]) < k
  }

  ghost function Rank(s: State, k: nat): nat {
    |Ahead(s, k)| + |EarlyDrafts(s.drafts, k)|
  }

  // A batch collected with a clock reading at which the task was due.
  ghost predicate IsFreshCollect(s: State, step: Step, k: nat) {
    step.CollectBatch? && s.phase.Stamped? && k <= s.phase.now
  }

  lemma RankShrinks(s: State, s': State, k: nat)
    requires Ahead(s', k) <= Ahead(s, k) && EarlyDrafts(s'.drafts, k) <= EarlyDrafts(s.drafts, k)
    ensures Rank(s', k) <= Rank(s, k)
  {
    SubsetSize(Ahead(s', k), Ahead(s, k));
    SubsetSize(EarlyDrafts(s'.drafts, k), EarlyDrafts(s.drafts, k));
  }

  lemma WaitInsert(s: State, thread: int, k: nat, id: nat)
    requires Inv(s) && Enabled(s, InsertPost(thread)) && WaitsAt(s, k, id)
    ensures var s' := DoInsert(s, thread); WaitsAt(s', k, id) && Rank(s', k) <= Rank(s, k)
  {
    hide Inv, Outstanding, Probe;
    var s' := DoInsert(s, thread);
    var d := s.drafts[thread];
    var free := Probe(s.tasks, Base(d));
    if Base(d) < k {
      assert thread in EarlyDrafts(s.drafts, k);
      assert EarlyDrafts(s'.drafts, k) == EarlyDrafts(s.drafts, k) - {thread};
      assert Ahead(s', k) <= Ahead(s, k) + {free};
      SubsetSize(Ahead(s', k), Ahead(s, k) + {free});
    } else {
      assert EarlyDrafts(s'.drafts, k) == EarlyDrafts(s.drafts, k);
      RankShrinks(s, s', k);
    }
  }

  lemma WaitCancel(s: State, other: nat, k: nat, id: nat)
    requires Inv(s) && WaitsAt(s, k, id) && other != id
    ensures var s' := DoCancel(s, other); WaitsAt(s', k, id) && Rank(s', k) <= Rank(s, k)
  {
    hide Inv, Outstanding;
    RankShrinks(s, DoCancel(s, other), k);
  }

  lemma WaitClock(s: State, step: Step, k: nat, id: nat)
    requires Inv(s) && Enabled(s, step) && WaitsAt(s, k, id)
    requires step.Tick? || step.ReadPostClock? || step.StampRun? || step.StartRekey? || step.EndRun?
             || step.BeginTask?
    ensures var s' := Apply(s, step); WaitsAt(s', k, id) && Rank(s', k) <= Rank(s, k)
  {
    hide Conserved, EntriesOk, OnTime, LeftOk;
    var s' := Apply(s, step);
    assert step.StartRekey? ==> s.phase.batch[0..] == s.phase.batch;
    RankShrinks(s, s', k);
  }

  lemma WaitEnd(s: State, k: nat, id: nat)
    requires Inv(s) && Enabled(s, EndTask) && WaitsAt(s, k, id)
    ensures var s' := DoEnd(s); WaitsAt(s', k, id) && Rank(s', k) <= Rank(s, k)
  {
    hide Conserved, EntriesOk, OnTime, LeftOk;
    RankShrinks(s, DoEnd(s), k);
  }

  // A task that is put back lands behind every key that is due.
  lemma WaitRekey(s: State, k: nat, id: nat)
    requires Inv(s) && Enabled(s, Rekey) && WaitsAt(s, k, id)
    requires s.phase.batch[s.phase.next] in s.tasks
    ensures var s' := DoRekey(s); WaitsAt(s', k, id) && Rank(s', k) <= Rank(s, k)
  {
    hide Conserved, EntriesOk, OnTime, LeftOk, Probe;
    var batch, n := s.phase.batch, s.phase.next;
    assert batch[n..] == [batch[n]] + batch[n + 1..];
    var s' := DoRekey(s);
    RankShrinks(s, s', k);
  }

  ghost function Members(keys: seq<nat>): set<nat> {
    set k | k in keys
  }

  lemma {:induction false} AscendingSize(keys: seq<nat>)
    requires Ascending(keys)
    ensures |Members(keys)| == |keys|
  {
    if keys == [] {
      assert Members(keys) == {};
    } else {
      var front, last := keys[..|keys| - 1], keys[|keys| - 1];
      assert keys == front + [last];
      AscendingSize(front);
      assert last !in Members(front);
      assert Members(keys) == Members(front) + {last};
    }
  }

  // A due task that is left out of the batch has sixteen smaller keys selected before it.
  lemma LeftOut(m: Tasks, now: nat, batch: seq<nat>, k: nat)
    requires Smallest(batch, DueFrom(m, 0, now), BATCH) && k in DueFrom(m, 0, now) && k !in batch
    ensures |batch| == BATCH && forall x :: x in batch ==> x < k
  {
    AscendingSize(batch);
    var selected := Members(batch);
    var due := DueFrom(m, 0, now);
    assert |due - {k}| == |due| - 1;
    assert selected <= due - {k};
    SubsetSize(selected, due - {k});
  }

  lemma WaitCollect(s: State, k: nat, id: nat)
    requires Inv(s) && s.phase.Stamped? && WaitsAt(s, k, id) && k !in DoCollect(s).phase.batch
    ensures var s' := DoCollect(s);
            && WaitsAt(s', k, id)
            && Rank(s', k) + (if k <= s.phase.now then BATCH else 0) <= Rank(s, k)
  {
    hide Inv, CollectFrom, Smallest;
    var (tasks', batch) := Collect(s.tasks, s.phase.now);
    CollectExact(s.tasks, s.phase.now);
    var s' := DoCollect(s);
    assert Ahead(s', k) <= Ahead(s, k);
    if k <= s.phase.now {
      LeftOut(s.tasks, s.phase.now, batch, k);
      FullBatch(s, batch, k);
      var selected := Members(batch);
      assert Ahead(s', k) <= Ahead(s, k) - selected;
      assert |Ahead(s, k) - selected| == |Ahead(s, k)| - |selected|;
      SubsetSize(Ahead(s', k), Ahead(s, k) - selected);
    } else {
      RankShrinks(s, s', k);
    }
  }

  lemma FullBatch(s: State, batch: seq<nat>, k: nat)
    requires s.phase.Stamped? && Smallest(batch, DueFrom(s.tasks, 0, s.phase.now), BATCH)
    requires |batch| == BATCH && forall x :: x in batch ==> x < k
    ensures Members(batch) <= Ahead(s, k) && |Members(batch)| == BATCH
  {
    AscendingSize(batch);
  }

  // A step either leaves the task waiting, sixteen places further ahead if it was a fresh
  // collection, or selects it.
  lemma WaitStep(s: State, step: Step, k: nat, id: nat)
    requires Inv(s) && Enabled(s, step) && WaitsAt(s, k, id) && step != Cancel(id)
    ensures var s' := Apply(s, step);
            || Selected(s', k, id)
            || (&& WaitsAt(s', k, id)
                && Rank(s', k) + (if IsFreshCollect(s, step, k) then BATCH else 0) <= Rank(s, k))
  {
    hide Inv, WaitsAt, Rank, Selected, DoInsert, DoCancel, DoEnd, DoRekey, DoBegin;
    match step
    case InsertPost(thread) => WaitInsert(s, thread, k, id);
    case Cancel(other) => WaitCancel(s, other, k, id);
    case CollectBatch =>
      if k in DoCollect(s).phase.batch {
        CollectSelects(s, k, id);
      } else {
        WaitCollect(s, k, id);
      }
    case EndTask => WaitEnd(s, k, id);
    case Rekey => RekeyPhase(s); WaitRekey(s, k, id);
    case _ => WaitClock(s, step, k, id);
  }

  // Fresh collections in a run.
  ghost function FreshCollects(s: State, steps: seq<Step>, k: nat): nat
    requires Inv(s) && Runnable(s, steps)
    decreases |steps|
  {
    if steps == [] then 0
    else
      StepKeepsInv(s, steps[0]);
      (if IsFreshCollect(s, steps[0], k) then 1 else 0) + FreshCollects(Apply(s, steps[0]), steps[1..], k)
  }

  // The batch with this task has just been collected.
  ghost predicate Selected(s: State, k: nat, id: nat) {
    && s.phase.Executing? && s.phase.next == 0 && !s.phase.inside
    && k in s.phase.batch && k in s.tasks && s.tasks[k].id == id
  }

  lemma CollectSelects(s: State, k: nat, id: nat)
    requires Inv(s) && s.phase.Stamped? && WaitsAt(s, k, id) && k in DoCollect(s).phase.batch
    ensures Selected(DoCollect(s), k, id) && DoCollect(s).history == s.history
  {
    hide Inv, CollectFrom;
    CollectExact(s.tasks, s.phase.now);
  }

  lemma NotSelected(s: State, k: nat, id: nat)
    requires WaitsAt(s, k, id)
    ensures !Selected(s, k, id)
  {
  }

  // A due task with r others ahead of it that is not cancelled is selected by the
  // (r/16 + 1)-th batch collected while it is due, however posts, cancels and re-keyed
  // tasks interleave: either the run has not had more than r/16 of them and the task still
  // waits, or after n steps the task is in the batch.
  lemma {:induction false} BoundedWaiting(s: State, steps: seq<Step>, k: nat, id: nat) returns (n: nat)
    requires Inv(s) && Runnable(s, steps) && WaitsAt(s, k, id) && Cancel(id) !in steps
    ensures n <= |steps| && Runnable(s, steps[..n])
    ensures var r := Rank(s, k);
            if Selected(Exec(s, steps[..n]), k, id) then
              FreshCollects(s, steps[..n], k) <= r / BATCH + 1
            else
              n == |steps| && WaitsAt(Exec(s, steps), k, id) && FreshCollects(s, steps, k) <= r / BATCH
    decreases |steps|
  {
    hide Inv, WaitsAt, Rank, Apply, IsFreshCollect;
    if steps == [] {
      n := 0;
      NotSelected(s, k, id);
    } else {
      StepKeepsInv(s, steps[0]);
      var s' := Apply(s, steps[0]);
      WaitStep(s, steps[0], k, id);
      var m := 0;
      if !Selected(s', k, id) {
        m := BoundedWaiting(s', steps[1..], k, id);
      }
      n := m + 1;
      assert steps[..n][1..] == steps[1..][..m];
      assert steps[..n][0] == steps[0];
      if n == |steps| {
        assert steps[..n] == steps;
      }
      assert Exec(s, steps[..n]) == Exec(s', steps[1..][..m]);
    }
  }

  lemma {:induction false} ExecutionsGrow(s: State, steps: seq<Step>, id: nat)
    requires Inv(s) && Runnable(s, steps)
    ensures Executions(s.history, id) <= Executions(Exec(s, steps).history, id)
    decreases |steps|
  {
    hide Inv, Executions, Apply;
    if steps != [] {
      StepKeepsInv(s, steps[0]);
      ExecutionsStep(s, steps[0], id);
      ExecutionsGrow(Apply(s, steps[0]), steps[1..], id);
    }
  }

  lemma ExecutionsStep(s: State, step: Step, id: nat)
    requires Inv(s) && Enabled(s, step)
    ensures Executions(s.history, id) <= Executions(Apply(s, step).history, id)
  {
    hide Conserved, EntriesOk, OnTime, LeftOk, Executions, Probe, CollectFrom;
    if step.BeginTask? {
      ExecutionsAppend(s.history, Event(s.tasks[s.phase.batch[s.phase.next]].id, s.clock), id);
    }
  }

  // What the batch owes has been executed once the execution phase is over.
  lemma {:induction false} OwedIsPaid(s: State, steps: seq<Step>, id: nat)
    requires Inv(s) && Runnable(s, steps) && Owes(s, id) && !Exec(s, steps).phase.Executing?
    ensures Executions(s.history, id) + 1 <= Executions(Exec(s, steps).history, id)
    decreases |steps|
  {
    hide Inv, Executions, Apply, Owes;
    assert s.phase.Executing? by { OwesWhileExecuting(s, id); }
    StepKeepsInv(s, steps[0]);
    var s' := Apply(s, steps[0]);
    ExecutingStep(s, steps[0], id);
    if Owes(s', id) {
      OwedIsPaid(s', steps[1..], id);
    } else {
      ExecutionsGrow(s', steps[1..], id);
    }
  }

  lemma OwesWhileExecuting(s: State, id: nat)
    requires Owes(s, id)
    ensures s.phase.Executing?
  {
  }

  lemma SelectedIsOwed(s: State, k: nat, id: nat)
    requires Selected(s, k, id)
    ensures Owes(s, id)
  {
    assert Remaining(s.phase) == s.phase.batch;
  }

  // A due task with r others ahead of it that is not cancelled has been executed once a run
  // has had more than r/16 collections while it was due and is not in the middle of
  // executing a batch: that is, within r/16 + 1 Runs.
  lemma {:induction false} ExecutedWithinRuns(s: State, steps: seq<Step>, k: nat, id: nat)
    requires Inv(s) && Runnable(s, steps) && WaitsAt(s, k, id) && Cancel(id) !in steps
    requires FreshCollects(s, steps, k) > Rank(s, k) / BATCH
    requires !Exec(s, steps).phase.Executing?
    ensures Executions(s.history, id) + 1 <= Executions(Exec(s, steps).history, id)
    decreases |steps|
  {
    hide Inv, WaitsAt, Rank, Apply, IsFreshCollect, Executions, Selected;
    StepKeepsInv(s, steps[0]);
    var s' := Apply(s, steps[0]);
    WaitStep(s, steps[0], k, id);
    ExecutionsStep(s, steps[0], id);
    if Selected(s', k, id) {
      SelectedIsOwed(s', k, id);
      OwedIsPaid(s', steps[1..], id);
    } else {
      ExecutedWithinRuns(s', steps[1..], k, id);
    }
  }
}
