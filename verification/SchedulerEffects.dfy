// What posting, cancelling, collecting and re-keying do to the task map, in every reachable
// state and under every interleaving, told by keys and times alone.
module SchedulerEffects {
  import opened TaskMap
  import opened Scheduler
  import opened SchedulerSafety
  import opened SchedulerRuns

  // k is the first free key from `us` microseconds after the clock reading on; no more keys
  // are passed than the map has.
  ghost predicate FreeAfter(m: Tasks, clock: nat, us: nat, k: nat) {
    var base := clock + us * 1000;
    && base <= k && k !in m
    && (forall j: nat :: base <= j < k ==> j in m)
    && k - base <= |m|
  }

  lemma FreeIsUnique(m: Tasks, clock: nat, us: nat, j: nat, k: nat)
    requires FreeAfter(m, clock, us, j) && FreeAfter(m, clock, us, k)
    ensures j == k
  {
  }

  // The entry of a task as it is posted.
  function NewEntry(task: Task, id: nat): TaskEx {
    TaskEx(task, task.cancelled, false, 0, id)
  }

  /* Posting */

  lemma InsertEffect(s: State, thread: int)
    requires Inv(s) && Enabled(s, InsertPost(thread))
    ensures var s', d := Apply(s, InsertPost(thread)), s.drafts[thread];
            && (exists k: nat :: FreeAfter(s.tasks, d.clock, d.task.delayUs, k)
                                 && s'.tasks == s.tasks[k := NewEntry(d.task, s.nextId)])
            && s' == s.(tasks := s'.tasks, nextId := s.nextId + 1, issued := s.issued + [d],
                        drafts := s.drafts - {thread})
  {
    hide Inv, Probe;
    var d := s.drafts[thread];
    var k := Probe(s.tasks, Base(d));
    assert FreeAfter(s.tasks, d.clock, d.task.delayUs, k);
  }

  lemma DraftStays(s: State, step: Step, thread: int)
    requires Inv(s) && Enabled(s, step) && thread in s.drafts && step != InsertPost(thread)
    ensures var s' := Apply(s, step); thread in s'.drafts && s'.drafts[thread] == s.drafts[thread]
  {
    hide Inv, Probe, Collect;
  }

  lemma {:induction false} DraftWaits(s: State, steps: seq<Step>, thread: int)
    requires Inv(s) && Runnable(s, steps) && thread in s.drafts && InsertPost(thread) !in steps
    ensures var s' := Exec(s, steps); thread in s'.drafts && s'.drafts[thread] == s.drafts[thread]
    decreases |steps|
  {
    hide Inv, Apply, Enabled;
    if steps != [] {
      StepKeepsInv(s, steps[0]);
      DraftStays(s, steps[0], thread);
      DraftWaits(Apply(s, steps[0]), steps[1..], thread);
    }
  }

  // A post puts its task, with the next id and no executions, at the first free key from
  // its clock reading plus the delay on, however many steps of others lie between the
  // clock reading and the insertion; nothing else changes.
  lemma PostLands(s: State, thread: int, task: Task, steps: seq<Step>)
    requires Inv(s) && Enabled(s, ReadPostClock(thread, task))
    requires Inv(Apply(s, ReadPostClock(thread, task))) && Runnable(Apply(s, ReadPostClock(thread, task)), steps)
    requires InsertPost(thread) !in steps
    ensures var m := Exec(Apply(s, ReadPostClock(thread, task)), steps);
            && Enabled(m, InsertPost(thread))
            && var s' := Apply(m, InsertPost(thread));
               && (exists k: nat :: FreeAfter(m.tasks, s.clock, task.delayUs, k)
                                    && s'.tasks == m.tasks[k := NewEntry(task, m.nextId)])
               && s' == m.(tasks := s'.tasks, nextId := m.nextId + 1,
                           issued := m.issued + [Draft(s.clock, task)], drafts := m.drafts - {thread})
  {
    hide Inv;
    DraftWaits(Apply(s, ReadPostClock(thread, task)), steps, thread);
    InsertEffect(Exec(Apply(s, ReadPostClock(thread, task)), steps), thread);
  }

  /* Cancelling */

  lemma CancelEffect(s: State, id: nat)
    requires Inv(s)
    ensures var s' := Apply(s, Cancel(id));
            && (Pending(s.tasks, id) ==>
                  exists k :: && k in s.tasks && s.tasks[k].id == id
                              && s' == s.(tasks := s.tasks[k := s.tasks[k].(cancelled := true)]))
            && (!Pending(s.tasks, id) ==> s' == s)
  {
    hide Inv;
    var keys := set k | k in s.tasks.Keys && s.tasks[k].id == id;
    if Pending(s.tasks, id) {
      var k :| k in s.tasks && s.tasks[k].id == id;
      assert k in keys;
      assert Least(keys) in keys;
    }
  }

  /* Collecting */

  lemma StampStays(s: State, step: Step)
    requires Inv(s) && Enabled(s, step) && s.phase.Stamped? && step != CollectBatch
    ensures Apply(s, step).phase == s.phase
  {
    hide Inv, Probe;
  }

  lemma {:induction false} StampWaits(s: State, steps: seq<Step>)
    requires Inv(s) && Runnable(s, steps) && s.phase.Stamped? && CollectBatch !in steps
    ensures Exec(s, steps).phase == s.phase
    decreases |steps|
  {
    hide Inv, Apply, Enabled;
    if steps != [] {
      StepKeepsInv(s, steps[0]);
      StampStays(s, steps[0]);
      StampWaits(Apply(s, steps[0]), steps[1..]);
    }
  }

  // Run reads the clock and later collects: whatever others post and cancel in between, the
  // batch is the up to 16 smallest keys that were due at the reading and are uncancelled at
  // the collection, and of the others exactly the cancelled ones it passes are erased.
  lemma RunSelects(s: State, steps: seq<Step>)
    requires Inv(s) && Enabled(s, StampRun)
    requires Inv(Apply(s, StampRun)) && Runnable(Apply(s, StampRun), steps) && CollectBatch !in steps
    ensures var m := Exec(Apply(s, StampRun), steps);
            && Enabled(m, CollectBatch)
            && var s' := Apply(m, CollectBatch);
               && s'.phase.Executing? && s'.phase == Executing(s'.phase.batch, 0, false)
               && Smallest(s'.phase.batch, DueFrom(m.tasks, 0, s.clock), 16)
               && OnlyCancelledErased(m.tasks, s'.tasks, s'.phase.batch)
               && ErasedWherePassed(m.tasks, s'.tasks, 0, s.clock, s'.phase.batch)
               && s'.erased == m.erased + (IdsOf(m.tasks) - IdsOf(s'.tasks))
               && s' == m.(tasks := s'.tasks, phase := s'.phase, erased := s'.erased)
  {
    hide Inv, Smallest, OnlyCancelledErased, ErasedWherePassed, CollectFrom;
    StampWaits(Apply(s, StampRun), steps);
    var m := Exec(Apply(s, StampRun), steps);
    CollectExact(m.tasks, s.clock);
  }

  /* Executing */

  // The time that passes in a run.
  function Elapsed(steps: seq<Step>): nat {
    if steps == [] then 0 else (if steps[0].Tick? then steps[0].d else 0) + Elapsed(steps[1..])
  }

  // Executions are only added, and each between the clock readings before and after.
  ghost predicate Timely(s: State, s': State) {
    && s.clock <= s'.clock && s.history <= s'.history
    && forall i :: |s.history| <= i < |s'.history| ==> s.clock <= s'.history[i].time <= s'.clock
  }

  lemma TimelyStep(s: State, step: Step)
    requires Inv(s) && Enabled(s, step)
    ensures Timely(s, Apply(s, step))
    ensures Apply(s, step).clock == s.clock + if step.Tick? then step.d else 0
    ensures step.BeginTask? ==>
      var k := s.phase.batch[s.phase.next];
      k in s.tasks && Apply(s, step).history == s.history + [Event(s.tasks[k].id, s.clock)]
    ensures !step.BeginTask? ==> Apply(s, step).history == s.history
  {
    hide Inv, Probe, Collect;
    if step.BeginTask? {
      NextIsReady(s);
    }
  }

  // The map changes in no other step but these, and when a task returns only by the count.
  lemma TasksKept(s: State, step: Step)
    requires Inv(s) && Enabled(s, step)
    requires !step.InsertPost? && !step.Cancel? && step != CollectBatch && step != Rekey
    ensures if step.EndTask? then
              var k := s.phase.batch[s.phase.next];
              && k in s.tasks
              && Apply(s, step).tasks == s.tasks[k := s.tasks[k].(count := s.tasks[k].count + 1)]
            else Apply(s, step).tasks == s.tasks
  {
    hide Conserved, EntriesOk, OnTime, LeftOk;
  }

  lemma {:induction false} TimelyRun(s: State, steps: seq<Step>)
    requires Inv(s) && Runnable(s, steps)
    ensures Timely(s, Exec(s, steps)) && Exec(s, steps).clock == s.clock + Elapsed(steps)
    decreases |steps|
  {
    hide Inv, Apply, Enabled;
    if steps != [] {
      StepKeepsInv(s, steps[0]);
      TimelyStep(s, steps[0]);
      TimelyRun(Apply(s, steps[0]), steps[1..]);
    }
  }

  /* Re-keying */

  // The last loop, for one task: with runs left it moves to the first free key from the
  // clock plus its interval on, otherwise it leaves the map; nothing else changes.
  lemma RekeyEffect(s: State)
    requires Inv(s) && Enabled(s, Rekey)
    ensures var s', k := Apply(s, Rekey), s.phase.batch[s.phase.next];
            && k in s.tasks
            && (var t := s.tasks[k];
               && (t.task.kind.RunPeriodic? || t.count < t.task.execTimes ==>
                     && s'.finished == s.finished
                     && exists k': nat ::
                          && FreeAfter(s.tasks, s.clock, t.task.intervalUs, k')
                          && s'.tasks == s.tasks[k' := t.(running := false)] - {k})
               && (t.task.kind.RunFixedCount? && t.count >= t.task.execTimes ==>
                     s'.tasks == s.tasks - {k} && s'.finished == s.finished + {t.id}))
            && s' == s.(tasks := s'.tasks, finished := s'.finished,
                        phase := Rekeying(s.phase.batch, s.phase.next + 1))
  {
    hide Inv, Probe;
    RekeyPhase(s);
    var t := s.tasks[s.phase.batch[s.phase.next]];
    var k' := Probe(s.tasks, s.clock + t.task.intervalUs * MICRO);
    assert FreeAfter(s.tasks, s.clock, t.task.intervalUs, k');
  }
}
