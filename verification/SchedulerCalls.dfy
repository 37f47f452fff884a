// Building runs of the scheduler machine out of shorter ones, for the methods of the
// scheduler object.
module SchedulerCalls {
  import opened TaskMap
  import opened Scheduler
  import opened SchedulerSafety
  import opened SchedulerRuns

  // The steps can be taken from s one after the other, and end in s'.
  ghost predicate Leads(s: State, steps: seq<Step>, s': State) {
    Inv(s) && Runnable(s, steps) && Exec(s, steps) == s'
  }

  lemma LeadsNowhere(s: State)
    requires Inv(s)
    ensures Leads(s, [], s)
  {
  }

  lemma LeadsOne(s: State, step: Step)
    requires Inv(s) && Enabled(s, step)
    ensures Inv(Apply(s, step)) && Leads(s, [step], Apply(s, step))
  {
    hide Inv, Apply;
    StepKeepsInv(s, step);
    assert [step][1..] == [];
    assert Runnable(Apply(s, step), []) && Exec(Apply(s, step), []) == Apply(s, step);
  }

  lemma {:induction false} LeadsThen(s: State, first: seq<Step>, s1: State, second: seq<Step>, s2: State)
    requires Leads(s, first, s1) && Leads(s1, second, s2)
    ensures Leads(s, first + second, s2) && Inv(s2)
    decreases |first|
  {
    hide Inv, Apply, Enabled;
    if first == [] {
      assert first + second == second;
    } else {
      StepKeepsInv(s, first[0]);
      var all := first + second;
      assert all[0] == first[0] && all[1..] == first[1..] + second;
      LeadsThen(Apply(s, first[0]), first[1..], s1, second, s2);
    }
  }

  // The steps of the thread that calls Run, and the passing of time.
  predicate IsRunStep(step: Step) {
    step.Tick? || step.StampRun? || step.CollectBatch? || step.BeginTask? || step.EndTask?
    || step.StartRekey? || step.Rekey? || step.EndRun?
  }

  ghost predicate RunStepsOnly(steps: seq<Step>) {
    forall step :: step in steps ==> IsRunStep(step)
  }

  // How often the steps start a Run.
  function Starts(steps: seq<Step>): nat {
    if steps == [] then 0 else (if steps[0].StampRun? then 1 else 0) + Starts(steps[1..])
  }

  lemma {:induction false} StartsAdd(a: seq<Step>, b: seq<Step>)
    ensures Starts(a + b) == Starts(a) + Starts(b)
  {
    if a == [] {
      assert a + b == b;
    } else {
      assert (a + b)[1..] == a[1..] + b;
      StartsAdd(a[1..], b);
    }
  }

  // A post into a state without drafts: clock reading and insertion.
  ghost function Inserted(s: State, now: nat, task: Task): State {
    var k := Probe(s.tasks, now + task.delayUs * MICRO);
    s.(tasks := s.tasks[k := TaskEx(task, task.cancelled, false, 0, s.nextId)],
       nextId := s.nextId + 1, issued := s.issued + [Draft(now, task)])
  }

  lemma PostLeads(s: State, task: Task)
    requires Inv(s) && s.drafts == map[]
    ensures Leads(s, [ReadPostClock(0, task), InsertPost(0)], Inserted(s, s.clock, task))
    ensures Inv(Inserted(s, s.clock, task))
  {
    hide Inv, DoInsert;
    var step := ReadPostClock(0, task);
    LeadsOne(s, step);
    var drafted := Apply(s, step);
    LeadsOne(drafted, InsertPost(0));
    InsertIsDone(s, drafted, task);
    LeadsThen(s, [step], drafted, [InsertPost(0)], Inserted(s, s.clock, task));
    assert [step] + [InsertPost(0)] == [step, InsertPost(0)];
  }

  lemma InsertIsDone(s: State, drafted: State, task: Task)
    requires s.drafts == map[] && drafted == s.(drafts := map[0 := Draft(s.clock, task)])
    ensures DoInsert(drafted, 0) == Inserted(s, s.clock, task)
  {
    hide Probe;
    assert drafted.drafts - {0} == map[];
  }
}
