// An uninterrupted New or Get is one of the runs of the step machine, so what holds of
// every run holds of the channel object's methods.
module VariableCalls {
  import opened VariableRing
  import opened VariableSafety
  import opened VariableRuns
  import opened VariableCapacity

  lemma OneStep(r: Ring, step: Step)
    requires Inv(r) && Enabled(r, step)
    ensures Runnable(r, [step]) && Exec(r, [step]) == Apply(r, step)
  {
    hide Inv, Apply;
    StepGood(r, step);
    assert [step][1..] == [];
  }

  lemma {:induction false} Append(r: Ring, first: seq<Step>, second: seq<Step>)
    requires Inv(r) && Runnable(r, first) && Runnable(Exec(r, first), second)
    ensures Runnable(r, first + second)
    ensures Exec(r, first + second) == Exec(Exec(r, first), second)
    decreases |first|
  {
    hide Inv, Apply, Enabled, Refines;
    if first == [] {
      assert first + second == second;
    } else {
      StepGood(r, first[0]);
      var all := first + second;
      assert all[0] == first[0] && all[1..] == first[1..] + second;
      Append(Apply(r, first[0]), first[1..], second);
    }
  }

  ghost predicate ProducerOnly(steps: seq<Step>) {
    forall step :: step in steps ==> IsProducerStep(step)
  }

  lemma NewEntryIsARun(r: Ring) returns (steps: seq<Step>)
    requires Inv(r) && r.producer.Trying?
    ensures ProducerOnly(steps) && Runnable(r, steps) && Exec(r, steps) == NewEntry(r)
  {
    hide Inv, DoTryEntry, DoJump;
    steps := [TryEntry];
    OneStep(r, TryEntry);
    GeometryOf(r);
    var tried := DoTryEntry(r);
    if tried.producer.Filling? {
      OneStep(tried, Jump);
      Append(r, steps, [Jump]);
      steps := steps + [Jump];
    }
  }

  lemma HeaderIsARun(r: Ring) returns (steps: seq<Step>)
    requires Inv(r) && (r.producer.Idle? || r.producer.Granted?)
    ensures ProducerOnly(steps) && Runnable(r, steps) && Exec(r, steps) == WriteEntryHeader(r)
  {
    hide Inv, Apply;
    steps := [];
    if r.producer.Granted? {
      steps := [WriteHeader];
      OneStep(r, WriteHeader);
    }
  }

  lemma NewIsARun(r: Ring, size: nat) returns (steps: seq<Step>)
    requires Inv(r) && Enabled(r, CallNew(size))
    ensures ProducerOnly(steps) && Runnable(r, steps) && Exec(r, steps) == New(r, size)
  {
    hide Inv, NewEntry, WriteEntryHeader;
    OneStep(r, CallNew(size));
    var called := Exec(r, [CallNew(size)]);
    var try := NewEntryIsARun(called);
    Append(r, [CallNew(size)], try);
    steps := [CallNew(size)] + try;
    var tried := Exec(r, steps);
    if tried.producer.Refreshing? {
      OneStep(tried, RereadHead);
      Append(r, steps, [RereadHead]);
      steps := steps + [RereadHead];
      try := NewEntryIsARun(Exec(r, steps));
      Append(r, steps, try);
      steps := steps + try;
    }
    var write := HeaderIsARun(Exec(r, steps));
    Append(r, steps, write);
    steps := steps + write;
  }

  lemma GetEntryIsARun(r: Ring) returns (steps: seq<Step>)
    requires Inv(r) && r.consumer.Looking?
    ensures Runnable(r, steps) && Exec(r, steps) == GetEntry(r)
    ensures forall step :: step in steps ==> !IsProducerStep(step)
  {
    hide Inv, DoTryGet, DoSkip;
    steps := [TryGet];
    OneStep(r, TryGet);
    GeometryOf(r);
    var tried := DoTryGet(r);
    if tried.consumer.Skipping? {
      OneStep(tried, Skip);
      Append(r, steps, [Skip]);
      steps := steps + [Skip];
    }
  }

  lemma GetIsARun(r: Ring) returns (steps: seq<Step>)
    requires Inv(r) && Enabled(r, CallGet)
    ensures Runnable(r, steps) && Exec(r, steps) == Get(r)
    ensures forall step :: step in steps ==> !IsProducerStep(step)
  {
    hide Inv, GetEntry;
    OneStep(r, CallGet);
    var called := Exec(r, [CallGet]);
    var look := GetEntryIsARun(called);
    Append(r, [CallGet], look);
    steps := [CallGet] + look;
    var looked := Exec(r, steps);
    if looked.consumer.Rereading? {
      OneStep(looked, RereadTail);
      Append(r, steps, [RereadTail]);
      steps := steps + [RereadTail];
      look := GetEntryIsARun(Exec(r, steps));
      Append(r, steps, look);
      steps := steps + look;
    }
  }
}
