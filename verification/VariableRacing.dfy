// New while the consumer runs: the consumer may drain the ring between the two tries.
module VariableRacing {
  import opened Arith
  import opened EntryHeader
  import opened VariableLayout
  import opened VariableRing
  import opened VariableSafety
  import opened VariableRuns
  import opened VariableCapacity

  // The call has neither returned null nor been granted yet.
  predicate Undecided(producer: Producer) {
    producer.Trying? || producer.Filling? || producer.Refreshing?
  }

  // A try for `need` bytes that began at the tail `start` with the cached head `known`: it
  // works with exactly these until it is answered, and the answer is fixed from the start.
  predicate TryFrom(producer: Producer, tail: nat, headRef: nat, size: nat,
                    start: nat, known: nat, need: nat, retried: bool)
    requires 0 < size && size % 8 == 0 && start % 8 == 0 && known % 8 == 0
  {
    var t, h := Index(start, size), Index(known, size);
    var room := RoomAt(size, t, h, start - known, need);
    match producer
    case Trying(n, again) => n == need && again == retried && tail == start && headRef == known
    case Filling(n, again) =>
      && n == need && again == retried && tail == start && headRef == known
      && start - known < size && h <= t && t + need > size
    case Granted(at, n) => n == need && room && at == if t + need <= size then t else 0
    case Reserved(at, n) => n == need && room && at == if t + need <= size then t else 0
    case Idle(refused) => if refused then retried && !room else room
    case Refreshing(n) => n == need && !retried && !room && headRef == known
  }

  ghost predicate Racing(r: Ring, start: nat, known: nat, need: nat, retried: bool)
    requires Geometry(r)
  {
    && start % 8 == known % 8 == 0
    && TryFrom(r.producer, r.tail, r.headRef, r.size, start, known, need, retried)
  }

  lemma RacingTry(r: Ring, start: nat, known: nat, need: nat, retried: bool)
    requires Inv(r) && r.producer.Trying? && Racing(r, start, known, need, retried)
    requires Geometry(DoTryEntry(r))
    ensures Racing(DoTryEntry(r), start, known, need, retried)
  {
    hide HeaderAt, Chain, Records, DoTryEntry;
    TryOutcome(r);
  }

  lemma JumpPlace(r: Ring)
    requires Inv(r) && r.producer.Filling?
    ensures var r' := DoJump(r);
            r'.producer == if r.producer.need <= Index(r.headRef, r.size) then Granted(0, r.producer.need)
                           else if r.producer.retried then Idle(true) else Refreshing(r.producer.need)
  {
    hide HeaderAt, Chain, Records;
  }

  lemma RacingJump(r: Ring, start: nat, known: nat, need: nat, retried: bool)
    requires Inv(r) && r.producer.Filling? && Racing(r, start, known, need, retried)
    requires Geometry(DoJump(r))
    ensures Racing(DoJump(r), start, known, need, retried)
  {
    hide HeaderAt, Chain, Records, DoJump, Inv;
    GeometryOf(r);
    JumpStep(r);
    JumpPlace(r);
    JumpOutcome(r);
  }

  // Consumer steps, and producer steps after the answer, leave the situation alone.
  lemma RacingOther(r: Ring, step: Step, start: nat, known: nat, need: nat, retried: bool)
    requires Inv(r) && Enabled(r, step) && Racing(r, start, known, need, retried)
    requires !step.CallNew? && step != RereadHead && step != TryEntry && step != Jump
    requires Geometry(Apply(r, step)) && Apply(r, step).size == r.size
    ensures Racing(Apply(r, step), start, known, need, retried)
  {
    hide HeaderAt, Chain, Records, Encode, Store, RoomAt;
  }

  lemma RacingStep(r: Ring, step: Step, start: nat, known: nat, need: nat, retried: bool)
    requires Inv(r) && Enabled(r, step) && Racing(r, start, known, need, retried)
    requires !step.CallNew? && step != RereadHead
    ensures Inv(Apply(r, step)) && Racing(Apply(r, step), start, known, need, retried)
  {
    hide HeaderAt, Chain, Records, DoTryEntry, DoJump, Racing;
    StepGood(r, step);
    if step.TryEntry? {
      RacingTry(r, start, known, need, retried);
    } else if step.Jump? {
      RacingJump(r, start, known, need, retried);
    } else {
      RacingOther(r, step, start, known, need, retried);
    }
  }

  ghost predicate WithinTry(steps: seq<Step>) {
    forall step :: step in steps ==> !step.CallNew? && step != RereadHead
  }

  lemma {:induction false} RacingRun(r: Ring, steps: seq<Step>, start: nat, known: nat, need: nat, retried: bool)
    requires Inv(r) && Runnable(r, steps) && Racing(r, start, known, need, retried) && WithinTry(steps)
    ensures Racing(Exec(r, steps), start, known, need, retried)
    decreases |steps|
  {
    hide HeaderAt, Chain, Records, Racing, Inv, Apply;
    if steps != [] {
      RacingStep(r, steps[0], start, known, need, retried);
      RacingRun(Apply(r, steps[0]), steps[1..], start, known, need, retried);
    }
  }

  lemma CallRaces(r: Ring, size: nat)
    requires Inv(r) && Enabled(r, CallNew(size))
    ensures Inv(Apply(r, CallNew(size))) && Apply(r, CallNew(size)).size == r.size
    ensures Racing(Apply(r, CallNew(size)), r.tail, r.headRef, CalSize(size), false)
  {
    hide HeaderAt, Chain, Records, RoomAt, CalSize;
    CallNewGood(r, size);
  }

  // The first try of New, whatever the consumer does meanwhile: it grants exactly if there
  // is room by the head cached at the call, and otherwise New goes on to read the head. It
  // never gives up here.
  lemma DecidedAtCall(r: Ring, size: nat, steps: seq<Step>)
    requires Inv(r) && Enabled(r, CallNew(size))
    requires Inv(Apply(r, CallNew(size))) && Runnable(Apply(r, CallNew(size)), steps) && WithinTry(steps)
    ensures var r', need := Exec(Apply(r, CallNew(size)), steps), CalSize(size);
            && r'.producer != Idle(true)
            && (r'.producer.Refreshing? ==>
                  r'.producer.need == need && !HasRoom(r.size, r.tail, r.headRef, need))
            && (!Undecided(r'.producer) ==> HasRoom(r.size, r.tail, r.headRef, need))
            && (r'.producer.Granted? || r'.producer.Reserved? ==>
                  r'.producer.need == need && r'.producer.at == Place(r.size, r.tail, need))
  {
    hide HeaderAt, Chain, Records, RoomAt, HasRoom, Place, CalSize, Apply, Inv;
    GeometryOf(r);
    CallRaces(r, size);
    RoomByIndex(r.size, r.tail, r.headRef, CalSize(size));
    RacingRun(Apply(r, CallNew(size)), steps, r.tail, r.headRef, CalSize(size), false);
  }

  // The second try, behind the read of the head: New returns null exactly if there is no
  // room by the tail and the head as they are at that read, whatever the consumer does
  // afterwards, and otherwise the entry lies where it fits.
  lemma DecidedAtHeadRead(r: Ring, steps: seq<Step>)
    requires Inv(r) && r.producer.Refreshing?
    requires Inv(Apply(r, RereadHead)) && Runnable(Apply(r, RereadHead), steps)
    requires forall step :: step in steps ==> !step.CallNew?
    ensures var r', need := Exec(Apply(r, RereadHead), steps), r.producer.need;
            && !r'.producer.Refreshing?
            && (!Undecided(r'.producer) ==>
                  (r'.producer != Idle(true) <==> HasRoom(r.size, r.tail, r.head, need)))
            && (r'.producer.Granted? || r'.producer.Reserved? ==>
                  r'.producer.need == need && r'.producer.at == Place(r.size, r.tail, need))
  {
    hide HeaderAt, Chain, Records, RoomAt, HasRoom, Place;
    RoomByIndex(r.size, r.tail, r.head, r.producer.need);
    NoThirdTry(Apply(r, RereadHead), steps, r.tail, r.head, r.producer.need);
    RacingRun(Apply(r, RereadHead), steps, r.tail, r.head, r.producer.need, true);
  }

  // The head is read once only.
  lemma {:induction false} NoThirdTry(r: Ring, steps: seq<Step>, start: nat, known: nat, need: nat)
    requires Inv(r) && Runnable(r, steps) && Racing(r, start, known, need, true)
    requires forall step :: step in steps ==> !step.CallNew?
    ensures WithinTry(steps)
    decreases |steps|
  {
    hide HeaderAt, Chain, Records, Inv, Apply;
    if steps != [] {
      RacingStep(r, steps[0], start, known, need, true);
      NoThirdTry(Apply(r, steps[0]), steps[1..], start, known, need);
      assert steps == [steps[0]] + steps[1..];
    }
  }

  // On a ring drained at the head read the condition is that the entry fits before the
  // buffer end or in front of the current index.
  lemma DrainedAtHeadRead(r: Ring, steps: seq<Step>)
    requires Inv(r) && r.producer.Refreshing? && r.head == r.tail
    requires Inv(Apply(r, RereadHead)) && Runnable(Apply(r, RereadHead), steps)
    requires forall step :: step in steps ==> !step.CallNew?
    ensures var r' := Exec(Apply(r, RereadHead), steps);
            !Undecided(r'.producer) ==>
              (r'.producer != Idle(true)
               <==> FitsDrained(r.size, Index(r.tail, r.size), r.producer.need))
  {
    hide HeaderAt, Chain, Records;
    DecidedAtHeadRead(r, steps);
    WrapIsMod(r.tail, r.size);
  }

  // Half the ring is the largest size that is granted wherever the counters stand.
  lemma HalfIsNeverRefused(r: Ring, steps: seq<Step>)
    requires Inv(r) && r.producer.Refreshing? && r.head == r.tail && r.producer.need <= r.size / 2
    requires Inv(Apply(r, RereadHead)) && Runnable(Apply(r, RereadHead), steps)
    requires forall step :: step in steps ==> !step.CallNew?
    ensures Exec(Apply(r, RereadHead), steps).producer != Idle(true)
  {
    hide HeaderAt, Chain, Records, Inv;
    GeometryOf(r);
    DrainedAtHeadRead(r, steps);
  }

  /* The two tries take a bounded number of producer steps */

  function Ahead(producer: Producer): nat {
    match producer
    case Trying(_, retried) => if retried then 2 else 5
    case Filling(_, retried) => if retried then 1 else 4
    case Refreshing(_) => 3
    case _ => 0
  }

  function ProducerSteps(steps: seq<Step>): (n: nat) {
    if steps == [] then 0 else (if IsProducerStep(steps[0]) then 1 else 0) + ProducerSteps(steps[1..])
  }

  lemma AheadStep(r: Ring, step: Step)
    requires Inv(r) && Enabled(r, step) && !step.CallNew?
    ensures var now, next := Ahead(r.producer), Ahead(Apply(r, step).producer);
            if IsProducerStep(step) && 0 < now then next < now else next == now
  {
    hide HeaderAt, Chain, Records, Encode, Store;
  }

  // New decides within five steps of its own, whatever the consumer does: it waits for nobody.
  lemma {:induction false} NewIsWaitFree(r: Ring, steps: seq<Step>)
    requires Inv(r) && Runnable(r, steps) && forall step :: step in steps ==> !step.CallNew?
    ensures Undecided(Exec(r, steps).producer) ==> ProducerSteps(steps) < Ahead(r.producer) <= 5
    decreases |steps|
  {
    hide HeaderAt, Chain, Records, Inv, Apply;
    if steps != [] {
      StepGood(r, steps[0]);
      AheadStep(r, steps[0]);
      NewIsWaitFree(Apply(r, steps[0]), steps[1..]);
    }
  }
}
