// Whole runs of the variable-size ring: FIFO order over every interleaving, completeness
// of Get, stability of a held entry, and the one way an entry can be lost.
module VariableRuns {
  import opened Arith
  import opened EntryHeader
  import opened VariableLayout
  import opened VariableRing
  import opened VariableSafety

  // Every step of the sequence is possible in its turn.
  ghost predicate Runnable(r: Ring, steps: seq<Step>)
    requires Inv(r)
    decreases |steps|
  {
    steps == [] ||
    (Enabled(r, steps[0]) &&
     (StepGood(r, steps[0]);
      Runnable(Apply(r, steps[0]), steps[1..])))
  }

  ghost function Exec(r: Ring, steps: seq<Step>): (r': Ring)
    requires Inv(r) && Runnable(r, steps)
    ensures Inv(r') && r'.size == r.size
    decreases |steps|
  {
    if steps == [] then r
    else
      StepGood(r, steps[0]);
      Exec(Apply(r, steps[0]), steps[1..])
  }

  // A run of a ring as Init leaves it.
  ghost predicate IsRun(r: Ring, steps: seq<Step>) {
    Initial(r) && (InitialInv(r); Runnable(r, steps))
  }

  ghost function Reached(r: Ring, steps: seq<Step>): (r': Ring)
    requires IsRun(r, steps)
    ensures Inv(r') && r'.size == r.size
  {
    InitialInv(r);
    Exec(r, steps)
  }

  /* Order and loss */

  function Payloads(posted: seq<Posting>): seq<Bytes> {
    if posted == [] then [] else Payloads(posted[..|posted| - 1]) + [posted[|posted| - 1].payload]
  }

  ghost predicate NoneLost(size: nat, posted: seq<Posting>) {
    forall p :: p in posted ==> !Lost(size, p)
  }

  function LostCount(size: nat, posted: seq<Posting>): nat {
    if posted == [] then 0
    else LostCount(size, posted[..|posted| - 1]) + if Lost(size, posted[|posted| - 1]) then 1 else 0
  }

  lemma {:induction false} KeptCount(size: nat, posted: seq<Posting>)
    ensures |Payloads(posted)| == |posted| == |Kept(size, posted)| + LostCount(size, posted)
    ensures NoneLost(size, posted) ==> Kept(size, posted) == Payloads(posted)
    ensures !NoneLost(size, posted) ==> |Kept(size, posted)| < |posted|
  {
    if posted != [] {
      var front, last := posted[..|posted| - 1], posted[|posted| - 1];
      assert posted == front + [last];
      KeptCount(size, front);
      if NoneLost(size, posted) {
        assert NoneLost(size, front);
      } else if NoneLost(size, front) {
        assert Lost(size, last);
      }
    }
  }

  // After any interleaving, what was deleted and what is still queued is, in order and byte
  // for byte, what was posted -- if and only if no entry was posted in the last 8 bytes.
  lemma FifoExactlyUnlessLost(r: Ring, steps: seq<Step>)
    requires IsRun(r, steps)
    ensures var r' := Reached(r, steps);
            Payloads(r'.posted) == r'.taken + Queue(r') <==> NoneLost(r'.size, r'.posted)
  {
    var r' := Reached(r, steps);
    KeptCount(r'.size, r'.posted);
    assert Kept(r'.size, r'.posted) == r'.taken + Queue(r');
  }

  ghost predicate NoEmptyPayload(steps: seq<Step>) {
    forall step :: step in steps && step.CallNew? ==> 1 <= step.size
  }

  // Requests for at least one byte need 16 bytes of ring, so none fits the last 8.
  ghost predicate Roomy(r: Ring) {
    && (r.producer.Idle? || 16 <= r.producer.need)
    && NoneLost(r.size, r.posted)
  }

  lemma NeedIsKept(r: Ring, step: Step)
    requires Inv(r) && Enabled(r, step) && !step.CallNew?
    ensures var r' := Apply(r, step);
            r'.producer.Idle? || (!r.producer.Idle? && r'.producer.need == r.producer.need)
  {
    hide HeaderAt, Chain, Records, Encode, Store;
  }

  lemma RoomyStep(r: Ring, step: Step)
    requires Inv(r) && Enabled(r, step) && Roomy(r)
    requires step.CallNew? ==> 1 <= step.size
    ensures Inv(Apply(r, step)) && Roomy(Apply(r, step))
  {
    hide HeaderAt, Chain, Records, Encode, Store;
    StepGood(r, step);
    if step.CallNew? {
      CalSizeFits(step.size);
      assert CalSize(step.size) >= 16;
    } else {
      NeedIsKept(r, step);
      if step.PostEntry? {
        assert r.producer.at + r.producer.need <= r.size;
      }
    }
  }

  lemma {:induction false} RoomyRun(r: Ring, steps: seq<Step>)
    requires Inv(r) && Runnable(r, steps) && Roomy(r) && NoEmptyPayload(steps)
    ensures Roomy(Exec(r, steps))
    decreases |steps|
  {
    hide HeaderAt, Chain, Records;
    if steps != [] {
      RoomyStep(r, steps[0]);
      RoomyRun(Apply(r, steps[0]), steps[1..]);
    }
  }

  // With payloads of at least one byte the ring is a FIFO over every run: the deleted
  // payloads are a prefix of the posted ones and the rest is queued.
  lemma RingIsFifo(r: Ring, steps: seq<Step>)
    requires IsRun(r, steps) && NoEmptyPayload(steps)
    ensures var r' := Reached(r, steps);
            Payloads(r'.posted) == r'.taken + Queue(r') && r'.taken <= Payloads(r'.posted)
  {
    InitialInv(r);
    RoomyRun(r, steps);
    FifoExactlyUnlessLost(r, steps);
  }

  /* What is posted is what was written */

  // The payload after the store of a step, and after those of several.
  function Stored(payload: Bytes, step: Step): Bytes {
    if step.WritePayload? && HEADER_SIZE <= step.offset < HEADER_SIZE + |payload|
    then payload[step.offset - HEADER_SIZE := step.value]
    else payload
  }

  function Filled(payload: Bytes, steps: seq<Step>): Bytes
    decreases |steps|
  {
    if steps == [] then payload else Filled(Stored(payload, steps[0]), steps[1..])
  }

  // The steps that may fall between New and Post.
  ghost predicate WithinWriting(steps: seq<Step>) {
    forall step :: step in steps ==> !step.CallNew? && step != PostEntry
  }

  lemma StoreInPayload(mem: Bytes, at: nat, need: nat, offset: nat, value: Byte)
    requires HEADER_SIZE <= offset < need && at + need <= |mem|
    ensures |Payload(mem, at, need)| == need - HEADER_SIZE
    ensures Payload(Store(mem, at + offset, [value]), at, need)
         == Payload(mem, at, need)[offset - HEADER_SIZE := value]
  {
  }

  lemma WritingStep(r: Ring, step: Step)
    requires Inv(r) && Enabled(r, step) && r.producer.Reserved? && !step.CallNew? && step != PostEntry
    ensures Inv(Apply(r, step)) && Apply(r, step).producer == r.producer && Apply(r, step).posted == r.posted
    ensures var at, need := r.producer.at, r.producer.need;
            Payload(Apply(r, step).mem, at, need) == Stored(Payload(r.mem, at, need), step)
  {
    hide HeaderAt, Chain, Records, Store, Payload, Encode, Refines, Agree, Queue, Known;
    StepGood(r, step);
    if step.WritePayload? {
      StoreInPayload(r.mem, r.producer.at, r.producer.need, step.offset, step.value);
    }
  }

  lemma {:induction false} WritingRun(r: Ring, steps: seq<Step>)
    requires Inv(r) && Runnable(r, steps) && r.producer.Reserved? && WithinWriting(steps)
    ensures var r', at, need := Exec(r, steps), r.producer.at, r.producer.need;
            && r'.producer == r.producer && r'.posted == r.posted
            && Payload(r'.mem, at, need) == Filled(Payload(r.mem, at, need), steps)
    decreases |steps|
  {
    hide HeaderAt, Chain, Records, Apply, Payload;
    if steps != [] {
      WritingStep(r, steps[0]);
      WritingRun(Apply(r, steps[0]), steps[1..]);
    }
  }

  // Post publishes the reserved bytes with every byte the producer stored since New, and
  // nothing else in them changed, whatever the consumer did meanwhile.
  lemma PostedAsWritten(r: Ring, steps: seq<Step>)
    requires Inv(r) && Runnable(r, steps) && r.producer.Reserved? && WithinWriting(steps)
    ensures var r', at := Exec(r, steps), r.producer.at;
            && Enabled(r', PostEntry)
            && Apply(r', PostEntry).posted
               == r.posted + [Posting(at, Filled(Payload(r.mem, at, r.producer.need), steps))]
  {
    hide HeaderAt, Chain, Records, Payload, Apply;
    WritingRun(r, steps);
    PostGood(Exec(r, steps));
  }

  /* Completeness of Get */

  // The steps that may fall between a read of the tail and the end of that Get.
  predicate WithinGet(step: Step) {
    IsProducerStep(step) || step.TryGet? || step.Skip?
  }

  lemma KnownStep(r: Ring, step: Step)
    requires Inv(r) && Enabled(r, step) && WithinGet(step)
    ensures Inv(Apply(r, step)) && Known(Apply(r, step)) == Known(r)
  {
    hide HeaderAt, Chain, Records;
    match step
    case CallNew(size) => CallNewGood(r, size);
    case TryEntry => TryEntryGood(r);
    case Jump => JumpGood(r);
    case RereadHead => RereadHeadGood(r);
    case WriteHeader => WriteHeaderGood(r);
    case WritePayload(offset, value) => WritePayloadGood(r, offset, value);
    case PostEntry => PostGood(r);
    case TryGet => TryGetGood(r);
    case Skip => SkipGood(r);
  }

  lemma {:induction false} KnownRun(r: Ring, steps: seq<Step>)
    requires Inv(r) && Runnable(r, steps) && forall step :: step in steps ==> WithinGet(step)
    ensures Known(Exec(r, steps)) == Known(r)
    decreases |steps|
  {
    hide HeaderAt, Chain, Records;
    if steps != [] {
      KnownStep(r, steps[0]);
      KnownRun(Apply(r, steps[0]), steps[1..]);
    }
  }

  // Before it has read the tail, Get never returns null, and it goes on to read the tail
  // only when everything the cached tail covers is taken.
  predicate LooksFirst(consumer: Consumer) {
    match consumer
    case Looking(reread) => !reread
    case Skipping(reread) => !reread
    case Rereading => true
    case Holding(_) => true
    case Resting(_) => false
  }

  lemma FirstLookStep(r: Ring, step: Step)
    requires Inv(r) && Enabled(r, step) && LooksFirst(r.consumer)
    requires step != RereadTail && step != DeleteEntry
    ensures LooksFirst(Apply(r, step).consumer)
  {
    hide HeaderAt, Chain, Records, Encode, Store;
  }

  lemma {:induction false} FirstLookRun(r: Ring, steps: seq<Step>)
    requires Inv(r) && Runnable(r, steps) && LooksFirst(r.consumer)
    requires RereadTail !in steps && DeleteEntry !in steps
    ensures LooksFirst(Exec(r, steps).consumer)
    decreases |steps|
  {
    hide HeaderAt, Chain, Records, Inv, Apply, LooksFirst;
    if steps != [] {
      StepGood(r, steps[0]);
      FirstLookStep(r, steps[0]);
      FirstLookRun(Apply(r, steps[0]), steps[1..]);
    }
  }

  lemma GetLooksTwice(r: Ring, steps: seq<Step>)
    requires Inv(r) && Enabled(r, CallGet)
    requires Inv(Apply(r, CallGet)) && Runnable(Apply(r, CallGet), steps)
    requires RereadTail !in steps && DeleteEntry !in steps
    ensures var r' := Exec(Apply(r, CallGet), steps);
            && r'.consumer != Resting(true)
            && (r'.consumer.Rereading? ==> Known(r') == [])
            && (r'.consumer.Holding? ==>
                  && Queue(r') != []
                  && Payload(r'.mem, r'.consumer.at, HeaderAt(r'.mem, r'.consumer.at).length) == Queue(r')[0])
  {
    hide HeaderAt;
    FirstLookRun(Apply(r, CallGet), steps);
    var r' := Exec(Apply(r, CallGet), steps);
    if r'.consumer.Holding? {
      HoldingIsOldest(r');
    }
  }

  // What is left of a call of Get, in steps of its own.
  function Looks(consumer: Consumer): nat {
    match consumer
    case Looking(reread) => if reread then 2 else 5
    case Skipping(reread) => if reread then 1 else 4
    case Rereading => 3
    case _ => 0
  }

  function ConsumerSteps(steps: seq<Step>): nat {
    if steps == [] then 0 else (if IsProducerStep(steps[0]) then 0 else 1) + ConsumerSteps(steps[1..])
  }

  lemma LooksStep(r: Ring, step: Step)
    requires Inv(r) && Enabled(r, step) && step != CallGet
    ensures var now, next := Looks(r.consumer), Looks(Apply(r, step).consumer);
            if !IsProducerStep(step) && 0 < now then next < now else next == now
  {
    hide HeaderAt, Chain, Records, Encode, Store;
  }

  // Get is decided within five steps of its own, whatever the producer does.
  lemma {:induction false} GetIsWaitFree(r: Ring, steps: seq<Step>)
    requires Inv(r) && Runnable(r, steps) && CallGet !in steps
    ensures 0 < Looks(Exec(r, steps).consumer) ==> ConsumerSteps(steps) < Looks(r.consumer) <= 5
    decreases |steps|
  {
    hide HeaderAt, Chain, Records, Inv, Apply;
    if steps != [] {
      StepGood(r, steps[0]);
      LooksStep(r, steps[0]);
      GetIsWaitFree(Apply(r, steps[0]), steps[1..]);
    }
  }

  // A Get that has read the tail in state r returns null exactly if the queue was empty at
  // that read, and otherwise the entry that was the oldest, whatever the producer does
  // meanwhile and however much filler lies in between.
  lemma GetIsComplete(r: Ring, steps: seq<Step>)
    requires Inv(r) && r.consumer.Rereading?
    requires Inv(Apply(r, RereadTail)) && Runnable(Apply(r, RereadTail), steps)
    requires forall step :: step in steps ==> WithinGet(step)
    ensures var r' := Exec(Apply(r, RereadTail), steps);
            && (r'.consumer == Resting(true) ==> Queue(r) == [])
            && (r'.consumer.Holding? ==>
                  && Queue(r) != []
                  && Payload(r'.mem, r'.consumer.at, HeaderAt(r'.mem, r'.consumer.at).length) == Queue(r)[0])
  {
    hide HeaderAt;
    RereadTailGood(r);
    KnownRun(Apply(r, RereadTail), steps);
    var r' := Exec(Apply(r, RereadTail), steps);
    if r'.consumer.Holding? {
      HoldingIsOldest(r');
    }
  }

  /* A held entry stays put */

  // The consumer owns the entry at its head and has not deleted it.
  ghost predicate Owns(r: Ring, head: nat)
    requires Geometry(r)
  {
    && r.head == head < r.tailRef && IsEntry(r.mem, r.size, Index(head, r.size))
    && (r.consumer.Looking? || r.consumer.Holding?)
  }

  lemma OwnsConsumer(r: Ring, step: Step, head: nat)
    requires Inv(r) && Enabled(r, step) && step != DeleteEntry && Owns(r, head)
    ensures var r' := Apply(r, step);
            r'.head == head && r'.tailRef == r.tailRef && (r'.consumer.Looking? || r'.consumer.Holding?)
  {
    hide HeaderAt, Chain, Records, Encode, Store;
  }

  lemma OwnedBlock(r: Ring, head: nat)
    requires Inv(r) && Owns(r, head)
    ensures Queue(r) != [] && head + HEADER_SIZE <= r.tail
  {
    hide HeaderAt;
    assert Next(r.mem, r.size, head) <= r.tail;
  }

  lemma OwnsStep(r: Ring, step: Step, head: nat)
    requires Inv(r) && Enabled(r, step) && step != DeleteEntry && Owns(r, head)
    ensures Inv(Apply(r, step)) && Owns(Apply(r, step), head)
    ensures Queue(Apply(r, step)) != [] && Queue(r) != [] && Queue(Apply(r, step))[0] == Queue(r)[0]
  {
    hide HeaderAt, Chain, Records, Encode, Store;
    StepGood(r, step);
    OwnsConsumer(r, step, head);
    OwnedBlock(r, head);
    HeaderAgrees(r.mem, Apply(r, step).mem, r.size, head, r.tail);
  }

  lemma {:induction false} OwnsRun(r: Ring, steps: seq<Step>, head: nat)
    requires Inv(r) && Runnable(r, steps) && DeleteEntry !in steps && Owns(r, head)
    ensures Owns(Exec(r, steps), head)
    ensures Queue(r) != [] && Queue(Exec(r, steps)) != []
    ensures Queue(Exec(r, steps))[0] == Queue(r)[0]
    decreases |steps|
  {
    hide HeaderAt, Chain, Records;
    OwnedBlock(r, head);
    if steps != [] {
      OwnsStep(r, steps[0], head);
      OwnsRun(Apply(r, steps[0]), steps[1..], head);
    }
  }

  // Until Delete, every further Get returns the same address with the same bytes.
  lemma HeldEntryIsStable(r: Ring, steps: seq<Step>)
    requires Inv(r) && r.consumer.Holding? && Runnable(r, steps) && DeleteEntry !in steps
    ensures var r' := Exec(r, steps);
            && r'.consumer != Resting(true)
            && (r'.consumer.Holding? ==>
                  && r'.consumer.at == r.consumer.at
                  && Payload(r'.mem, r.consumer.at, HeaderAt(r'.mem, r.consumer.at).length)
                     == Payload(r.mem, r.consumer.at, HeaderAt(r.mem, r.consumer.at).length))
  {
    hide HeaderAt;
    HoldingIsOldest(r);
    OwnsRun(r, steps, r.head);
    var r' := Exec(r, steps);
    if r'.consumer.Holding? {
      HoldingIsOldest(r');
    }
  }

  /* Disjointness of writes */

  // No step changes a byte between head and tail: the placeholder's header, the entry's
  // header and the payload all land outside every posted and undeleted entry, although the
  // producer may know no more than an old head.
  lemma WritesAreDisjoint(r: Ring, step: Step, p: nat)
    requires Inv(r) && Enabled(r, step) && r.head <= p < r.tail
    ensures Apply(r, step).mem[Wrap(p, r.size)] == r.mem[Wrap(p, r.size)]
  {
    StepGood(r, step);
  }

  /* What holds in every reachable state */

  // The counters stay in order and within one lap of the oldest copy; the bytes between
  // head and tail are a gap-free chain of correct blocks with a boundary at the cached
  // tail; a reservation does not reach what the producer believes is still queued.
  lemma ReachableLayout(r: Ring, steps: seq<Step>)
    requires IsRun(r, steps)
    ensures var r' := Reached(r, steps);
            && Sized(r'.mem, r'.size)
            && r'.headRef <= r'.head <= r'.tailRef <= r'.tail <= r'.headRef + r'.size
            && r'.head % 8 == r'.tailRef % 8 == r'.tail % 8 == 0
            && Chain(r'.mem, r'.size, r'.head, r'.tailRef)
            && Chain(r'.mem, r'.size, r'.tailRef, r'.tail)
            && (r'.producer.Reserved? ==>
                  r'.tail + r'.producer.need <= r'.headRef + r'.size
                  && r'.producer.at + r'.producer.need <= r'.size)
  {
    hide HeaderAt, Chain, Records;
    var r' := Reached(r, steps);
    assert Inv(r');
  }

  // The assertions in the source hold: a placeholder always has room for its header, jump
  // and skip end at index zero, and Get returns an entry with magic and without the
  // placeholder flag.
  lemma SourceAssertionsHold(r: Ring, steps: seq<Step>)
    requires IsRun(r, steps)
    ensures var r' := Reached(r, steps);
            && (r'.producer.Filling? ==>
                  && HEADER_SIZE <= r'.size - Wrap(r'.tail, r'.size)
                  && Wrap(Apply(r', Jump).tail, r'.size) == 0)
            && (r'.consumer.Skipping? ==> Wrap(Apply(r', Skip).head, r'.size) == 0)
            && (r'.consumer.Holding? ==>
                  && r'.consumer.at + HEADER_SIZE < r'.size
                  && HeaderAt(r'.mem, r'.consumer.at).magic == MAGIC
                  && HeaderAt(r'.mem, r'.consumer.at).flags == 0)
  {
    hide HeaderAt, Chain, Records;
    var r' := Reached(r, steps);
    if r'.producer.Filling? {
      JumpGood(r');
    }
    if r'.consumer.Skipping? {
      SkipGood(r');
    }
    if r'.consumer.Holding? {
      HoldingIsOldest(r');
    }
  }
}
