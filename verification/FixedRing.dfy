// spsc_fixed_bounded_channel.cpp as a machine of atomic steps: a ring of `size` slots of
// `elem` bytes, one producer and one consumer, each with a cached copy of the other's counter.
module FixedRing {
  import opened Arith
  import opened EntryHeader

  datatype Producer =
    | Idle(refused: bool)      // refused: the latest New returned null
    | Refreshing               // the cached head says full; about to read the head
    | Reserved(at: nat)        // New returned this address; the element may be written

  datatype Consumer =
    | Resting(missed: bool)    // missed: the latest Get returned null
    | Rereading                // the cached tail says empty; about to read the tail
    | Holding(at: nat)         // Get returned this address

  datatype Ring = Ring(
    size: nat,
    elem: nat,
    mem: Bytes,
    tail: nat,
    headRef: nat,
    producer: Producer,
    head: nat,
    tailRef: nat,
    consumer: Consumer,
    posted: seq<Bytes>,
    taken: seq<Bytes>)

  datatype Step =
    | TryNew | RereadHead | WriteByte(offset: nat, value: Byte) | PostElement
    | TryGet | RereadTail | DeleteElement

  predicate Enabled(r: Ring, step: Step) {
    match step
    case TryNew => r.producer.Idle? || r.producer.Reserved?
    case RereadHead => r.producer.Refreshing?
    case WriteByte(offset, _) => r.producer.Reserved? && offset < r.elem
    case PostElement => r.producer.Reserved?
    case TryGet => r.consumer.Resting? || r.consumer.Holding?
    case RereadTail => r.consumer.Rereading?
    case DeleteElement => r.consumer.Holding?
  }

  /* Slots */

  lemma SlotBounds(i: nat, size: nat, elem: nat)
    requires i < size
    ensures i * elem + elem <= size * elem
  {
    MulStep(i, size, elem);
  }

  function SlotAddress(p: nat, size: nat, elem: nat): (at: nat)
    requires 0 < size
    ensures at + elem <= size * elem
  {
    SlotBounds(Wrap(p, size), size, elem);
    Wrap(p, size) * elem
  }

  function Slot(mem: Bytes, p: nat, size: nat, elem: nat): (bytes: Bytes)
    requires 0 < size && |mem| == size * elem
    ensures |bytes| == elem
  {
    var at := SlotAddress(p, size, elem);
    mem[at..at + elem]
  }

  // Slots less than a lap apart do not overlap.
  lemma SlotsApart(p: nat, q: nat, size: nat, elem: nat)
    requires p < q < p + size
    ensures var a, b := SlotAddress(p, size, elem), SlotAddress(q, size, elem);
            a + elem <= b || b + elem <= a
  {
    WrapDistinct(p, q, size);
    MulStep(Wrap(p, size), Wrap(q, size), elem);
    MulStep(Wrap(q, size), Wrap(p, size), elem);
  }

  /* Invariant */

  ghost predicate Geometry(r: Ring) {
    && 0 < r.size && 0 < r.elem && |r.mem| == r.size * r.elem
    && r.headRef <= r.head <= r.tailRef <= r.tail <= r.headRef + r.size
  }

  // The counters count: tail elements posted, head taken, and the slots in between hold
  // the rest.
  ghost predicate Contents(r: Ring)
    requires Geometry(r)
  {
    && |r.posted| == r.tail
    && r.taken == r.posted[..r.head]
    && forall p: nat :: r.head <= p < r.tail ==> Slot(r.mem, p, r.size, r.elem) == r.posted[p]
  }

  ghost predicate EndsOk(r: Ring)
    requires Geometry(r)
  {
    && (r.producer.Reserved? ==>
          r.tail < r.headRef + r.size && r.producer.at == SlotAddress(r.tail, r.size, r.elem))
    && (match r.consumer
        case Resting(missed) => missed ==> r.head == r.tailRef
        case Rereading => r.head == r.tailRef
        case Holding(at) => r.head < r.tailRef && at == SlotAddress(r.head, r.size, r.elem))
  }

  ghost predicate Inv(r: Ring) {
    Geometry(r) && Contents(r) && EndsOk(r)
  }

  ghost predicate Initial(r: Ring) {
    && 0 < r.size && 0 < r.elem && |r.mem| == r.size * r.elem
    && r.tail == r.headRef == r.head == r.tailRef == 0
    && r.producer == Idle(false) && r.consumer == Resting(false)
    && r.posted == [] && r.taken == []
  }

  // Posted and not deleted, oldest first.
  ghost function Queue(r: Ring): seq<Bytes>
    requires Inv(r)
  {
    r.posted[r.head..]
  }

  /* Steps */

  // The address of the next slot if the cached head leaves room.
  function Grant(r: Ring, otherwise: Producer): Producer
    requires 0 < r.size
  {
    if r.tail - r.headRef < r.size then Reserved(SlotAddress(r.tail, r.size, r.elem)) else otherwise
  }

  function Present(r: Ring, otherwise: Consumer): Consumer
    requires 0 < r.size
  {
    if r.head < r.tailRef then Holding(SlotAddress(r.head, r.size, r.elem)) else otherwise
  }

  ghost function Apply(r: Ring, step: Step): Ring
    requires Inv(r) && Enabled(r, step)
  {
    match step
    case TryNew => r.(producer := Grant(r, Refreshing))
    case RereadHead =>
      var fresh' := r.(headRef := r.head);
      fresh'.(producer := Grant(fresh', Idle(true)))
    case WriteByte(offset, value) => r.(mem := Store(r.mem, r.producer.at + offset, [value]))
    case PostElement =>
      r.(tail := r.tail + 1, producer := Idle(false),
         posted := r.posted + [r.mem[r.producer.at..r.producer.at + r.elem]])
    case TryGet => r.(consumer := Present(r, Rereading))
    case RereadTail =>
      var fresh' := r.(tailRef := r.tail);
      fresh'.(consumer := Present(fresh', Resting(true)))
    case DeleteElement =>
      r.(head := r.head + 1, consumer := Resting(false),
         taken := r.taken + [r.mem[r.consumer.at..r.consumer.at + r.elem]])
  }

  lemma InitialInv(r: Ring)
    requires Initial(r)
    ensures Inv(r) && Queue(r) == []
  {
  }

  // Writing into the reserved slot leaves every posted and undeleted element as it is.
  lemma WriteSpares(r: Ring, offset: nat, value: Byte)
    requires Inv(r) && Enabled(r, WriteByte(offset, value))
    ensures var mem' := Store(r.mem, r.producer.at + offset, [value]);
            forall p: nat :: r.head <= p < r.tail ==>
              Slot(mem', p, r.size, r.elem) == Slot(r.mem, p, r.size, r.elem)
  {
    var mem' := Store(r.mem, r.producer.at + offset, [value]);
    forall p: nat | r.head <= p < r.tail
      ensures Slot(mem', p, r.size, r.elem) == Slot(r.mem, p, r.size, r.elem)
    {
      SlotsApart(p, r.tail, r.size, r.elem);
    }
  }

  lemma StepKeepsInv(r: Ring, step: Step)
    requires Inv(r) && Enabled(r, step)
    ensures var r' := Apply(r, step); Inv(r') && r'.size == r.size && r'.elem == r.elem
  {
    hide Slot, SlotAddress;
    match step
    case WriteByte(offset, value) => WriteSpares(r, offset, value);
    case PostElement => PostKeepsInv(r);
    case DeleteElement => DeleteKeepsInv(r);
    case _ =>
  }

  lemma PostKeepsInv(r: Ring)
    requires Inv(r) && r.producer.Reserved?
    ensures Inv(Apply(r, PostElement))
    ensures Queue(Apply(r, PostElement)) == Queue(r) + [Slot(r.mem, r.tail, r.size, r.elem)]
  {
    hide SlotAddress;
    var r' := Apply(r, PostElement);
    assert r'.posted[..r.head] == r.posted[..r.head];
    assert r'.posted[r.tail] == Slot(r.mem, r.tail, r.size, r.elem);
  }

  lemma DeleteKeepsInv(r: Ring)
    requires Inv(r) && r.consumer.Holding?
    ensures Inv(Apply(r, DeleteElement))
    ensures Queue(r) == [r.posted[r.head]] + Queue(Apply(r, DeleteElement))
    ensures Apply(r, DeleteElement).taken == r.taken + [r.posted[r.head]]
  {
    hide SlotAddress;
    assert Slot(r.mem, r.head, r.size, r.elem) == r.posted[r.head];
    assert r.posted[..r.head + 1] == r.posted[..r.head] + [r.posted[r.head]];
  }

  // New returns null exactly on a ring that is full when the head is read, and Get exactly
  // on one that is empty when the tail is read; otherwise Get shows the oldest element.
  lemma NullMeansFullOrEmpty(r: Ring)
    requires Inv(r)
    ensures r.producer.Refreshing? ==>
      (Apply(r, RereadHead).producer == Idle(true) <==> |Queue(r)| == r.size)
    ensures r.consumer.Rereading? ==>
      (Apply(r, RereadTail).consumer == Resting(true) <==> Queue(r) == [])
    ensures r.consumer.Holding? ==>
      && Queue(r) != []
      && r.mem[r.consumer.at..r.consumer.at + r.elem] == Queue(r)[0]
  {
    if r.consumer.Holding? {
      assert Slot(r.mem, r.head, r.size, r.elem) == r.posted[r.head];
    }
  }

  // New with nothing in between: a second look follows a read of the head.
  ghost function New(r: Ring): (r': Ring)
    requires Inv(r) && Enabled(r, TryNew)
    ensures Inv(r') && r'.size == r.size && r'.elem == r.elem
  {
    StepKeepsInv(r, TryNew);
    var first := Apply(r, TryNew);
    if first.producer.Refreshing? then
      StepKeepsInv(first, RereadHead);
      Apply(first, RereadHead)
    else first
  }

  // Get with nothing in between.
  ghost function Get(r: Ring): (r': Ring)
    requires Inv(r) && Enabled(r, TryGet)
    ensures Inv(r') && r'.size == r.size && r'.elem == r.elem
  {
    StepKeepsInv(r, TryGet);
    var first := Apply(r, TryGet);
    if first.consumer.Rereading? then
      StepKeepsInv(first, RereadTail);
      Apply(first, RereadTail)
    else first
  }

  lemma CounterOrder(r: Ring)
    requires Inv(r)
    ensures Geometry(r) && |Queue(r)| == r.tail - r.head <= r.size
  {
  }

  // What the two calls answer, and that they change nothing but their side's cached counter.
  lemma CallsAnswer(r: Ring)
    requires Inv(r)
    ensures Enabled(r, TryNew) ==>
      && New(r) == r.(headRef := New(r).headRef, producer := New(r).producer)
      && New(r).producer == if |Queue(r)| == r.size then Idle(true)
                            else Reserved(SlotAddress(r.tail, r.size, r.elem))
    ensures Enabled(r, TryGet) ==>
      && Get(r) == r.(tailRef := Get(r).tailRef, consumer := Get(r).consumer)
      && Get(r).consumer == if Queue(r) == [] then Resting(true)
                            else Holding(SlotAddress(r.head, r.size, r.elem))
  {
    hide SlotAddress, Slot;
  }

  /* Runs */

  ghost predicate Runnable(r: Ring, steps: seq<Step>)
    requires Inv(r)
    decreases |steps|
  {
    steps == [] ||
    (Enabled(r, steps[0]) &&
     (StepKeepsInv(r, steps[0]);
      Runnable(Apply(r, steps[0]), steps[1..])))
  }

  ghost function Exec(r: Ring, steps: seq<Step>): (r': Ring)
    requires Inv(r) && Runnable(r, steps)
    ensures Inv(r') && r'.size == r.size && r'.elem == r.elem
    decreases |steps|
  {
    if steps == [] then r
    else
      StepKeepsInv(r, steps[0]);
      Exec(Apply(r, steps[0]), steps[1..])
  }

  // A run of a ring as Init leaves it.
  ghost predicate IsRun(r: Ring, steps: seq<Step>) {
    Initial(r) && (InitialInv(r); Runnable(r, steps))
  }

  ghost function Reached(r: Ring, steps: seq<Step>): (r': Ring)
    requires IsRun(r, steps)
    ensures Inv(r') && r'.size == r.size && r'.elem == r.elem
  {
    InitialInv(r);
    Exec(r, steps)
  }

  // Over every interleaving the taken elements are the first posted ones, byte for byte,
  // the others are queued, and there are never more of these than slots.
  lemma RingIsFifo(r: Ring, steps: seq<Step>)
    requires IsRun(r, steps)
    ensures var r' := Reached(r, steps);
            && r'.posted == r'.taken + Queue(r') && r'.taken <= r'.posted
            && |Queue(r')| == r'.tail - r'.head <= r'.size
  {
  }

  /* What is posted is what was written */

  // The element after the store of a step, and after those of several.
  function Stored(element: Bytes, step: Step): Bytes {
    if step.WriteByte? && step.offset < |element| then element[step.offset := step.value] else element
  }

  function Filled(element: Bytes, steps: seq<Step>): Bytes
    decreases |steps|
  {
    if steps == [] then element else Filled(Stored(element, steps[0]), steps[1..])
  }

  lemma WritingStep(r: Ring, step: Step)
    requires Inv(r) && Enabled(r, step) && r.producer.Reserved? && step != TryNew && step != PostElement
    ensures var r', at := Apply(r, step), r.producer.at;
            && Inv(r') && r'.elem == r.elem && r'.producer == r.producer && r'.posted == r.posted
            && at + r.elem <= |r.mem| == |r'.mem|
            && r'.mem[at..at + r.elem] == Stored(r.mem[at..at + r.elem], step)
  {
    hide Slot, SlotAddress;
    StepKeepsInv(r, step);
  }

  lemma {:induction false} WritingRun(r: Ring, steps: seq<Step>)
    requires Inv(r) && Runnable(r, steps) && r.producer.Reserved? && TryNew !in steps && PostElement !in steps
    ensures var r', at := Exec(r, steps), r.producer.at;
            && r'.producer == r.producer && r'.posted == r.posted
            && at + r.elem <= |r.mem| == |r'.mem|
            && r'.mem[at..at + r.elem] == Filled(r.mem[at..at + r.elem], steps)
    decreases |steps|
  {
    hide Inv, Apply, Enabled;
    if steps == [] {
      assert r.producer.at + r.elem <= |r.mem| by { ReservedSlot(r); }
    } else {
      WritingStep(r, steps[0]);
      WritingRun(Apply(r, steps[0]), steps[1..]);
    }
  }

  lemma ReservedSlot(r: Ring)
    requires Inv(r) && r.producer.Reserved?
    ensures r.producer.at + r.elem <= |r.mem|
  {
  }

  // Post publishes the reserved slot with every byte the producer stored since New, and
  // nothing else in it changed, whatever the consumer did meanwhile.
  lemma PostedAsWritten(r: Ring, steps: seq<Step>)
    requires Inv(r) && Runnable(r, steps) && r.producer.Reserved? && TryNew !in steps && PostElement !in steps
    ensures var r', at := Exec(r, steps), r.producer.at;
            && Enabled(r', PostElement) && at + r.elem <= |r.mem|
            && Apply(r', PostElement).posted == r.posted + [Filled(r.mem[at..at + r.elem], steps)]
  {
    hide Slot, SlotAddress;
    WritingRun(r, steps);
  }
}
