// CSPSCFixedBoundedChannel as an object; each method is proved against the ring's steps.
module FixedChannel {
  import opened Wrappers
  import opened Arith
  import Bits
  import opened EntryHeader
  import opened FixedRing

  class Channel {
    var data: array<Byte>
    var elem: nat
    var size: nat
    var tail: nat
    var headRef: nat
    var statsp: Stats
    var head: nat
    var tailRef: nat
    var statsc: Stats

    ghost var producer: Producer
    ghost var consumer: Consumer
    ghost var posted: seq<Bytes>
    ghost var taken: seq<Bytes>

    ghost function State(): Ring
      reads this, data
    {
      Ring(size, elem, data[..], tail, headRef, producer, head, tailRef, consumer, posted, taken)
    }

    ghost predicate Valid()
      reads this, data
    {
      Inv(State()) && IsPow2(size) && !producer.Refreshing? && !consumer.Rereading?
    }

    // An object that is not initialised yet.
    constructor ()
      ensures fresh(data)
    {
      data := new Byte[0];
      elem, size, tail, headRef, head, tailRef := 0, 0, 0, 0, 0, 0;
      statsp, statsc := Stats(0, 0, 0, 0), Stats(0, 0, 0, 0);
      producer, consumer, posted, taken := Idle(false), Resting(false), [], [];
    }

    // Slots are padded to 8 bytes and their number rounded up to a power of two; the padded
    // size, that power and the product of the two may wrap at 64 bits.
    method Init(elemSize: nat, count: nat, hasMemory: bool) returns (error: ErrorCode)
      requires elemSize < Bits.WORD && count < Bits.WORD
      modifies this
      ensures error == if elemSize == 0 || count == 0 then InvalidParam
                       else if !hasMemory then OutOfMemory else Success
      ensures error == Success ==>
        (elemSize <= elem < elemSize + 8 && elem % 8 == 0 <==> elemSize <= Bits.WORD - 8)
      ensures error == Success ==> (Bits.IsLeastPow2(size, count) <==> count <= Bits.HALF_WORD)
      ensures error == Success ==> fresh(data)
      ensures error == Success ==>
        (Valid() && Initial(State())
         <==> elemSize <= Bits.WORD - 8 && count <= Bits.HALF_WORD && NatProduct(size, elem) < Bits.WORD)
    {
      hide Bits.Up2PowerOf2, Inv, NatProduct, Padded;
      if elemSize == 0 || count == 0 {
        return InvalidParam;
      }
      elem := Padded(elemSize);
      size := Bits.Up2PowerOf2(count);
      tail, head := 0, 0;
      tailRef, headRef := tail, head;
      statsp, statsc := Stats(0, 0, 0, 0), Stats(0, 0, 0, 0);
      producer, consumer, posted, taken := Idle(false), Resting(false), [], [];
      if !hasMemory {
        return OutOfMemory;
      }
      data := new Byte[NatProduct(size, elem) % Bits.WORD];
      InitOutcome(State(), elemSize, count);
      return Success;
    }

    // A pointer to the next slot, or null after one fresh look at the head.
    method New() returns (at: Option<nat>)
      requires Valid()
      modifies this`headRef, this`producer, this`statsp
      ensures Valid() && State() == FixedRing.New(old(State())) && Queue(State()) == Queue(old(State()))
      ensures at.Some? ==> producer == Reserved(at.value) && at.value == SlotAddress(tail, size, elem)
      ensures at.None? ==> producer == Idle(true)
      ensures |Queue(State())| <= size && (at.None? <==> |Queue(State())| == size)
      ensures statsp == if at.Some? then old(statsp).(count := old(statsp).count + 1)
                        else old(statsp).(failed := old(statsp).failed + 1)
    {
      hide Inv, FixedRing.New;
      ghost var before := State();
      CounterOrder(before);
      NewTries(before);
      Bits.GetIndexIsMod(tail, size);
      if tail - headRef < size {
        statsp := statsp.(count := statsp.count + 1);
        producer := Reserved(SlotAddress(tail, size, elem));
        return Some(Bits.GetIndex(tail, size) * elem);
      }
      headRef := head;
      if tail - headRef < size {
        statsp := statsp.(count := statsp.count + 1);
        producer := Reserved(SlotAddress(tail, size, elem));
        return Some(Bits.GetIndex(tail, size) * elem);
      }
      statsp := statsp.(failed := statsp.failed + 1);
      producer := Idle(true);
      return None;
    }

    // New(size): slots have one size only.
    method NewSized(payload: nat) returns (at: Option<nat>, error: ErrorCode)
      ensures at == None && error == InvalidCall
    {
      at, error := None, InvalidCall;
    }

    // The caller writes the element through the pointer it was given.
    method WriteByte(at: nat, offset: nat, value: Byte)
      requires Valid() && producer == Reserved(at) && offset < elem
      modifies data
      ensures Valid() && Queue(State()) == Queue(old(State()))
      ensures State() == Apply(old(State()), FixedRing.WriteByte(offset, value))
      ensures data[at..at + elem] == old(data[at..at + elem])[offset := value]
    {
      ghost var before := State();
      StepKeepsInv(before, FixedRing.WriteByte(offset, value));
      data[at + offset] := value;
      assert data[..] == Store(before.mem, at + offset, [value]);
      assert State() == Apply(before, FixedRing.WriteByte(offset, value));
    }

    // Publishes the slot of the latest New. A null pointer only counts as a failure.
    method Post(at: Option<nat>)
      requires Valid() && (at.Some? ==> producer == Reserved(at.value))
      modifies this`tail, this`producer, this`posted, this`statsp
      ensures Valid()
      ensures at.Some? ==> State() == Apply(old(State()), PostElement)
      ensures at.Some? ==>
        && at.value + elem <= data.Length
        && Queue(State()) == Queue(old(State())) + [data[at.value..at.value + elem]]
      ensures at.None? ==> State() == old(State())
      ensures statsp == if at.Some? then old(statsp).(count2 := old(statsp).count2 + 1)
                        else old(statsp).(failed2 := old(statsp).failed2 + 1)
    {
      hide SlotAddress;
      if at.Some? {
        ghost var before := State();
        PostKeepsInv(before);
        tail := tail + 1;
        statsp := statsp.(count2 := statsp.count2 + 1);
        producer, posted := Idle(false), Apply(before, PostElement).posted;
        assert State() == Apply(before, PostElement);
        return;
      }
      statsp := statsp.(failed2 := statsp.failed2 + 1);
    }

    // A pointer to the oldest element, or null after one fresh look at the tail.
    method Get() returns (at: Option<nat>)
      requires Valid()
      modifies this`tailRef, this`consumer, this`statsc
      ensures Valid() && State() == FixedRing.Get(old(State())) && Queue(State()) == Queue(old(State()))
      ensures at.None? <==> Queue(State()) == []
      ensures at.Some? ==>
        && consumer == Holding(at.value) && at.value + elem <= data.Length
        && data[at.value..at.value + elem] == Queue(State())[0]
      ensures statsc == if at.Some? then old(statsc).(count := old(statsc).count + 1)
                        else old(statsc).(failed := old(statsc).failed + 1)
    {
      hide Inv, FixedRing.Get;
      ghost var before := State();
      CounterOrder(before);
      GetTries(before);
      Bits.GetIndexIsMod(head, size);
      if head < tailRef {
        statsc := statsc.(count := statsc.count + 1);
        consumer := Holding(SlotAddress(head, size, elem));
        NullMeansFullOrEmpty(State());
        return Some(Bits.GetIndex(head, size) * elem);
      }
      tailRef := tail;
      if head < tailRef {
        statsc := statsc.(count := statsc.count + 1);
        consumer := Holding(SlotAddress(head, size, elem));
        NullMeansFullOrEmpty(State());
        return Some(Bits.GetIndex(head, size) * elem);
      }
      statsc := statsc.(failed := statsc.failed + 1);
      consumer := Resting(true);
      return None;
    }

    // Retires the element of the latest Get. A null pointer only counts as a failure.
    method Delete(at: Option<nat>)
      requires Valid() && (at.Some? ==> consumer == Holding(at.value))
      modifies this`head, this`consumer, this`taken, this`statsc
      ensures Valid()
      ensures at.Some? ==> State() == Apply(old(State()), DeleteElement)
      ensures at.Some? ==> [old(Queue(State())[0])] + Queue(State()) == old(Queue(State()))
      ensures at.None? ==> State() == old(State())
      ensures statsc == if at.Some? then old(statsc).(count2 := old(statsc).count2 + 1)
                        else old(statsc).(failed2 := old(statsc).failed2 + 1)
    {
      if at.Some? {
        ghost var before := State();
        DeleteKeepsInv(before);
        head := head + 1;
        statsc := statsc.(count2 := statsc.count2 + 1);
        consumer, taken := Resting(false), Apply(before, DeleteElement).taken;
        assert State() == Apply(before, DeleteElement);
        return;
      }
      statsc := statsc.(failed2 := statsc.failed2 + 1);
    }

    method IsEmpty() returns (empty: bool)
      requires Valid()
      ensures empty <==> Queue(State()) == []
    {
      empty := head == tail;
    }

    // The number of queued elements, cut to 32 bits.
    method GetSize() returns (n: nat)
      requires Valid()
      ensures n == |Queue(State())| % UINT32
    {
      n := (tail - head) % UINT32;
    }
  }

  // The two comparisons of New.
  lemma NewTries(r: Ring)
    requires Inv(r) && Enabled(r, TryNew)
    ensures var slot := Reserved(SlotAddress(r.tail, r.size, r.elem));
            FixedRing.New(r) == if r.tail - r.headRef < r.size then r.(producer := slot)
                                else r.(headRef := r.head,
                                        producer := if r.tail - r.head < r.size then slot else Idle(true))
    ensures Queue(FixedRing.New(r)) == Queue(r)
  {
    hide SlotAddress, Slot;
  }

  // The two comparisons of Get.
  lemma GetTries(r: Ring)
    requires Inv(r) && Enabled(r, TryGet)
    ensures var slot := Holding(SlotAddress(r.head, r.size, r.elem));
            FixedRing.Get(r) == if r.head < r.tailRef then r.(consumer := slot)
                                else r.(tailRef := r.tail,
                                        consumer := if r.head < r.tail then slot else Resting(true))
    ensures Queue(FixedRing.Get(r)) == Queue(r)
  {
    hide SlotAddress, Slot;
  }

  // ALIGN8 on a 64-bit value.
  function Padded(size: nat): nat {
    (size + 7) % Bits.WORD / 8 * 8
  }

  lemma InitOutcome(r: Ring, elemSize: nat, count: nat)
    requires 0 < elemSize < Bits.WORD && 0 < count < Bits.WORD
    requires r.elem == Padded(elemSize) && r.size == Bits.Up2PowerOf2(count)
    requires |r.mem| == NatProduct(r.size, r.elem) % Bits.WORD
    requires r.tail == r.headRef == r.head == r.tailRef == 0 && r.posted == r.taken == []
    requires r.producer == Idle(false) && r.consumer == Resting(false)
    ensures elemSize <= r.elem < elemSize + 8 && r.elem % 8 == 0 <==> elemSize <= Bits.WORD - 8
    ensures Bits.IsLeastPow2(r.size, count) <==> count <= Bits.HALF_WORD
    ensures Inv(r) && IsPow2(r.size) && Initial(r)
            <==> elemSize <= Bits.WORD - 8 && count <= Bits.HALF_WORD && NatProduct(r.size, r.elem) < Bits.WORD
  {
    hide Bits.Up2PowerOf2, Inv;
    Bits.Up2PowerOf2IsLeast(count);
    PaddedFits(elemSize);
    NatProductZero(r.size, r.elem);
    if Initial(r) {
      InitialInv(r);
    }
  }

  lemma PaddedFits(size: nat)
    requires 0 < size < Bits.WORD
    ensures if size <= Bits.WORD - 8 then size <= Padded(size) < size + 8 && Padded(size) % 8 == 0
            else Padded(size) == 0
  {
  }

  lemma NatProductZero(a: nat, b: nat)
    ensures 0 < a && 0 < b ==> 0 < NatProduct(a, b)
  {
  }

  function NatProduct(a: nat, b: nat): nat {
    a * b
  }
}
