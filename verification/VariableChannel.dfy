// CSPSCVariableBoundedChannel as an object: its methods update the counters and write the
// buffer in place. Each is proved against the ring's steps, run without interruption; the
// proofs about interleavings are in VariableRuns.
module VariableChannel {
  import opened Wrappers
  import opened Arith
  import Bits
  import opened EntryHeader
  import opened HeaderIO
  import opened VariableLayout
  import opened VariableRing
  import opened VariableSafety
  import Runs = VariableRuns
  import Capacity = VariableCapacity
  import Loss = VariableLoss

  class Channel {
    var data: array<Byte>
    var size: nat
    var tail: nat
    var headRef: nat
    var statsp: Stats
    var head: nat
    var tailRef: nat
    var statsc: Stats

    ghost var producer: Producer
    ghost var consumer: Consumer
    ghost var posted: seq<Posting>
    ghost var taken: seq<Bytes>

    ghost function State(): Ring
      reads this, data
    {
      Ring(size, data[..], tail, headRef, producer, head, tailRef, consumer, posted, taken)
    }

    // The object between any two atomic steps.
    ghost predicate Consistent()
      reads this, data
    {
      && Inv(State()) && IsPow2(size)
      && statsp.count2 == |posted| && statsc.count2 == |taken|
    }

    // The object between calls.
    ghost predicate Valid()
      reads this, data
    {
      && Consistent()
      && (producer.Idle? || producer.Reserved?)
      && (consumer.Resting? || consumer.Holding?)
    }

    // An object that is not initialised yet.
    constructor ()
      ensures size == tail == headRef == head == tailRef == 0
      ensures fresh(data)
    {
      data := new Byte[0];
      size, tail, headRef, head, tailRef := 0, 0, 0, 0, 0;
      statsp, statsc := Stats(0, 0, 0, 0), Stats(0, 0, 0, 0);
      producer, consumer, posted, taken := Idle(false), Resting(false), [], [];
    }

    // `hasMemory` says whether the allocator had memory. The size is the least power of two
    // that holds the requested kilobytes, unless their number of bytes or that power wraps
    // at 64 bits; the consumer's counters stay as they are.
    method Init(maxMemorySizeKB: nat, hasMemory: bool) returns (error: ErrorCode)
      requires maxMemorySizeKB < Bits.WORD
      modifies this
      ensures error == if maxMemorySizeKB == 0 then InvalidParam
                       else if !hasMemory then OutOfMemory else Success
      ensures error == Success ==>
        (Bits.IsLeastPow2(size, maxMemorySizeKB * 1024) <==> maxMemorySizeKB <= MAX_KILOBYTES)
      ensures error == Success ==>
        (Valid() <==> && old(head) == old(tailRef) == 0
                      && 0 < RingBytes(maxMemorySizeKB) <= Bits.HALF_WORD)
      ensures error == Success ==> fresh(data) && (Valid() ==> Initial(State()))
    {
      hide Bits.Up2PowerOf2, Bits.IsLeastPow2, Inv, Initial, IsPow2, RingBytes;
      if maxMemorySizeKB == 0 {
        return InvalidParam;
      }
      size := Bits.Up2PowerOf2(RingBytes(maxMemorySizeKB));
      tail, headRef := 0, 0;
      statsp, statsc := Stats(0, 0, 0, 0), Stats(0, 0, 0, 0);
      producer, consumer, posted, taken := Idle(false), Resting(false), [], [];
      if !hasMemory {
        return OutOfMemory;
      }
      data := new Byte[size];
      InitOutcome(State(), maxMemorySizeKB);
      return Success;
    }

    // New(): a variable-size channel has no default entry size.
    method NewUnsized() returns (at: Option<nat>, error: ErrorCode)
      ensures at == None && error == InvalidCall
    {
      at, error := None, InvalidCall;
    }

    // NewEntry's middle part: the placeholder up to the buffer end and the jump behind it.
    method FillToEnd(t: nat)
      requires Geometry(State()) && producer.Trying? && t == Index(tail, size)
      requires DoTryEntry(State()).producer.Filling?
      modifies this`tail, this`producer, data
      ensures Geometry(DoTryEntry(old(State())))
      ensures State() == DoTryEntry(old(State())).(tail := old(tail) + (size - t))
    {
      hide HeaderAt, Chain, Records;
      if size - t >= HEADER_SIZE {
        StoreHeader(data, t, Header(MAGIC, PLACEHOLD, (size - t) % UINT32));
      }
      producer := Filling(producer.need, producer.retried);
      tail := tail + (size - t);
    }

    method NewEntry(need: nat) returns (at: Option<nat>)
      requires Consistent() && producer.Trying? && producer.need == need
      modifies this`tail, this`producer, data
      ensures Consistent()
      ensures State() == Capacity.NewEntry(old(State()))
      ensures at == if producer.Granted? then Some(producer.at) else None
    {
      hide HeaderAt, Chain, Records, Inv, Encode, Store;
      ghost var before := State();
      Capacity.GeometryOf(before);
      Capacity.TryStep(before);
      Capacity.TryOutcome(before);
      if tail - headRef >= size {
        producer := Refuse(before).producer;
        return None;
      }
      var t, h := Bits.GetIndex(tail, size), Bits.GetIndex(headRef, size);
      Bits.GetIndexIsMod(tail, size);
      Bits.GetIndexIsMod(headRef, size);
      assert t == Index(tail, size) && h == Index(headRef, size);
      if t >= h {
        if t + need <= size {
          producer := Granted(t, need);
          return Some(t);
        }
        FillToEnd(t);
        ghost var filled := DoTryEntry(before);
        Capacity.JumpStep(filled);
        t := 0;
        if t + need <= h {
          producer := Granted(0, need);
          return Some(t);
        }
        producer := Refuse(filled).producer;
      } else {
        if t + need <= h {
          producer := Granted(t, need);
          return Some(t);
        }
        producer := Refuse(before).producer;
      }
      return None;
    }

    // Header, flags and length of a granted entry.
    method Grant(at: nat, need: nat)
      requires Consistent() && producer == Granted(at, need)
      modifies this`producer, data
      ensures Consistent() && State() == Capacity.WriteEntryHeader(old(State()))
    {
      hide HeaderAt, Chain, Records, Encode, Store, Inv;
      ghost var before := State();
      Capacity.GeometryOf(before);
      StoreHeader(data, at, Header(MAGIC, 0, need));
      producer := Reserved(at, need);
      assert State() == Capacity.WriteEntryHeader(before);
    }

    // NewEntry again, with the head as it is now.
    method NewAgain(need: nat) returns (at: Option<nat>)
      requires Consistent() && producer == Refreshing(need)
      modifies this`tail, this`headRef, this`producer, data
      ensures Consistent()
      ensures Inv(old(State()).(headRef := head, producer := Trying(need, true)))
      ensures State() == Capacity.NewEntry(old(State()).(headRef := head, producer := Trying(need, true)))
      ensures at == if producer.Granted? then Some(producer.at) else None
    {
      hide HeaderAt, Chain, Records, Inv;
      Capacity.RereadHeadStep(State());
      headRef := head;
      producer := Trying(need, true);
      at := NewEntry(need);
    }

    // Reserves an entry for `payload` bytes, or returns null after one fresh look at the head.
    method New(payload: nat) returns (at: Option<nat>)
      requires Valid() && payload <= MAX_PAYLOAD
      modifies this`tail, this`headRef, this`producer, this`statsp, data
      ensures Valid()
      ensures State() == Capacity.New(old(State()), payload)
      ensures Queue(State()) == Queue(old(State()))
      ensures at == if producer.Reserved? then Some(producer.at) else None
      // null exactly if no contiguous run is free by the consumer's head as it is now
      ensures at.Some? <==> Capacity.HasRoom(size, old(tail), head, CalSize(payload))
      ensures at.Some? ==>
        && at.value == Capacity.Place(size, old(tail), CalSize(payload)) == Index(tail, size)
        && HeaderAt(data[..], at.value) == Header(MAGIC, 0, CalSize(payload))
      ensures at.None? ==> headRef == head
      ensures statsp == if at.Some? then old(statsp).(count := old(statsp).count + 1)
                        else old(statsp).(failed := old(statsp).failed + 1)
    {
      hide HeaderAt, Chain, Records, Inv, CalSize, Geometry, Layout, IsPow2,
           Capacity.NewEntry, Capacity.WriteEntryHeader, Capacity.HasRoom, Capacity.Place;
      ghost var before := State();
      Capacity.NewAnswers(before, payload);
      if Capacity.New(before, payload).producer.Reserved? {
        Capacity.ReservedHeader(before, payload);
      }
      var need := CalSize(payload);
      Capacity.CallNewStep(before, payload);
      producer := Trying(need, false);
      at := NewEntry(need);
      if at.None? {
        at := NewAgain(need);
      }
      if at.Some? {
        Grant(at.value, need);
        statsp := statsp.(count := statsp.count + 1);
      } else {
        statsp := statsp.(failed := statsp.failed + 1);
      }
    }

    // The caller fills the payload through the pointer it was given.
    method WritePayload(at: nat, offset: nat, value: Byte)
      requires Valid() && producer.Reserved? && producer.at == at
      requires Enabled(State(), VariableRing.WritePayload(offset, value))
      modifies data
      ensures Valid() && State() == Apply(old(State()), VariableRing.WritePayload(offset, value))
      ensures data[..] == old(data[..])[at + offset := value]
      ensures Queue(State()) == Queue(old(State()))
    {
      hide HeaderAt, Chain, Records, Inv;
      Capacity.GeometryOf(State());
      StepGood(State(), VariableRing.WritePayload(offset, value));
      data[at + offset] := value;
      assert data[..] == Store(old(data[..]), at + offset, [value]);
    }

    // Publishes the latest reserved entry. A null pointer only counts as a failure.
    method Post(at: Option<nat>)
      requires Valid()
      requires at.Some? ==> producer.Reserved? && producer.at == at.value
      modifies this`tail, this`producer, this`posted, this`statsp
      ensures Valid()
      ensures at.Some? ==> State() == Loss.Post(old(State()))
      ensures at.Some? && at.value + HEADER_SIZE == size ==> Queue(State()) == Queue(old(State()))
      ensures at.Some? && at.value + HEADER_SIZE < size ==>
        Queue(State()) == Queue(old(State())) + [Payload(data[..], at.value, old(producer.need))]
      ensures at.None? ==> State() == old(State())
      ensures statsp == if at.Some? then old(statsp).(count2 := old(statsp).count2 + 1)
                        else old(statsp).(failed2 := old(statsp).failed2 + 1)
    {
      hide HeaderAt, Chain, Records, Inv;
      ghost var before := State();
      Capacity.GeometryOf(before);
      if at.Some? {
        ghost var after := Loss.Post(before);
        var header := LoadHeader(data, at.value);
        if header.magic == MAGIC {
          tail := tail + header.length;
          producer, posted := Idle(false), posted + [Pending(before)];
          statsp := statsp.(count2 := statsp.count2 + 1);
          assert State() == after;
          return;
        }
      }
      statsp := statsp.(failed2 := statsp.failed2 + 1);
    }

    // The step over filler at the head, up to the start of the buffer.
    method SkipFiller(h: nat, header: Header)
      requires Consistent() && consumer.Skipping? && h == Index(head, size)
      requires header == HeaderAt(data[..], h)
      modifies this`head, this`consumer
      ensures State() == DoSkip(old(State()))
    {
      hide HeaderAt, Chain, Records;
      ghost var found := State();
      head := head + if size - h > HEADER_SIZE then size - h else header.length;
      consumer := DoSkip(found).consumer;
    }

    method GetEntry() returns (at: Option<nat>)
      requires Consistent() && consumer.Looking?
      modifies this`head, this`consumer
      ensures Consistent()
      ensures State() == Capacity.GetEntry(old(State()))
      ensures at == if consumer.Holding? then Some(consumer.at) else None
    {
      hide HeaderAt, Chain, Records, Inv, DoTryGet, DoSkip;
      ghost var before := State();
      Capacity.GeometryOf(before);
      Capacity.TryGetStep(before);
      Capacity.TryGetOutcome(before);
      if head >= tailRef {
        consumer := Miss(before).consumer;
        return None;
      }
      var h, t := Bits.GetIndex(head, size), Bits.GetIndex(tailRef, size);
      Bits.GetIndexIsMod(head, size);
      Bits.GetIndexIsMod(tailRef, size);
      assert h == Index(head, size) && t == Index(tailRef, size);
      var header := LoadHeader(data, h);
      if h < t || (size - h > HEADER_SIZE && header.flags != PLACEHOLD) {
        consumer := Holding(h);
        return Some(h);
      }
      consumer := Skipping(before.consumer.reread);
      ghost var found := State();
      Capacity.SkipStep(found);
      Capacity.SkipOutcome(found);
      SkipFiller(h, header);
      h := 0;
      if h < t {
        return Some(h);
      }
      return None;
    }

    // The caller reads this payload through a pointer to the entry at this address.
    ghost predicate Shows(at: nat, payload: Bytes)
      reads this`data, data
    {
      at + HEADER_SIZE <= data.Length
      && (var end := at + HeaderAt(data[..], at).length;
          at + HEADER_SIZE <= end <= data.Length && data[at + HEADER_SIZE..end] == payload)
    }

    lemma HeldIsShown()
      requires Valid() && consumer.Holding?
      ensures Queue(State()) != [] && Shows(consumer.at, Queue(State())[0])
    {
      hide HeaderAt, Chain, Records;
      HoldingIsOldest(State());
    }

    // GetEntry again, with the tail as it is now.
    method GetAgain() returns (at: Option<nat>)
      requires Consistent() && consumer.Rereading?
      modifies this`head, this`tailRef, this`consumer
      ensures Consistent()
      ensures Inv(old(State()).(tailRef := tail, consumer := Looking(true)))
      ensures State() == Capacity.GetEntry(old(State()).(tailRef := tail, consumer := Looking(true)))
      ensures at == if consumer.Holding? then Some(consumer.at) else None
    {
      hide HeaderAt, Chain, Records, Inv;
      Capacity.RereadTailStep(State());
      tailRef := tail;
      consumer := Looking(true);
      at := GetEntry();
    }

    // The oldest entry, or null after one fresh look at the tail.
    method Get() returns (at: Option<nat>)
      requires Valid()
      modifies this`head, this`tailRef, this`consumer, this`statsc
      ensures Valid()
      ensures State() == Capacity.Get(old(State()))
      ensures at.None? <==> Queue(old(State())) == []
      ensures Queue(State()) == Queue(old(State()))
      ensures at.Some? ==> consumer == Holding(at.value) && Shows(at.value, Queue(State())[0])
      ensures statsc == if at.Some? then old(statsc).(count := old(statsc).count + 1)
                        else old(statsc).(failed := old(statsc).failed + 1)
    {
      hide HeaderAt, Chain, Records, Inv, Geometry, Shows;
      ghost var before := State();
      Capacity.CallGetStep(before);
      consumer := Looking(false);
      at := GetEntry();
      if at.None? {
        at := GetAgain();
      }
      assert State() == Capacity.Get(before);
      Capacity.GetExact(before);
      if at.Some? {
        HeldIsShown();
        statsc := statsc.(count := statsc.count + 1);
      } else {
        statsc := statsc.(failed := statsc.failed + 1);
      }
    }

    // Retires the entry of the latest Get. A null pointer only counts as a failure.
    method Delete(at: Option<nat>)
      requires Valid()
      requires at.Some? ==> consumer == Holding(at.value)
      modifies this`head, this`consumer, this`taken, this`statsc
      ensures Valid()
      ensures at.Some? ==> State() == Loss.Delete(old(State()))
      ensures at.Some? ==> [old(Queue(State())[0])] + Queue(State()) == old(Queue(State()))
      ensures at.None? ==> State() == old(State())
      ensures statsc == if at.Some? then old(statsc).(count2 := old(statsc).count2 + 1)
                        else old(statsc).(failed2 := old(statsc).failed2 + 1)
    {
      hide HeaderAt, Chain, Records, Inv;
      ghost var before := State();
      Capacity.GeometryOf(before);
      if at.Some? {
        ghost var after := Loss.Delete(before);
        var header := LoadHeader(data, at.value);
        if header.magic == MAGIC {
          DeleteMoves(before);
          head := head + header.length;
          consumer, taken := Resting(false), after.taken;
          statsc := statsc.(count2 := statsc.count2 + 1);
          assert State() == after;
          return;
        }
      }
      statsc := statsc.(failed2 := statsc.failed2 + 1);
    }

    // Compares the counts of posts and deletes: true exactly on an empty queue from which
    // no entry was ever lost.
    method IsEmpty() returns (empty: bool)
      requires Valid()
      ensures empty <==> Queue(State()) == [] && Runs.NoneLost(size, posted)
    {
      hide HeaderAt, Chain, Records;
      Runs.KeptCount(size, posted);
      empty := statsp.count2 == statsc.count2;
    }

    // The difference of the counts, cut to 32 bits: lost entries are counted for ever.
    method GetSize() returns (n: nat)
      requires Valid()
      ensures n == (|Queue(State())| + Runs.LostCount(size, posted)) % UINT32
    {
      hide HeaderAt, Chain, Records;
      Runs.KeptCount(size, posted);
      assert |Kept(size, posted)| == |taken| + |Queue(State())|;
      n := (statsp.count2 - statsc.count2) % UINT32;
    }
  }

  // The largest request whose bytes have a power of two at or above them in 64 bits.
  const MAX_KILOBYTES: nat := 0x20_0000_0000_0000

  // Bytes that wrap at 64 bits get a ring smaller than asked for.
  lemma LeastKilobytes(size: nat, kilobytes: nat)
    requires 0 < kilobytes
    requires var bytes := RingBytes(kilobytes);
             && (size == 0 <==> bytes == 0 || bytes > Bits.HALF_WORD)
             && (size != 0 ==> Bits.IsLeastPow2(size, bytes))
    ensures Bits.IsLeastPow2(size, kilobytes * 1024) <==> kilobytes <= MAX_KILOBYTES
  {
    Bits.WordIsPow2();
    if kilobytes > MAX_KILOBYTES && size != 0 {
      assert size <= Pow2(63);
    }
  }

  // The bytes Init asks for, as a 64-bit product.
  function RingBytes(kilobytes: nat): (bytes: nat)
    ensures bytes < Bits.WORD
  {
    kilobytes * 1024 % Bits.WORD
  }

  // What Init makes of an object, whatever its consumer's counters were.
  lemma InitOutcome(r: Ring, kilobytes: nat)
    requires 0 < kilobytes && r.size == Bits.Up2PowerOf2(RingBytes(kilobytes))
    requires |r.mem| == r.size && r.tail == r.headRef == 0 && r.posted == [] && r.taken == []
    requires r.producer == Idle(false) && r.consumer == Resting(false)
    ensures Bits.IsLeastPow2(r.size, kilobytes * 1024) <==> kilobytes <= MAX_KILOBYTES
    ensures Inv(r) && IsPow2(r.size) <==>
            r.head == r.tailRef == 0 && 0 < RingBytes(kilobytes) <= Bits.HALF_WORD
    ensures Inv(r) ==> Initial(r)
  {
    hide Bits.Up2PowerOf2, HeaderAt, Chain, Records;
    var bytes := RingBytes(kilobytes);
    Bits.Up2PowerOf2IsLeast(bytes);
    LeastKilobytes(r.size, kilobytes);
    if 0 < r.size && r.head == r.tailRef == 0 {
      RingSize(r.size);
      InitialInv(r);
    }
  }

  lemma RingSize(size: nat)
    requires IsPow2(size) && 1024 <= size
    ensures size % 8 == 0
  {
    var k: nat :| size == Pow2(k);
    assert Pow2(3) == 8;
    if k < 3 {
      Pow2Monotone(k, 3);
      assert false;
    }
    Pow2Multiple(3, k);
  }
}
