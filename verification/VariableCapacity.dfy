// Uninterrupted calls of New and Get, built from the ring's steps, and what the ring can hold.
module VariableCapacity {
  import opened Arith
  import opened EntryHeader
  import opened VariableLayout
  import opened VariableRing
  import opened VariableSafety

  // NewEntry answered: an address, or null (and then the head is read once).
  predicate Answered(before: Producer, after: Producer) {
    (before.Trying? || before.Filling?)
    && match after
       case Idle(refused) => before.retried && refused
       case Refreshing(need) => !before.retried && need == before.need
       case Granted(at, need) => need == before.need
       case _ => false
  }

  lemma TryShape(r: Ring)
    requires Geometry(r) && r.producer.Trying?
    ensures var after := DoTryEntry(r).producer;
            Answered(r.producer, after) || after == Filling(r.producer.need, r.producer.retried)
  {
    hide HeaderAt, Chain, Records, Encode, Store;
  }

  lemma TryStep(r: Ring)
    requires Inv(r) && r.producer.Trying?
    ensures var r' := DoTryEntry(r);
            && Inv(r') && r'.size == r.size && Queue(r') == Queue(r) && r'.posted == r.posted
            && (Answered(r.producer, r'.producer)
                || r'.producer == Filling(r.producer.need, r.producer.retried))
  {
    hide HeaderAt, Chain, Records, DoTryEntry;
    TryShape(r);
    TryEntryGood(r);
  }

  lemma JumpStep(r: Ring)
    requires Inv(r) && r.producer.Filling?
    ensures var r' := DoJump(r);
            && Inv(r') && r'.size == r.size && Queue(r') == Queue(r) && r'.posted == r.posted
            && Answered(r.producer, r'.producer)
  {
    hide HeaderAt, Chain, Records;
    JumpGood(r);
  }

  // NewEntry with nothing in between.
  ghost function NewEntry(r: Ring): (r': Ring)
    requires Inv(r) && r.producer.Trying?
    ensures Inv(r') && r'.size == r.size && Answered(r.producer, r'.producer)
    ensures Queue(r') == Queue(r) && r'.posted == r.posted
  {
    hide HeaderAt, Chain, Records, DoTryEntry, DoJump, Inv;
    TryStep(r);
    var tried := DoTryEntry(r);
    if tried.producer.Filling? then
      JumpStep(tried);
      DoJump(tried)
    else tried
  }

  ghost function WriteEntryHeader(r: Ring): (r': Ring)
    requires Inv(r) && (r.producer.Idle? || r.producer.Granted?)
    ensures Inv(r') && r'.size == r.size && (r.producer.Idle? ==> r' == r)
    ensures r.producer.Granted? ==> r'.producer == Reserved(r.producer.at, r.producer.need)
    ensures Queue(r') == Queue(r)
  {
    hide HeaderAt, Chain, Records, Encode, Store;
    if r.producer.Granted? then
      StepGood(r, WriteHeader);
      Apply(r, WriteHeader)
    else r
  }

  lemma CallNewStep(r: Ring, size: nat)
    requires Inv(r) && Enabled(r, CallNew(size))
    ensures var r' := r.(producer := Trying(CalSize(size), false));
            Inv(r') && Queue(r') == Queue(r)
  {
    hide HeaderAt, Chain, Records, CalSize;
    CallNewGood(r, size);
  }

  lemma RereadHeadStep(r: Ring)
    requires Inv(r) && r.producer.Refreshing?
    ensures var r' := r.(headRef := r.head, producer := Trying(r.producer.need, true));
            Inv(r') && Queue(r') == Queue(r)
  {
    hide HeaderAt, Chain, Records;
    RereadHeadGood(r);
  }

  // New: a second NewEntry follows a read of the head.
  ghost function New(r: Ring, size: nat): (r': Ring)
    requires Inv(r) && Enabled(r, CallNew(size))
    ensures Inv(r') && r'.size == r.size
    ensures r'.producer == Idle(true) || (r'.producer.Reserved? && r'.producer.need == CalSize(size))
    ensures Queue(r') == Queue(r)
  {
    hide HeaderAt, Chain, Records, CalSize, Inv;
    CallNewStep(r, size);
    var first := NewEntry(r.(producer := Trying(CalSize(size), false)));
    if first.producer.Refreshing? then
      RereadHeadStep(first);
      WriteEntryHeader(NewEntry(first.(headRef := first.head, producer := Trying(first.producer.need, true))))
    else
      WriteEntryHeader(first)
  }

  // What the producer's steps leave alone.
  predicate SameConsumer(r: Ring, r': Ring) {
    r'.head == r.head && r'.tailRef == r.tailRef && r'.consumer == r.consumer && r'.taken == r.taken
  }

  lemma GeometryOf(r: Ring)
    requires Inv(r)
    ensures Geometry(r) && Layout(r) && ProducerOk(r) && ConsumerOk(r)
  {
  }

  lemma TryOutcome(r: Ring)
    requires Geometry(r) && r.producer.Trying?
    ensures var r', t, h, need := DoTryEntry(r), Index(r.tail, r.size), Index(r.headRef, r.size), r.producer.need;
            && SameConsumer(r, r') && r'.headRef == r.headRef && r'.tail == r.tail && r'.size == r.size
            && r'.producer == if r.tail - r.headRef >= r.size then Refuse(r).producer
                              else if t < h then
                                if t + need <= h then Granted(t, need) else Refuse(r).producer
                              else if t + need <= r.size then Granted(t, need)
                              else Filling(need, r.producer.retried)
  {
    hide HeaderAt, Chain, Records, Encode, Store;
  }

  lemma JumpOutcome(r: Ring)
    requires Geometry(r) && r.producer.Filling?
    ensures var r', t, h, need := DoJump(r), Index(r.tail, r.size), Index(r.headRef, r.size), r.producer.need;
            && SameConsumer(r, r') && r'.headRef == r.headRef && r'.size == r.size
            && r'.tail == r.tail + (r.size - t) && Wrap(r'.tail, r.size) == 0
            && (r'.producer.Granted? <==> need <= h)
  {
    WrapLapEnd(r.tail, r.size);
  }

  // The outcome of NewEntry, by the positions of tail and cached head.
  lemma NewEntryOutcome(r: Ring)
    requires Inv(r) && r.producer.Trying?
    ensures var r', t, h, need := NewEntry(r), Index(r.tail, r.size), Index(r.headRef, r.size), r.producer.need;
            && SameConsumer(r, r') && r'.headRef == r.headRef
            && if r.tail - r.headRef >= r.size then !r'.producer.Granted? && r'.tail == r.tail
               else if t < h then (r'.producer.Granted? <==> t + need <= h) && r'.tail == r.tail
               else if t + need <= r.size then r'.producer.Granted? && r'.tail == r.tail
               else (r'.producer.Granted? <==> need <= h)
                    && r'.tail == r.tail + (r.size - t) && Wrap(r'.tail, r.size) == 0
  {
    hide HeaderAt, Chain, Records, DoTryEntry, DoJump, Inv;
    GeometryOf(r);
    TryStep(r);
    TryOutcome(r);
    var tried := DoTryEntry(r);
    if tried.producer.Filling? {
      GeometryOf(tried);
      JumpOutcome(tried);
    }
  }

  /* What New answers on any ring */

  // With the tail at index t and the head at index h, `used` bytes between them: there is a
  // free contiguous run of `need` bytes at the tail, or at the buffer start behind filler.
  predicate RoomAt(size: nat, t: nat, h: nat, used: int, need: nat) {
    used < size && if t < h then t + need <= h else t + need <= size || need <= h
  }

  predicate HasRoom(size: nat, tail: nat, head: nat, need: nat)
    requires 0 < size
  {
    RoomAt(size, tail % size, head % size, tail - head, need)
  }

  // Where the entry goes if there is room for it.
  function Place(size: nat, tail: nat, need: nat): nat
    requires 0 < size
  {
    if tail % size + need <= size then tail % size else 0
  }

  // One NewEntry decides by the tail and the head it knows.
  lemma EntryAnswers(r: Ring)
    requires Inv(r) && r.producer.Trying?
    ensures var r', t, h, need := NewEntry(r), Index(r.tail, r.size), Index(r.headRef, r.size), r.producer.need;
            && SameConsumer(r, r') && r'.headRef == r.headRef
            && (r'.producer.Granted? <==> RoomAt(r.size, t, h, r.tail - r.headRef, need))
            && (r'.tail == r.tail
                || (r.tail - r.headRef < r.size && h <= t && t + need > r.size
                    && r'.tail == r.tail + (r.size - t)))
            && (r'.producer.Granted? ==>
                  r'.producer.at == Index(r'.tail, r.size) == if t + need <= r.size then t else 0)
  {
    hide HeaderAt, Chain, Records, NewEntry, Inv;
    NewEntryOutcome(r);
    GeometryOf(r);
    GeometryOf(NewEntry(r));
  }

  // A head further on leaves no less room.
  lemma RoomGrows(size: nat, tail: nat, known: nat, head: nat, need: nat)
    requires 0 < size && known <= head <= tail <= known + size
    requires RoomAt(size, Wrap(tail, size), Wrap(known, size), tail - known, need)
    ensures RoomAt(size, Wrap(tail, size), Wrap(head, size), tail - head, need)
  {
    WrapLaps(known, tail, size);
    WrapLaps(head, tail, size);
    WrapLaps(known, head, size);
  }

  // A first try that jumped to the buffer start changes nothing for the second.
  lemma RoomAfterJump(size: nat, tail: nat, known: nat, head: nat, need: nat)
    requires 0 < size && known <= head <= tail < known + size
    requires Wrap(known, size) <= Wrap(tail, size) && Wrap(tail, size) + need > size
    ensures var jumped := tail + (size - Wrap(tail, size));
            && Wrap(jumped, size) == 0
            && (RoomAt(size, 0, Wrap(head, size), jumped - head, need)
                <==> RoomAt(size, Wrap(tail, size), Wrap(head, size), tail - head, need))
  {
    WrapLapEnd(tail, size);
    WrapLaps(known, tail, size);
    WrapLaps(head, tail, size);
    WrapLaps(known, head, size);
  }

  lemma RoomByIndex(size: nat, tail: nat, head: nat, need: nat)
    requires 0 < size
    ensures HasRoom(size, tail, head, need)
            <==> RoomAt(size, Wrap(tail, size), Wrap(head, size), tail - head, need)
    ensures Place(size, tail, need) == if Wrap(tail, size) + need <= size then Wrap(tail, size) else 0
  {
    WrapIsMod(tail, size);
    WrapIsMod(head, size);
  }

  // The second NewEntry, behind a first one that failed.
  lemma SecondAnswers(r: Ring, again: Ring)
    requires Inv(r) && Inv(again) && r.size == again.size && r.head == again.head == again.headRef
    requires again.producer.Trying?
    requires again.tail == r.tail
             || (&& r.tail - r.headRef < r.size && Index(r.headRef, r.size) <= Index(r.tail, r.size)
                 && Index(r.tail, r.size) + again.producer.need > r.size
                 && again.tail == r.tail + (r.size - Index(r.tail, r.size)))
    ensures var r', need := NewEntry(again), again.producer.need;
            && SameConsumer(r, r') == SameConsumer(r, again) && r'.headRef == r.head
            && (r'.producer.Granted? <==> HasRoom(r.size, r.tail, r.head, need))
            && (r'.producer.Granted? ==> r'.producer.at == Place(r.size, r.tail, need) == Index(r'.tail, r.size))
  {
    hide HeaderAt, Chain, Records, Inv, NewEntry, RoomAt, HasRoom, Place;
    GeometryOf(r);
    GeometryOf(again);
    EntryAnswers(again);
    RoomByIndex(r.size, r.tail, r.head, again.producer.need);
    if again.tail != r.tail {
      RoomAfterJump(r.size, r.tail, r.headRef, r.head, again.producer.need);
    }
  }

  // New on any ring: granted exactly if the ring has room by the consumer's head as it is,
  // however old the cached one was; a refusal leaves the cached head up to date.
  lemma NewAnswers(r: Ring, size: nat)
    requires Inv(r) && Enabled(r, CallNew(size))
    ensures var r', need := New(r, size), CalSize(size);
            && SameConsumer(r, r')
            && (r'.producer.Reserved? <==> HasRoom(r.size, r.tail, r.head, need))
            && (r'.producer.Reserved? ==>
                  r'.producer.at == Place(r.size, r.tail, need) == Index(r'.tail, r.size))
            && (!r'.producer.Reserved? ==> r'.headRef == r.head)
  {
    hide HeaderAt, Chain, Records, Encode, Store, CalSize, NewEntry, RoomAt, HasRoom, Place, Inv;
    GeometryOf(r);
    CallNewStep(r, size);
    var called := r.(producer := Trying(CalSize(size), false));
    EntryAnswers(called);
    RoomByIndex(r.size, r.tail, r.head, CalSize(size));
    var first := NewEntry(called);
    if first.producer.Refreshing? {
      RereadHeadStep(first);
      var again := first.(headRef := first.head, producer := Trying(first.producer.need, true));
      SecondAnswers(r, again);
    } else {
      RoomGrows(r.size, r.tail, r.headRef, r.head, CalSize(size));
    }
  }

  lemma ReservedHeader(r: Ring, size: nat)
    requires Inv(r) && Enabled(r, CallNew(size)) && New(r, size).producer.Reserved?
    ensures var r' := New(r, size);
            && r'.producer.at + HEADER_SIZE <= |r'.mem| && r'.tail % 8 == 0
            && HeaderAt(r'.mem, r'.producer.at) == Header(MAGIC, 0, CalSize(size))
  {
    hide HeaderAt, Chain, Records, New, CalSize;
    assert Inv(New(r, size));
  }

  // The condition under which a drained ring grants an entry at index t.
  predicate FitsDrained(size: nat, t: nat, need: nat) {
    t + need <= size || need <= t
  }

  // The first NewEntry of a drained ring, whatever old head it works with.
  lemma FirstTryDrained(r: Ring)
    requires Inv(r) && r.head == r.tail && r.producer.Trying? && !r.producer.retried
    ensures var r', t, need := NewEntry(r), Index(r.tail, r.size), r.producer.need;
            && SameConsumer(r, r')
            && (r'.producer.Granted? ==> FitsDrained(r.size, t, need))
            && (r'.tail == r.tail
                || (t + need > r.size && r'.tail == r.tail + (r.size - t) && Wrap(r'.tail, r.size) == 0))
  {
    hide HeaderAt, Chain, Records, Inv;
    NewEntryOutcome(r);
    GeometryOf(r);
  }

  // New on a drained ring: granted exactly if the entry fits before the buffer end or in
  // front of the current index; otherwise the tail is left at index zero.
  lemma NewDrained(r: Ring, size: nat)
    requires Inv(r) && Enabled(r, CallNew(size)) && r.head == r.tail
    ensures var r', t, need := New(r, size), Index(r.tail, r.size), CalSize(size);
            && SameConsumer(r, r')
            && (r'.producer.Reserved? <==> FitsDrained(r.size, t, need))
            && (!r'.producer.Reserved? ==> Wrap(r'.tail, r.size) == 0)
            && (t + need <= r.size ==> r'.tail == r.tail && r'.posted == r.posted)
  {
    hide HeaderAt, Chain, Records, Encode, Store, CalSize, NewEntry;
    CallNewStep(r, size);
    var called := r.(producer := Trying(CalSize(size), false));
    FirstTryDrained(called);
    var first := NewEntry(called);
    if first.producer.Refreshing? {
      RereadHeadStep(first);
      var again := first.(headRef := first.head, producer := Trying(first.producer.need, true));
      SecondTryDrained(r, again);
    }
  }

  // The second NewEntry works with the head as it is: the tail of before the first.
  lemma SecondTryDrained(r: Ring, again: Ring)
    requires Inv(r) && Inv(again) && r.size == again.size && r.head == r.tail
    requires again.producer.Trying? && again.headRef == again.head == r.tail
    requires again.tail == r.tail
             || (Index(r.tail, r.size) + again.producer.need > r.size && Wrap(again.tail, r.size) == 0
                 && again.tail == r.tail + (r.size - Index(r.tail, r.size)))
    ensures var r', t, need := NewEntry(again), Index(r.tail, r.size), again.producer.need;
            && (r'.producer.Granted? <==> FitsDrained(r.size, t, need))
            && (!r'.producer.Granted? ==> Wrap(r'.tail, r.size) == 0)
            && (t + need <= r.size ==> r'.tail == r.tail)
            && SameConsumer(again, r')
  {
    hide HeaderAt, Chain, Records, Inv, NewEntry;
    GeometryOf(r);
    GeometryOf(again);
    NewEntryOutcome(again);
  }

  // Every entry of at most half the ring is granted at every index of a drained ring, and
  // no larger bound has this property.
  lemma HalfTheRing(size: nat, need: nat)
    requires size % 16 == 0 && 0 < size && need % 8 == 0
    ensures (forall t: nat :: t % 8 == 0 && t < size ==> FitsDrained(size, t, need)) <==> need <= size / 2
  {
    if need > size / 2 {
      assert !FitsDrained(size, size / 2, need);
    }
  }

  /* Get */

  predicate Returned(before: Consumer, after: Consumer) {
    (before.Looking? || before.Skipping?)
    && match after
       case Resting(missed) => before.reread && missed
       case Rereading => !before.reread
       case Holding(_) => true
       case _ => false
  }

  predicate SameProducer(r: Ring, r': Ring) {
    r'.tail == r.tail && r'.headRef == r.headRef && r'.producer == r.producer && r'.posted == r.posted
    && r'.mem == r.mem
  }

  // The outcome of GetEntry's tests, by the positions of head and cached tail.
  lemma TryGetOutcome(r: Ring)
    requires Geometry(r) && r.consumer.Looking?
    ensures var r', h, t := DoTryGet(r), Index(r.head, r.size), Index(r.tailRef, r.size);
            && r' == r.(consumer := r'.consumer)
            && r'.consumer == if r.head >= r.tailRef then Miss(r).consumer
                              else if h < t || IsEntry(r.mem, r.size, h) then Holding(h)
                              else Skipping(r.consumer.reread)
  {
    hide HeaderAt, Chain, Records;
  }

  lemma TryGetStep(r: Ring)
    requires Inv(r) && r.consumer.Looking?
    ensures var r' := DoTryGet(r);
            && Inv(r') && r'.size == r.size && Queue(r') == Queue(r) && Known(r') == Known(r)
            && SameProducer(r, r') && r'.tailRef == r.tailRef && r'.taken == r.taken
            && (Returned(r.consumer, r'.consumer) || r'.consumer == Skipping(r.consumer.reread))
  {
    hide HeaderAt, Chain, Records, DoTryGet;
    TryGetOutcome(r);
    TryGetGood(r);
  }

  lemma SkipStep(r: Ring)
    requires Inv(r) && r.consumer.Skipping?
    ensures var r' := DoSkip(r);
            && Inv(r') && r'.size == r.size && Queue(r') == Queue(r) && Known(r') == Known(r)
            && SameProducer(r, r') && r'.tailRef == r.tailRef && r'.taken == r.taken
            && Returned(r.consumer, r'.consumer)
  {
    hide HeaderAt, Chain, Records;
    SkipGood(r);
  }

  lemma SkipOutcome(r: Ring)
    requires Inv(r) && r.consumer.Skipping?
    ensures DoSkip(r).consumer == if 0 < Index(r.tailRef, r.size) then Holding(0) else Miss(r).consumer
  {
    hide HeaderAt, Chain, Records;
  }

  // GetEntry with nothing in between.
  ghost function GetEntry(r: Ring): (r': Ring)
    requires Inv(r) && r.consumer.Looking?
    ensures Inv(r') && r'.size == r.size && Returned(r.consumer, r'.consumer)
    ensures Queue(r') == Queue(r) && Known(r') == Known(r)
    ensures SameProducer(r, r') && r'.tailRef == r.tailRef && r'.taken == r.taken
  {
    hide HeaderAt, Chain, Records, DoTryGet, DoSkip, Inv;
    TryGetStep(r);
    var tried := DoTryGet(r);
    if tried.consumer.Skipping? then
      SkipStep(tried);
      DoSkip(tried)
    else tried
  }

  lemma CallGetStep(r: Ring)
    requires Inv(r) && Enabled(r, CallGet)
    ensures var r' := r.(consumer := Looking(false));
            Inv(r') && Queue(r') == Queue(r)
  {
    hide HeaderAt, Chain, Records;
  }

  lemma RereadTailStep(r: Ring)
    requires Inv(r) && r.consumer.Rereading?
    ensures var r' := r.(tailRef := r.tail, consumer := Looking(true));
            Inv(r') && Queue(r') == Queue(r) && Known(r') == Queue(r)
  {
    hide HeaderAt, Chain, Records;
    RereadTailGood(r);
  }

  // Get: a second GetEntry follows a read of the tail.
  ghost function Get(r: Ring): (r': Ring)
    requires Inv(r) && Enabled(r, CallGet)
    ensures Inv(r') && r'.size == r.size && (r'.consumer == Resting(true) || r'.consumer.Holding?)
    ensures Queue(r') == Queue(r) && SameProducer(r, r') && r'.taken == r.taken
    ensures r'.consumer == Resting(true) ==> r'.tailRef == r.tail
  {
    hide HeaderAt, Chain, Records, Inv;
    CallGetStep(r);
    var first := GetEntry(r.(consumer := Looking(false)));
    if first.consumer.Rereading? then
      RereadTailStep(first);
      GetEntry(first.(tailRef := first.tail, consumer := Looking(true)))
    else first
  }

  // Get without interference returns null exactly on an empty queue, having caught up
  // with the tail, and otherwise the oldest payload.
  lemma GetExact(r: Ring)
    requires Inv(r) && Enabled(r, CallGet)
    ensures var r' := Get(r);
            && (r'.consumer == Resting(true) <==> Queue(r) == [])
            && (r'.consumer == Resting(true) ==> r'.head == r'.tail)
            && (r'.consumer.Holding? ==>
                  && Queue(r) != []
                  && var at := r'.consumer.at;
                     Queue(r)[0] == Payload(r'.mem, at, HeaderAt(r'.mem, at).length))
  {
    hide HeaderAt, Chain, Records, Get;
    var r' := Get(r);
    if r'.consumer.Holding? {
      HoldingIsOldest(r');
    } else {
      GeometryOf(r');
      DrainedQueue(r');
    }
  }

  /* Recovery */

  // On a drained ring a refused request needs no more than one empty Get: then the same
  // request is granted, if it fits the ring at all.
  lemma RefusalRecovers(r: Ring, size: nat)
    requires Inv(r) && Enabled(r, CallNew(size)) && Enabled(r, CallGet) && r.head == r.tail
    ensures var refused := New(r, size);
            refused.producer == Idle(true) ==>
              && Inv(refused) && Enabled(refused, CallGet)
              && var got := Get(refused);
                 && got.consumer == Resting(true)
                 && Inv(got) && Enabled(got, CallNew(size))
                 && (New(got, size).producer.Reserved? <==> CalSize(size) <= r.size)
  {
    hide HeaderAt, Chain, Records, New, Get, CalSize;
    NewDrained(r, size);
    var refused := New(r, size);
    if refused.producer == Idle(true) {
      DrainedQueue(r);
      GetExact(refused);
      NewDrained(Get(refused), size);
    }
  }

  lemma DrainedQueue(r: Ring)
    requires Inv(r) && r.head == r.tail
    ensures Queue(r) == []
  {
  }

  // A request larger than the ring is refused in every state.
  lemma OversizeRefused(r: Ring, size: nat)
    requires Inv(r) && Enabled(r, CallNew(size)) && CalSize(size) > r.size
    ensures New(r, size).producer == Idle(true)
  {
    hide HeaderAt, Chain, Records, New, CalSize;
    GeometryOf(New(r, size));
  }
}
