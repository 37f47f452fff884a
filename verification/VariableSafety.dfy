// Every step of the ring keeps the invariant and acts on the abstract queue as a FIFO.
module VariableSafety {
  import opened Arith
  import opened EntryHeader
  import opened VariableLayout
  import opened VariableRing

  lemma InitialInv(r: Ring)
    requires Initial(r)
    ensures Inv(r) && Queue(r) == []
  {
  }

  /* Lap arithmetic */

  lemma ConsumerLap(head: nat, tailRef: nat, size: nat)
    requires 0 < size && head < tailRef <= head + size
    ensures var h, t := Wrap(head, size), Wrap(tailRef, size);
            tailRef - t == if h < t then head - h else head - h + size
  {
    if tailRef < head + size {
      WrapLaps(head, tailRef, size);
      WrapDistinct(head, tailRef, size);
    }
  }

  /* Memory writes of the producer */

  // Bytes behind the tail and within one lap of the cached head are no part of any
  // posted, undeleted entry, whatever the consumer has cached.
  lemma WriteSpares(r: Ring, offset: nat, bytes: Bytes)
    requires Geometry(r) && Layout(r)
    requires bytes != [] && Wrap(r.tail, r.size) + offset + |bytes| <= r.size
    requires r.tail + offset + |bytes| <= r.headRef + r.size
    ensures var mem' := Store(r.mem, Wrap(r.tail, r.size) + offset, bytes);
            && Agree(r.mem, mem', r.size, r.head, r.tail)
            && Layout(r.(mem := mem'))
            && Queue(r.(mem := mem')) == Queue(r)
            && Known(r.(mem := mem')) == Known(r)
            && (r.head < r.tail ==> var h := Index(r.head, r.size);
                                    IsEntry(mem', r.size, h) == IsEntry(r.mem, r.size, h))
  {
    hide HeaderAt, Chain, Records, Store;
    var at := Wrap(r.tail, r.size) + offset;
    var mem' := Store(r.mem, at, bytes);
    WrapAdd(r.tail, offset, r.size);
    StoreSpares(r.mem, r.size, r.head, r.tail, r.tail + offset, at, bytes);
    assert Agree(r.mem, mem', r.size, r.head, r.tailRef);
    assert Agree(r.mem, mem', r.size, r.tailRef, r.tail);
    ChainAgrees(r.mem, mem', r.size, r.head, r.tail);
    ChainAgrees(r.mem, mem', r.size, r.head, r.tailRef);
    ChainAgrees(r.mem, mem', r.size, r.tailRef, r.tail);
    if r.head < r.tail {
      HeaderAgrees(r.mem, mem', r.size, r.head, r.tail);
    }
  }

  // The reserved entry as Post will publish it.
  ghost function Pending(r: Ring): Posting
    requires Geometry(r) && ProducerOk(r) && r.producer.Reserved?
  {
    Posting(r.producer.at, Payload(r.mem, r.producer.at, r.producer.need))
  }

  // What a step may do to the queue and its histories.
  ghost predicate Refines(r: Ring, step: Step, r': Ring)
    requires Inv(r) && Enabled(r, step) && Geometry(r') && Layout(r')
  {
    match step
    case PostEntry =>
      && r'.posted == r.posted + [Pending(r)]
      && r'.taken == r.taken
      && Queue(r') == Queue(r) + (if Lost(r.size, Pending(r)) then [] else [Pending(r).payload])
    case DeleteEntry =>
      && Queue(r) != []
      && Queue(r') == Queue(r)[1..]
      && r'.taken == r.taken + [Queue(r)[0]]
      && r'.posted == r.posted
    case _ => Queue(r') == Queue(r) && r'.posted == r.posted && r'.taken == r.taken
  }

  ghost predicate Good(r: Ring, step: Step, r': Ring)
    requires Inv(r) && Enabled(r, step)
  {
    && Inv(r') && r'.size == r.size
    && Agree(r.mem, r'.mem, r.size, r.head, r.tail)
    && Refines(r, step, r')
  }

  lemma CallNewGood(r: Ring, size: nat)
    requires Inv(r) && Enabled(r, CallNew(size))
    ensures Good(r, CallNew(size), Apply(r, CallNew(size)))
  {
    hide HeaderAt, Chain, Records;
    CalSizeFits(size);
  }

  lemma PlaceholderGood(r: Ring)
    requires Inv(r) && r.producer.Trying? && r.tail < r.headRef + r.size
    requires Wrap(r.tail, r.size) >= Wrap(r.headRef, r.size)
    ensures var t := Index(r.tail, r.size);
            var header := Header(MAGIC, PLACEHOLD, (r.size - t) % UINT32);
            var r' := r.(mem := Store(r.mem, t, Encode(header)),
                         producer := Filling(r.producer.need, r.producer.retried));
            Good(r, TryEntry, r') && Known(r') == Known(r)
  {
    hide HeaderAt, Chain, Records, Encode, Store;
    WrapLaps(r.headRef, r.tail, r.size);
    var t := Index(r.tail, r.size);
    assert r.tail - t == r.headRef - Wrap(r.headRef, r.size);
    var header := Header(MAGIC, PLACEHOLD, (r.size - t) % UINT32);
    WriteSpares(r, 0, Encode(header));
    HeaderStored(r.mem, t, header);
  }

  lemma TryEntryGood(r: Ring)
    requires Inv(r) && Enabled(r, TryEntry)
    ensures Good(r, TryEntry, Apply(r, TryEntry))
    ensures Known(Apply(r, TryEntry)) == Known(r)
  {
    hide HeaderAt, Chain, Records, Encode, Store;
    if r.tail - r.headRef < r.size {
      var t, h := Index(r.tail, r.size), Index(r.headRef, r.size);
      if t >= h && t + r.producer.need > r.size {
        PlaceholderGood(r);
      } else {
        WrapLaps(r.headRef, r.tail, r.size);
      }
    }
  }

  lemma WriteHeaderGood(r: Ring)
    requires Inv(r) && Enabled(r, WriteHeader)
    ensures Good(r, WriteHeader, Apply(r, WriteHeader))
    ensures Known(Apply(r, WriteHeader)) == Known(r)
  {
    hide HeaderAt, Chain, Records, Encode, Store;
    var header := Header(MAGIC, 0, r.producer.need);
    WriteSpares(r, 0, Encode(header));
    HeaderStored(r.mem, r.producer.at, header);
  }

  lemma HeaderBeside(mem: Bytes, at: nat, i: nat, bytes: Bytes)
    requires at + HEADER_SIZE <= i && i + |bytes| <= |mem|
    ensures HeaderAt(Store(mem, i, bytes), at) == HeaderAt(mem, at)
  {
    assert Store(mem, i, bytes)[at..at + HEADER_SIZE] == mem[at..at + HEADER_SIZE];
  }

  lemma WritePayloadGood(r: Ring, offset: nat, value: Byte)
    requires Inv(r) && Enabled(r, WritePayload(offset, value))
    ensures Good(r, WritePayload(offset, value), Apply(r, WritePayload(offset, value)))
    ensures Known(Apply(r, WritePayload(offset, value))) == Known(r)
  {
    hide HeaderAt, Chain, Records, Store;
    WriteSpares(r, offset, [value]);
    HeaderBeside(r.mem, r.producer.at, r.producer.at + offset, [value]);
  }

  // The block that starts at the tail joins the queue when the tail moves behind it.
  lemma Publish(r: Ring)
    requires Geometry(r) && Layout(r)
    requires BlockOk(r.mem, r.size, Index(r.tail, r.size))
    requires Next(r.mem, r.size, r.tail) <= r.headRef + r.size
    ensures var r' := r.(tail := Next(r.mem, r.size, r.tail));
            && Geometry(r') && Layout(r')
            && Queue(r') == Queue(r) + BlockRecords(r.mem, r.size, Index(r.tail, r.size))
            && Known(r') == Known(r)
  {
    hide HeaderAt;
    var tail' := Next(r.mem, r.size, r.tail);
    assert Chain(r.mem, r.size, tail', tail');
    assert Chain(r.mem, r.size, r.tail, tail');
    var block := BlockRecords(r.mem, r.size, Index(r.tail, r.size));
    assert Records(r.mem, r.size, r.tail, tail') == block + [];
    ChainJoin(r.mem, r.size, r.head, r.tail, tail');
    ChainJoin(r.mem, r.size, r.tailRef, r.tail, tail');
  }

  lemma JumpMoves(r: Ring)
    requires Inv(r) && Enabled(r, Jump)
    ensures var t := Index(r.tail, r.size);
            && BlockOk(r.mem, r.size, t) && !IsEntry(r.mem, r.size, t)
            && DoJump(r).tail == Next(r.mem, r.size, r.tail) == r.tail + (r.size - t)
            && DoJump(r).tail <= r.headRef + r.size
            && Wrap(DoJump(r).tail, r.size) == 0
  {
    hide HeaderAt;
    WrapLapEnd(r.tail, r.size);
  }

  lemma JumpGood(r: Ring)
    requires Inv(r) && Enabled(r, Jump)
    ensures Good(r, Jump, Apply(r, Jump))
    ensures Known(Apply(r, Jump)) == Known(r)
    ensures Wrap(Apply(r, Jump).tail, r.size) == 0
  {
    hide HeaderAt, Chain, Records;
    JumpMoves(r);
    Publish(r);
    var r' := DoJump(r);
    var moved := r.(tail := r'.tail);
    assert Queue(moved) == Queue(r) + [];
    assert Geometry(r') && Layout(r') && Queue(r') == Queue(moved) && Known(r') == Known(moved);
  }

  lemma KeptAppend(size: nat, posted: seq<Posting>, p: Posting)
    ensures Kept(size, posted + [p]) == Kept(size, posted) + if Lost(size, p) then [] else [p.payload]
  {
    assert (posted + [p])[..|posted|] == posted;
  }

  lemma PostMoves(r: Ring)
    requires Inv(r) && Enabled(r, PostEntry)
    ensures var at := r.producer.at;
            && BlockOk(r.mem, r.size, at)
            && DoPost(r) == r.(tail := Next(r.mem, r.size, r.tail), producer := Idle(false),
                               posted := r.posted + [Pending(r)])
            && DoPost(r).tail <= r.headRef + r.size
            && BlockRecords(r.mem, r.size, at)
               == if Lost(r.size, Pending(r)) then [] else [Pending(r).payload]
  {
    hide HeaderAt;
  }

  lemma PostGood(r: Ring)
    requires Inv(r) && Enabled(r, PostEntry)
    ensures Good(r, PostEntry, Apply(r, PostEntry))
    ensures Known(Apply(r, PostEntry)) == Known(r)
  {
    hide HeaderAt, Chain, Records, Kept, DoPost, Payload;
    PostMoves(r);
    Publish(r);
    var p, r' := Pending(r), DoPost(r);
    KeptAppend(r.size, r.posted, p);
    var kept := if Lost(r.size, p) then [] else [p.payload];
    var moved := r.(tail := r'.tail);
    assert Geometry(r') && Layout(r') && Queue(r') == Queue(moved) && Known(r') == Known(moved);
    assert r.taken + Queue(r) + kept == r.taken + (Queue(r) + kept);
  }

  lemma RereadHeadGood(r: Ring)
    requires Inv(r) && Enabled(r, RereadHead)
    ensures Good(r, RereadHead, Apply(r, RereadHead))
    ensures Known(Apply(r, RereadHead)) == Known(r)
  {
    hide HeaderAt, Chain, Records;
  }

  // Filler at the head of a nonempty known part reaches up to the cached tail's lap.
  lemma FillerWraps(r: Ring)
    requires Geometry(r) && Layout(r) && r.head < r.tailRef
    requires !IsEntry(r.mem, r.size, Index(r.head, r.size))
    ensures Index(r.head, r.size) >= Index(r.tailRef, r.size)
    ensures Next(r.mem, r.size, r.head) == r.head + (r.size - Index(r.head, r.size)) <= r.tailRef
  {
    hide HeaderAt;
    ConsumerLap(r.head, r.tailRef, r.size);
  }

  lemma TryGetGood(r: Ring)
    requires Inv(r) && Enabled(r, TryGet)
    ensures Good(r, TryGet, Apply(r, TryGet))
    ensures Known(Apply(r, TryGet)) == Known(r)
  {
    hide HeaderAt;
    if r.head < r.tailRef && !IsEntry(r.mem, r.size, Index(r.head, r.size)) {
      FillerWraps(r);
    }
  }

  // Dropping filler at the head leaves the queue as it is.
  lemma DropFiller(r: Ring)
    requires Geometry(r) && Layout(r) && r.head < r.tailRef
    requires !IsEntry(r.mem, r.size, Index(r.head, r.size))
    ensures var r' := r.(head := Next(r.mem, r.size, r.head));
            Geometry(r') && Layout(r') && Queue(r') == Queue(r) && Known(r') == Known(r)
  {
    hide HeaderAt;
  }

  // After a skip the head is at index zero, and what follows is an entry or nothing.
  lemma AfterSkip(r: Ring)
    requires Geometry(r) && Layout(r) && Wrap(r.head, r.size) == 0 && r.tailRef < r.head + r.size
    ensures Wrap(r.tailRef, r.size) == r.tailRef - r.head
    ensures r.head < r.tailRef ==> IsEntry(r.mem, r.size, 0)
  {
    hide HeaderAt;
    WrapAdd(r.head, r.tailRef - r.head, r.size);
    if r.head < r.tailRef && !IsEntry(r.mem, r.size, 0) {
      FillerWraps(r);
      assert false;
    }
  }

  lemma SkipMoves(r: Ring)
    requires Inv(r) && Enabled(r, Skip)
    ensures DoSkip(r).head == Next(r.mem, r.size, r.head) == r.head + (r.size - Index(r.head, r.size))
    ensures Wrap(DoSkip(r).head, r.size) == 0 && r.tailRef < DoSkip(r).head + r.size
  {
    hide HeaderAt;
    FillerWraps(r);
    WrapLapEnd(r.head, r.size);
  }

  lemma SkipGood(r: Ring)
    requires Inv(r) && Enabled(r, Skip)
    ensures Good(r, Skip, Apply(r, Skip))
    ensures Known(Apply(r, Skip)) == Known(r)
    ensures Wrap(Apply(r, Skip).head, r.size) == 0
  {
    hide HeaderAt, Chain, Records;
    SkipMoves(r);
    DropFiller(r);
    var r' := DoSkip(r);
    var moved := r.(head := r'.head);
    AfterSkip(moved);
    assert Geometry(r') && Layout(r') && Queue(r') == Queue(moved) && Known(r') == Known(moved);
  }

  lemma RereadTailGood(r: Ring)
    requires Inv(r) && Enabled(r, RereadTail)
    ensures Good(r, RereadTail, Apply(r, RereadTail))
    ensures Known(Apply(r, RereadTail)) == Queue(r)
  {
    hide HeaderAt;
    assert Chain(r.mem, r.size, r.tail, r.tail);
  }

  // The entry Get returned is the oldest of the queue and of its known part.
  lemma HoldingIsOldest(r: Ring)
    requires Inv(r) && r.consumer.Holding?
    ensures var at := r.consumer.at;
            && at == Index(r.head, r.size) && IsEntry(r.mem, r.size, at) && BlockOk(r.mem, r.size, at)
            && Queue(r) != [] && Known(r) != []
            && Queue(r)[0] == Known(r)[0] == Payload(r.mem, at, HeaderAt(r.mem, at).length)
  {
    hide HeaderAt;
  }

  lemma DeleteMoves(r: Ring)
    requires Inv(r) && Enabled(r, DeleteEntry)
    ensures var at := r.consumer.at;
            && IsEntry(r.mem, r.size, at) && BlockOk(r.mem, r.size, at)
            && DoDelete(r) == r.(head := Next(r.mem, r.size, r.head), consumer := Resting(false),
                                 taken := r.taken + [Payload(r.mem, at, HeaderAt(r.mem, at).length)])
  {
    hide HeaderAt;
  }

  lemma DropOldest(r: Ring)
    requires Geometry(r) && Layout(r) && r.head < r.tailRef
    requires IsEntry(r.mem, r.size, Index(r.head, r.size))
    ensures var r' := r.(head := Next(r.mem, r.size, r.head));
            && Geometry(r') && Layout(r')
            && Queue(r) == [Queue(r)[0]] + Queue(r')
  {
    hide HeaderAt;
  }

  lemma DeleteRefines(r: Ring)
    requires Inv(r) && Enabled(r, DeleteEntry)
    ensures Geometry(DoDelete(r)) && Layout(DoDelete(r))
    ensures Refines(r, DeleteEntry, DoDelete(r))
  {
    hide HeaderAt;
    DeleteMoves(r);
    HoldingIsOldest(r);
    DropOldest(r);
    var r', moved := DoDelete(r), r.(head := Next(r.mem, r.size, r.head));
    assert Geometry(r') && Layout(r') && Queue(r') == Queue(moved);
  }

  lemma DeleteGood(r: Ring)
    requires Inv(r) && Enabled(r, DeleteEntry)
    ensures Good(r, DeleteEntry, Apply(r, DeleteEntry))
  {
    hide HeaderAt, Chain, Records, Kept, DoDelete, Payload;
    DeleteMoves(r);
    DeleteRefines(r);
    var r', first := DoDelete(r), Queue(r)[0];
    assert Queue(r) == [first] + Queue(r');
    assert r.taken + ([first] + Queue(r')) == (r.taken + [first]) + Queue(r');
  }

  // Any step by either side keeps the invariant and refines the FIFO.
  lemma StepGood(r: Ring, step: Step)
    requires Inv(r) && Enabled(r, step)
    ensures Good(r, step, Apply(r, step))
  {
    hide HeaderAt, Chain, Records;
    match step
    case CallNew(size) => CallNewGood(r, size);
    case TryEntry => TryEntryGood(r);
    case Jump => JumpGood(r);
    case RereadHead => RereadHeadGood(r);
    case WriteHeader => WriteHeaderGood(r);
    case WritePayload(offset, value) => WritePayloadGood(r, offset, value);
    case PostEntry => PostGood(r);
    case CallGet =>
    case TryGet => TryGetGood(r);
    case Skip => SkipGood(r);
    case RereadTail => RereadTailGood(r);
    case DeleteEntry => DeleteGood(r);
  }
}
