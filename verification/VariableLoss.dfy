// The entry the ring loses: one without payload, posted in the last 8 bytes of the buffer.
module VariableLoss {
  import opened Arith
  import opened EntryHeader
  import opened VariableLayout
  import opened VariableRing
  import opened VariableSafety
  import opened VariableRuns
  import opened VariableCapacity
  import opened VariableCalls

  ghost function Post(r: Ring): (r': Ring)
    requires Inv(r) && r.producer.Reserved?
    ensures Inv(r') && r' == DoPost(r) && r'.size == r.size && SameConsumer(r, r')
    ensures r'.tail == r.tail + r.producer.need && r'.posted == r.posted + [Pending(r)]
    ensures Queue(r') == Queue(r) + if Lost(r.size, Pending(r)) then [] else [Pending(r).payload]
  {
    hide HeaderAt, Chain, Records, DoPost;
    PostMoves(r);
    PostGood(r);
    DoPost(r)
  }

  ghost function Delete(r: Ring): (r': Ring)
    requires Inv(r) && r.consumer.Holding?
    ensures Inv(r') && r' == DoDelete(r) && r'.size == r.size && r'.producer == r.producer
    ensures Queue(r) == [Queue(r)[0]] + Queue(r') && r'.taken == r.taken + [Queue(r)[0]]
  {
    hide HeaderAt, Chain, Records, DoDelete;
    DeleteGood(r);
    DoDelete(r)
  }

  // A ring drained at its last 8 bytes grants an entry without payload there.
  lemma LastSlotIsGranted(r: Ring)
    requires Inv(r) && Enabled(r, CallNew(0))
    requires r.head == r.tail && Index(r.tail, r.size) + HEADER_SIZE == r.size
    ensures var reserved := New(r, 0);
            && Inv(reserved) && SameConsumer(r, reserved) && reserved.tail == r.tail
            && reserved.posted == r.posted
            && reserved.producer == Reserved(r.size - HEADER_SIZE, HEADER_SIZE)
  {
    hide HeaderAt, Chain, Records, New;
    NewDrained(r, 0);
    GeometryOf(New(r, 0));
  }

  // Once posted it counts as posted, but the next Get returns null and steps over it.
  lemma LastSlotIsSkipped(r: Ring)
    requires Inv(r) && Enabled(r, CallNew(0)) && Enabled(r, CallGet)
    requires r.head == r.tail && Index(r.tail, r.size) + HEADER_SIZE == r.size
    ensures var reserved := New(r, 0);
            && Inv(reserved) && reserved.producer.Reserved?
            && var posted := Post(reserved);
               && posted.posted == r.posted + [Posting(r.size - HEADER_SIZE, [])]
               && Enabled(posted, CallGet)
               && Get(posted).consumer == Resting(true)
               && Get(posted).head == posted.tail == r.head + HEADER_SIZE
  {
    hide HeaderAt, Chain, Records, New, Get, Post, Inv;
    LastSlotIsGranted(r);
    DrainedQueue(r);
    var reserved := New(r, 0);
    GeometryOf(reserved);
    assert Pending(reserved) == Posting(r.size - HEADER_SIZE, []);
    GetExact(Post(reserved));
  }

  lemma GetInSameLap(r: Ring)
    requires Inv(r) && Enabled(r, CallGet) && r.head == r.tailRef
    requires Index(r.head, r.size) < Index(r.tail, r.size)
    ensures Get(r).consumer.Holding? && Get(r).head == r.head
  {
    hide HeaderAt, Chain, Records;
    CallGetStep(r);
    var first := GetEntry(r.(consumer := Looking(false)));
    assert first.consumer == Rereading && first.head == r.head;
  }

  lemma DeleteMovesHead(r: Ring)
    requires Inv(r) && r.consumer.Holding?
    ensures DoDelete(r).head == r.head + HeaderAt(r.mem, Index(r.head, r.size)).length
    ensures DoDelete(r).tail == r.tail && DoDelete(r).consumer == Resting(false)
  {
    hide HeaderAt, Chain, Records;
    DeleteMoves(r);
  }

  // Idle on both sides with nothing queued.
  ghost predicate Drained(r: Ring) {
    r.head == r.tail && r.producer.Idle? && r.consumer.Resting?
  }

  // What one entry leaves behind that is posted on a drained ring, fetched and deleted.
  ghost predicate Advanced(r: Ring, r': Ring, need: nat) {
    Drained(r') && r'.size == r.size && r'.tail == r.tail + need
  }

  lemma PostBefore(r: Ring, size: nat)
    requires Inv(r) && Drained(r) && size <= MAX_PAYLOAD
    requires Index(r.tail, r.size) + CalSize(size) < r.size
    ensures var reserved := New(r, size);
            && reserved.producer.Reserved?
            && var posted := Post(reserved);
               && Inv(posted) && posted.size == r.size && posted.producer == Idle(false)
               && posted.consumer == r.consumer && posted.head == posted.tailRef == r.head
               && posted.tail == r.tail + CalSize(size)
               && HeaderAt(posted.mem, Index(r.tail, r.size)).length == CalSize(size)
  {
    hide HeaderAt, Chain, Records, New, Encode, Store, CalSize;
    GeometryOf(r);
    NewDrained(r, size);
    GeometryOf(New(r, size));
  }

  // An entry that ends before the buffer end passes through a drained ring.
  lemma PassThrough(r: Ring, size: nat) returns (steps: seq<Step>)
    requires Inv(r) && Drained(r) && size <= MAX_PAYLOAD
    requires Index(r.tail, r.size) + CalSize(size) < r.size
    ensures Runnable(r, steps) && Advanced(r, Exec(r, steps), CalSize(size))
  {
    hide HeaderAt, Chain, Records, New, Get, Inv, CalSize, Post, DoPost, DoDelete, Apply;
    GeometryOf(r);
    PostBefore(r, size);
    var reserved := New(r, size);
    steps := NewIsARun(r, size);
    steps := PostIsARun(r, steps, reserved);
    var posted := Post(reserved);
    GeometryOf(posted);
    CalSizeFits(size);
    WrapAdd(r.tail, CalSize(size), r.size);
    GetInSameLap(posted);
    var got := Get(posted);
    var get := GetIsARun(posted);
    Append(r, steps, get);
    steps := DeleteIsARun(r, steps + get, got);
    DeleteMovesHead(got);
  }

  lemma PostIsARun(r: Ring, before: seq<Step>, reserved: Ring) returns (steps: seq<Step>)
    requires Inv(r) && Runnable(r, before) && Exec(r, before) == reserved && reserved.producer.Reserved?
    ensures Inv(reserved) && Runnable(r, steps) && Exec(r, steps) == Post(reserved)
  {
    hide HeaderAt, Chain, Records, Inv, DoPost;
    OneStep(reserved, PostEntry);
    Append(r, before, [PostEntry]);
    steps := before + [PostEntry];
  }

  lemma DeleteIsARun(r: Ring, before: seq<Step>, got: Ring) returns (steps: seq<Step>)
    requires Inv(r) && Runnable(r, before) && Exec(r, before) == got && got.consumer.Holding?
    ensures Inv(got) && Runnable(r, steps) && Exec(r, steps) == Delete(got)
  {
    hide HeaderAt, Chain, Records, Inv, DoDelete;
    OneStep(got, DeleteEntry);
    Append(r, before, [DeleteEntry]);
    steps := before + [DeleteEntry];
  }

  lemma {:induction false} LastSlotFrom(r: Ring) returns (steps: seq<Step>)
    requires Inv(r) && Drained(r)
    ensures Runnable(r, steps)
    ensures var r' := Exec(r, steps);
            Drained(r') && Index(r'.tail, r.size) + HEADER_SIZE == r.size
    decreases r.size - Wrap(r.tail, r.size)
  {
    hide HeaderAt, Chain, Records, Inv, Apply;
    GeometryOf(r);
    if Index(r.tail, r.size) + HEADER_SIZE == r.size {
      steps := [];
    } else {
      assert CalSize(0) == 8;
      steps := PassThrough(r, 0);
      WrapAdd(r.tail, 8, r.size);
      var rest := LastSlotFrom(Exec(r, steps));
      Append(r, steps, rest);
      steps := steps + rest;
    }
  }

  // The situation is within reach of every ring: empty entries posted, fetched and deleted
  // one after the other bring it to its last 8 bytes and leave it drained there.
  lemma LastSlotIsReachable(r: Ring) returns (steps: seq<Step>)
    requires Initial(r)
    ensures IsRun(r, steps)
    ensures var drained := Reached(r, steps);
            && Enabled(drained, CallNew(0)) && Enabled(drained, CallGet)
            && drained.head == drained.tail
            && Index(drained.tail, r.size) + HEADER_SIZE == r.size
  {
    hide HeaderAt, Chain, Records;
    InitialInv(r);
    steps := LastSlotFrom(r);
  }

  lemma LoseOne(r: Ring) returns (steps: seq<Step>)
    requires Inv(r) && Enabled(r, CallNew(0))
    requires r.head == r.tail && Index(r.tail, r.size) + HEADER_SIZE == r.size
    ensures Runnable(r, steps) && !NoneLost(r.size, Exec(r, steps).posted)
  {
    hide HeaderAt, Chain, Records, New, Inv, Post, DoPost;
    LastSlotIsGranted(r);
    var reserved := New(r, 0);
    var call := NewIsARun(r, 0);
    steps := PostIsARun(r, call, reserved);
    GeometryOf(reserved);
    assert Lost(r.size, Pending(reserved)) && Pending(reserved) in Post(reserved).posted;
  }

  // So no ring is a FIFO for every run: with empty payloads each of them can lose an entry.
  lemma EveryRingCanLose(r: Ring) returns (steps: seq<Step>)
    requires Initial(r)
    ensures IsRun(r, steps)
    ensures var r' := Reached(r, steps);
            Payloads(r'.posted) != r'.taken + Queue(r')
  {
    hide HeaderAt, Chain, Records, Inv, Payloads, Apply;
    InitialInv(r);
    var reach := LastSlotIsReachable(r);
    var lose := LoseOne(Reached(r, reach));
    Append(r, reach, lose);
    steps := reach + lose;
    FifoExactlyUnlessLost(r, steps);
  }
}
