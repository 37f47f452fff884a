// spsc_variable_bounded_channel.cpp as a machine of atomic steps: one producer and one
// consumer share a byte ring, each with a cached copy of the other's counter, and their
// steps interleave freely.
module VariableRing {
  import opened Arith
  import opened EntryHeader
  import opened VariableLayout

  // Where the producer stands inside New, or between New and Post.
  datatype Producer =
    | Idle(refused: bool)                    // refused: the latest New returned null
    | Trying(need: nat, retried: bool)       // about to run NewEntry
    | Filling(need: nat, retried: bool)      // placeholder written, tail not yet moved
    | Refreshing(need: nat)                  // about to read the consumer's head
    | Granted(at: nat, need: nat)            // NewEntry returned, header not yet written
    | Reserved(at: nat, need: nat)           // New returned; the payload may be written

  // Where the consumer stands inside Get, or between Get and Delete.
  datatype Consumer =
    | Resting(missed: bool)                  // missed: the latest Get returned null
    | Looking(reread: bool)                  // about to run GetEntry
    | Skipping(reread: bool)                 // found filler, head not yet moved
    | Rereading                              // about to read the producer's tail
    | Holding(at: nat)                       // Get returned the entry at this address

  // A posted entry: its address and the bytes behind its header when it was posted.
  datatype Posting = Posting(at: nat, payload: Bytes)

  datatype Ring = Ring(
    size: nat,
    mem: Bytes,
    tail: nat,
    headRef: nat,
    producer: Producer,
    head: nat,
    tailRef: nat,
    consumer: Consumer,
    posted: seq<Posting>,
    taken: seq<Bytes>)

  datatype Step =
    | CallNew(size: nat) | TryEntry | Jump | RereadHead | WriteHeader
    | WritePayload(offset: nat, value: Byte) | PostEntry
    | CallGet | TryGet | Skip | RereadTail | DeleteEntry

  predicate IsProducerStep(step: Step) {
    step.CallNew? || step.TryEntry? || step.Jump? || step.RereadHead? || step.WriteHeader?
    || step.WritePayload? || step.PostEntry?
  }

  predicate Enabled(r: Ring, step: Step) {
    match step
    case CallNew(size) => (r.producer.Idle? || r.producer.Reserved?) && size <= MAX_PAYLOAD
    case TryEntry => r.producer.Trying?
    case Jump => r.producer.Filling?
    case RereadHead => r.producer.Refreshing?
    case WriteHeader => r.producer.Granted?
    case WritePayload(offset, _) => r.producer.Reserved? && HEADER_SIZE <= offset < r.producer.need
    case PostEntry => r.producer.Reserved?
    case CallGet => r.consumer.Resting? || r.consumer.Holding?
    case TryGet => r.consumer.Looking?
    case Skip => r.consumer.Skipping?
    case RereadTail => r.consumer.Rereading?
    case DeleteEntry => r.consumer.Holding?
  }

  /* Invariant */

  ghost predicate Geometry(r: Ring) {
    && Sized(r.mem, r.size)
    && r.headRef % 8 == r.head % 8 == r.tailRef % 8 == r.tail % 8 == 0
    && r.headRef <= r.head <= r.tailRef <= r.tail <= r.headRef + r.size
  }

  ghost predicate Layout(r: Ring)
    requires Geometry(r)
  {
    && Chain(r.mem, r.size, r.head, r.tailRef)
    && Chain(r.mem, r.size, r.tailRef, r.tail)
    && Chain(r.mem, r.size, r.head, r.tail)
  }

  predicate NeedOk(need: nat) {
    need % 8 == 0 && HEADER_SIZE <= need < UINT32
  }

  ghost predicate ProducerOk(r: Ring)
    requires Geometry(r)
  {
    var t := Index(r.tail, r.size);
    match r.producer
    case Idle(_) => true
    case Trying(need, _) => NeedOk(need)
    case Filling(need, _) =>
      && NeedOk(need)
      && r.tail < r.headRef + r.size
      && r.tail - t == r.headRef - Index(r.headRef, r.size)
      && HeaderAt(r.mem, t) == Header(MAGIC, PLACEHOLD, (r.size - t) % UINT32)
    case Refreshing(need) => NeedOk(need)
    case Granted(at, need) =>
      NeedOk(need) && at == t && at + need <= r.size && r.tail + need <= r.headRef + r.size
    case Reserved(at, need) =>
      && NeedOk(need) && at == t && at + need <= r.size && r.tail + need <= r.headRef + r.size
      && HeaderAt(r.mem, at) == Header(MAGIC, 0, need)
  }

  ghost predicate ConsumerOk(r: Ring)
    requires Geometry(r)
  {
    var h := Index(r.head, r.size);
    match r.consumer
    case Resting(missed) => missed ==> r.head == r.tailRef
    case Looking(_) => true
    case Skipping(_) => r.head < r.tailRef && !IsEntry(r.mem, r.size, h) && h >= Index(r.tailRef, r.size)
    case Rereading => r.head == r.tailRef
    case Holding(at) => r.head < r.tailRef && at == h && IsEntry(r.mem, r.size, h)
  }

  // The consumer takes the last 8 bytes of the buffer for filler whatever they hold: an
  // entry without payload posted there is lost.
  predicate Lost(size: nat, p: Posting) {
    p.at + HEADER_SIZE == size
  }

  function Kept(size: nat, posted: seq<Posting>): seq<Bytes> {
    if posted == [] then []
    else
      var last := posted[|posted| - 1];
      Kept(size, posted[..|posted| - 1]) + if Lost(size, last) then [] else [last.payload]
  }

  // The abstract channel: posted and undeleted payloads, oldest first.
  ghost function Queue(r: Ring): seq<Bytes>
    requires Geometry(r) && Layout(r)
  {
    Records(r.mem, r.size, r.head, r.tail)
  }

  // The part of the queue the consumer's cached tail covers.
  ghost function Known(r: Ring): seq<Bytes>
    requires Geometry(r) && Layout(r)
  {
    Records(r.mem, r.size, r.head, r.tailRef)
  }

  ghost predicate History(r: Ring)
    requires Geometry(r) && Layout(r)
  {
    Kept(r.size, r.posted) == r.taken + Queue(r)
  }

  ghost predicate Inv(r: Ring) {
    Geometry(r) && Layout(r) && ProducerOk(r) && ConsumerOk(r) && History(r)
  }

  /* Steps */

  // Init: a ring of `size` bytes with arbitrary contents.
  ghost predicate Initial(r: Ring) {
    && Sized(r.mem, r.size)
    && r.tail == r.headRef == r.head == r.tailRef == 0
    && r.producer == Idle(false) && r.consumer == Resting(false)
    && r.posted == [] && r.taken == []
  }

  // NewEntry returned null: read the head once, then give up.
  function Refuse(r: Ring): Ring
    requires r.producer.Trying? || r.producer.Filling?
  {
    r.(producer := if r.producer.retried then Idle(true) else Refreshing(r.producer.need))
  }

  // NewEntry up to and including the placeholder's header.
  ghost function DoTryEntry(r: Ring): Ring
    requires Geometry(r) && r.producer.Trying?
  {
    var need := r.producer.need;
    if r.tail - r.headRef >= r.size then Refuse(r)
    else
      var t, h := Index(r.tail, r.size), Index(r.headRef, r.size);
      if t >= h then
        if t + need <= r.size then r.(producer := Granted(t, need))
        else r.(mem := Store(r.mem, t, Encode(Header(MAGIC, PLACEHOLD, (r.size - t) % UINT32))),
                producer := Filling(need, r.producer.retried))
      else if t + need <= h then r.(producer := Granted(t, need))
      else Refuse(r)
  }

  // The tail jumps to the start of the buffer, whether or not the entry then fits.
  ghost function DoJump(r: Ring): Ring
    requires Geometry(r) && r.producer.Filling?
  {
    var moved := r.(tail := r.tail + (r.size - Index(r.tail, r.size)));
    if r.producer.need <= Index(r.headRef, r.size) then moved.(producer := Granted(0, r.producer.need))
    else Refuse(moved)
  }

  ghost function DoPost(r: Ring): Ring
    requires Geometry(r) && ProducerOk(r) && r.producer.Reserved?
  {
    var at := r.producer.at;
    var header := HeaderAt(r.mem, at);
    if header.magic != MAGIC then r.(producer := Idle(false))
    else r.(tail := r.tail + header.length, producer := Idle(false),
            posted := r.posted + [Posting(at, Payload(r.mem, at, header.length))])
  }

  // GetEntry returned null: read the tail once, then give up.
  function Miss(r: Ring): Ring
    requires r.consumer.Looking? || r.consumer.Skipping?
  {
    r.(consumer := if r.consumer.reread then Resting(true) else Rereading)
  }

  // GetEntry up to the decision to skip filler.
  ghost function DoTryGet(r: Ring): Ring
    requires Geometry(r) && r.consumer.Looking?
  {
    if r.head >= r.tailRef then Miss(r)
    else
      var h, t := Index(r.head, r.size), Index(r.tailRef, r.size);
      if h < t then r.(consumer := Holding(h))
      else if r.size - h > HEADER_SIZE && HeaderAt(r.mem, h).flags != PLACEHOLD then
        r.(consumer := Holding(h))
      else r.(consumer := Skipping(r.consumer.reread))
  }

  ghost function DoSkip(r: Ring): Ring
    requires Geometry(r) && r.consumer.Skipping?
  {
    var h := Index(r.head, r.size);
    var filler := if r.size - h > HEADER_SIZE then r.size - h else HeaderAt(r.mem, h).length;
    var moved := r.(head := r.head + filler);
    if 0 < Index(r.tailRef, r.size) then moved.(consumer := Holding(0)) else Miss(moved)
  }

  ghost function DoDelete(r: Ring): Ring
    requires Geometry(r) && Layout(r) && ConsumerOk(r) && r.consumer.Holding?
  {
    var at := r.consumer.at;
    var header := HeaderAt(r.mem, at);
    if header.magic != MAGIC then r.(consumer := Resting(false))
    else r.(head := r.head + header.length, consumer := Resting(false),
            taken := r.taken + [Payload(r.mem, at, header.length)])
  }

  ghost function Apply(r: Ring, step: Step): Ring
    requires Inv(r) && Enabled(r, step)
  {
    match step
    case CallNew(size) => r.(producer := Trying(CalSize(size), false))
    case TryEntry => DoTryEntry(r)
    case Jump => DoJump(r)
    case RereadHead => r.(headRef := r.head, producer := Trying(r.producer.need, true))
    case WriteHeader =>
      r.(mem := Store(r.mem, r.producer.at, Encode(Header(MAGIC, 0, r.producer.need))),
         producer := Reserved(r.producer.at, r.producer.need))
    case WritePayload(offset, value) =>
      r.(mem := Store(r.mem, r.producer.at + offset, [value]))
    case PostEntry => DoPost(r)
    case CallGet => r.(consumer := Looking(false))
    case TryGet => DoTryGet(r)
    case Skip => DoSkip(r)
    case RereadTail => r.(tailRef := r.tail, consumer := Looking(true))
    case DeleteEntry => DoDelete(r)
  }
}
