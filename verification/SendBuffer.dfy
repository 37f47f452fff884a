// send_buffer.h and spin_lock_impl.h: any number of threads send through one spin lock into
// two single-producer rings, which one consumer each empties.
module SendBuffer {
  import opened EntryHeader
  import R = FixedRing

  // sizeof(IMessage *), padded to 8 bytes, and the number of slots.
  const POINTER_SIZE: nat := 8
  const SLOTS: nat := 1024

  type Pointer = bytes: Bytes | |bytes| == POINTER_SIZE witness [0, 0, 0, 0, 0, 0, 0, 0]

  datatype Lane = Normal | Priority

  // Where a thread stands inside Send.
  datatype Thread =
    | Spinning(message: Pointer, lane: Lane)                 // waiting for the lock
    | Asking(message: Pointer, lane: Lane)                   // lock taken, about to call New
    | Rereading(message: Pointer, lane: Lane)                // New found its cached head full
    | Writing(message: Pointer, lane: Lane, offset: nat)     // storing the pointer
    | Leaving(sent: bool)                                    // result known, lock still held

  // A Send in the order in which it took the lock, with its outcome.
  datatype Outcome = Open | Sent | Refused
  datatype Grant = Grant(thread: int, message: Pointer, lane: Lane, outcome: Outcome)

  datatype State = State(
    locked: bool,
    threads: map<int, Thread>,     // threads inside Send
    normal: R.Ring,
    priority: R.Ring,
    log: seq<Grant>)

  datatype Step =
    | CallSend(thread: int, message: Pointer, lane: Lane)
    | TestAndSet(thread: int)
    | AskNew(thread: int)
    | Reread(thread: int)
    | WriteByte(thread: int)
    | Post(thread: int)
    | Unlock(thread: int)
    | Consume(lane: Lane, step: R.Step)

  function Channel(s: State, lane: Lane): R.Ring {
    if lane.Normal? then s.normal else s.priority
  }

  function SetChannel(s: State, lane: Lane, r: R.Ring): State {
    if lane.Normal? then s.(normal := r) else s.(priority := r)
  }

  predicate IsConsumerStep(step: R.Step) {
    step.TryGet? || step.RereadTail? || step.DeleteElement?
  }

  predicate Enabled(s: State, step: Step) {
    match step
    case CallSend(t, _, _) => t !in s.threads
    case TestAndSet(t) => t in s.threads && s.threads[t].Spinning?
    case AskNew(t) => t in s.threads && s.threads[t].Asking?
    case Reread(t) => t in s.threads && s.threads[t].Rereading?
    case WriteByte(t) => t in s.threads && s.threads[t].Writing? && s.threads[t].offset < POINTER_SIZE
    case Post(t) => t in s.threads && s.threads[t].Writing? && s.threads[t].offset == POINTER_SIZE
    case Unlock(t) => t in s.threads && s.threads[t].Leaving?
    case Consume(lane, step) => IsConsumerStep(step) && R.Enabled(Channel(s, lane), step)
  }

  /* Invariant */

  predicate Critical(t: Thread) {
    !t.Spinning?
  }

  ghost predicate MutualExclusion(locked: bool, threads: map<int, Thread>) {
    && (forall a, b :: a in threads && b in threads && Critical(threads[a]) && Critical(threads[b]) ==> a == b)
    && (forall t :: t in threads && Critical(threads[t]) ==> locked)
    && (locked ==> exists t :: t in threads && Critical(threads[t]))
  }

  ghost predicate RingOk(r: R.Ring) {
    R.Inv(r) && r.size == SLOTS && r.elem == POINTER_SIZE
  }

  // What the lock holder has done to the ring of its lane so far.
  ghost predicate OwnerOk(t: Thread, r: R.Ring)
    requires RingOk(r)
  {
    match t
    case Rereading(_, _) => r.producer.Refreshing?
    case Writing(message, _, offset) =>
      && r.producer.Reserved? && offset <= POINTER_SIZE
      && r.mem[r.producer.at..r.producer.at + offset] == message[..offset]
    case _ => r.producer.Idle?
  }

  predicate Uses(t: Thread, lane: Lane) {
    (t.Rereading? || t.Writing?) && t.lane == lane
  }

  // A ring's producer side is at rest unless the lock holder works on it.
  ghost predicate LaneOk(threads: map<int, Thread>, lane: Lane, r: R.Ring) {
    && RingOk(r)
    && (forall t :: t in threads && Uses(threads[t], lane) ==> OwnerOk(threads[t], r))
    && (r.producer.Idle? || exists t :: t in threads && Uses(threads[t], lane))
  }

  // The messages sent through a lane, in the order of the lock.
  function Accepted(log: seq<Grant>, lane: Lane): seq<Bytes> {
    if log == [] then []
    else
      var last := log[|log| - 1];
      Accepted(log[..|log| - 1], lane)
      + if last.outcome.Sent? && last.lane == lane then [last.message] else []
  }

  // The grant of the thread `id` inside its critical section.
  predicate GrantOk(t: Thread, id: int, g: Grant) {
    g.thread == id
    && if t.Leaving? then g.outcome == (if t.sent then Sent else Refused)
       else g.outcome == Open && g.message == t.message && g.lane == t.lane
  }

  // The newest grant belongs to the lock holder, and is open until its result is known.
  ghost predicate LogOk(threads: map<int, Thread>, log: seq<Grant>) {
    forall t :: t in threads && Critical(threads[t]) ==> log != [] && GrantOk(threads[t], t, log[|log| - 1])
  }

  ghost predicate Inv(s: State) {
    && MutualExclusion(s.locked, s.threads)
    && LaneOk(s.threads, Normal, s.normal)
    && LaneOk(s.threads, Priority, s.priority)
    && LogOk(s.threads, s.log)
    && s.normal.posted == Accepted(s.log, Normal)
    && s.priority.posted == Accepted(s.log, Priority)
  }

  ghost predicate Initial(s: State) {
    && !s.locked && s.threads == map[] && s.log == []
    && R.Initial(s.normal) && R.Initial(s.priority)
    && s.normal.size == s.priority.size == SLOTS
    && s.normal.elem == s.priority.elem == POINTER_SIZE
  }

  /* Steps */

  function Settle(log: seq<Grant>, outcome: Outcome): seq<Grant>
    requires log != []
  {
    log[|log| - 1 := log[|log| - 1].(outcome := outcome)]
  }

  // What New answered decides how Send goes on.
  function AfterNew(t: Thread, r: R.Ring): Thread
    requires t.Asking? || t.Rereading?
  {
    match r.producer
    case Reserved(_) => Writing(t.message, t.lane, 0)
    case Refreshing => Rereading(t.message, t.lane)
    case Idle(_) => Leaving(false)
  }

  ghost function WithThread(s: State, t: int, to: Thread): State {
    s.(threads := s.threads[t := to])
  }

  ghost function Apply(s: State, step: Step): State
    requires Inv(s) && Enabled(s, step)
  {
    match step
    case CallSend(t, message, lane) => WithThread(s, t, Spinning(message, lane))
    case TestAndSet(t) =>
      if s.locked then s
      else
        var me := s.threads[t];
        WithThread(s, t, Asking(me.message, me.lane)).(
          locked := true, log := s.log + [Grant(t, me.message, me.lane, Open)])
    case AskNew(t) => DoNew(s, t, R.TryNew)
    case Reread(t) => DoNew(s, t, R.RereadHead)
    case WriteByte(t) => DoWrite(s, t)
    case Post(t) => DoPost(s, t)
    case Unlock(t) => s.(locked := false, threads := s.threads - {t})
    case Consume(lane, step) => SetChannel(s, lane, R.Apply(Channel(s, lane), step))
  }

  ghost function DoNew(s: State, t: int, step: R.Step): State
    requires t in s.threads && (s.threads[t].Asking? || s.threads[t].Rereading?) && s.log != []
    requires RingOk(Channel(s, s.threads[t].lane)) && R.Enabled(Channel(s, s.threads[t].lane), step)
  {
    var me := s.threads[t];
    var r := R.Apply(Channel(s, me.lane), step);
    var s' := WithThread(SetChannel(s, me.lane, r), t, AfterNew(me, r));
    if AfterNew(me, r).Leaving? then s'.(log := Settle(s.log, Refused)) else s'
  }

  ghost function DoWrite(s: State, t: int): State
    requires Enabled(s, WriteByte(t)) && RingOk(Channel(s, s.threads[t].lane))
    requires Channel(s, s.threads[t].lane).producer.Reserved?
  {
    var me := s.threads[t];
    var r := R.Apply(Channel(s, me.lane), R.WriteByte(me.offset, me.message[me.offset]));
    WithThread(SetChannel(s, me.lane, r), t, me.(offset := me.offset + 1))
  }

  ghost function DoPost(s: State, t: int): State
    requires Enabled(s, Post(t)) && RingOk(Channel(s, s.threads[t].lane)) && s.log != []
    requires Channel(s, s.threads[t].lane).producer.Reserved?
  {
    var me := s.threads[t];
    var r := R.Apply(Channel(s, me.lane), R.PostElement);
    WithThread(SetChannel(s, me.lane, r), t, Leaving(true)).(log := Settle(s.log, Sent))
  }
}
