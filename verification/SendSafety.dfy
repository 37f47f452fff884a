// The lock makes many senders one producer: every step of every thread keeps the invariant,
// and each lane is a FIFO in the order of the lock.
module SendSafety {
  import opened EntryHeader
  import R = FixedRing
  import opened SendBuffer

  lemma InitialInv(s: State)
    requires Initial(s)
    ensures Inv(s)
  {
  }

  /* The log */

  lemma AcceptedAppend(log: seq<Grant>, g: Grant, lane: Lane)
    ensures Accepted(log + [g], lane)
         == Accepted(log, lane) + if g.outcome.Sent? && g.lane == lane then [g.message] else []
  {
    assert (log + [g])[..|log|] == log;
  }

  lemma AcceptedSettled(log: seq<Grant>, outcome: Outcome, lane: Lane)
    requires log != [] && log[|log| - 1].outcome.Open?
    ensures Accepted(Settle(log, outcome), lane)
         == Accepted(log, lane)
            + if outcome.Sent? && log[|log| - 1].lane == lane then [log[|log| - 1].message] else []
  {
    var front, last := log[..|log| - 1], log[|log| - 1];
    assert log == front + [last];
    assert Settle(log, outcome) == front + [last.(outcome := outcome)];
    AcceptedAppend(front, last, lane);
    AcceptedAppend(front, last.(outcome := outcome), lane);
  }

  /* The lock */

  // The lock holder moves on inside its critical section.
  lemma StayInside(locked: bool, threads: map<int, Thread>, t: int, to: Thread)
    requires MutualExclusion(locked, threads) && t in threads && Critical(threads[t]) && Critical(to)
    ensures MutualExclusion(locked, threads[t := to])
    ensures forall u :: u in threads && u != t ==> !Critical(threads[u])
  {
    assert t in threads[t := to];
  }

  // A lane that the changed thread neither used nor uses is not affected.
  lemma OtherLane(threads: map<int, Thread>, lane: Lane, r: R.Ring, t: int, to: Thread)
    requires LaneOk(threads, lane, r) && !Uses(to, lane)
    requires t in threads ==> !Uses(threads[t], lane)
    ensures LaneOk(threads[t := to], lane, r)
  {
    var threads' := threads[t := to];
    if !r.producer.Idle? {
      var u :| u in threads && Uses(threads[u], lane);
      assert u in threads' && Uses(threads'[u], lane);
    }
  }

  // A lane whose only user is the lock holder t.
  lemma OwnLane(threads: map<int, Thread>, lane: Lane, r: R.Ring, t: int, to: Thread)
    requires RingOk(r) && forall u :: u in threads && u != t ==> !Critical(threads[u])
    requires if Uses(to, lane) then OwnerOk(to, r) else r.producer.Idle?
    ensures LaneOk(threads[t := to], lane, r)
  {
    if !r.producer.Idle? {
      assert t in threads[t := to] && Uses(threads[t := to][t], lane);
    }
  }

  /* Steps outside the lock */

  lemma CallSendGood(s: State, t: int, message: Pointer, lane: Lane)
    requires Inv(s) && t !in s.threads
    ensures Inv(WithThread(s, t, Spinning(message, lane)))
  {
    hide RingOk, OwnerOk, Accepted;
    var to := Spinning(message, lane);
    OtherLane(s.threads, Normal, s.normal, t, to);
    OtherLane(s.threads, Priority, s.priority, t, to);
    if s.locked {
      var u :| u in s.threads && Critical(s.threads[u]);
      assert u in s.threads[t := to] && Critical(s.threads[t := to][u]);
    }
  }

  // The lock is free: whoever sets it first is alone inside.
  lemma LockGood(s: State, t: int)
    requires Inv(s) && Enabled(s, TestAndSet(t))
    ensures Inv(Apply(s, TestAndSet(t)))
    ensures Critical(Apply(s, TestAndSet(t)).threads[t])
            <==> forall u :: u in s.threads ==> !Critical(s.threads[u])
  {
    hide RingOk, OwnerOk, Accepted;
    if !s.locked {
      var me := s.threads[t];
      var to := Asking(me.message, me.lane);
      OtherLane(s.threads, Normal, s.normal, t, to);
      OtherLane(s.threads, Priority, s.priority, t, to);
      var g := Grant(t, me.message, me.lane, Open);
      AcceptedAppend(s.log, g, Normal);
      AcceptedAppend(s.log, g, Priority);
      assert t in s.threads[t := to];
      assert (s.log + [g])[|s.log|] == g;
    }
  }

  lemma UnlockGood(s: State, t: int)
    requires Inv(s) && Enabled(s, Unlock(t))
    ensures Inv(Apply(s, Unlock(t)))
    ensures forall u :: u in Apply(s, Unlock(t)).threads <==> u in s.threads && u != t
    ensures forall u :: u in Apply(s, Unlock(t)).threads ==> !Critical(s.threads[u])
  {
    hide RingOk, OwnerOk, Accepted;
    LeaveLane(s.threads, Normal, s.normal, t);
    LeaveLane(s.threads, Priority, s.priority, t);
  }

  lemma LeaveLane(threads: map<int, Thread>, lane: Lane, r: R.Ring, t: int)
    requires LaneOk(threads, lane, r) && t in threads && !Uses(threads[t], lane)
    ensures LaneOk(threads - {t}, lane, r)
  {
    if !r.producer.Idle? {
      var u :| u in threads && Uses(threads[u], lane);
      assert u in threads - {t} && Uses((threads - {t})[u], lane);
    }
  }

  /* Steps of the lock holder */

  lemma HolderIsAlone(s: State, t: int)
    requires Inv(s) && t in s.threads && Critical(s.threads[t])
    ensures forall u :: u in s.threads && u != t ==> !Critical(s.threads[u])
    ensures s.log != [] && GrantOk(s.threads[t], t, s.log[|s.log| - 1])
  {
    hide LaneOk, Accepted;
  }

  // The lock holder changes its state and the ring of its lane.
  lemma HolderGood(s: State, t: int, r: R.Ring, to: Thread, log: seq<Grant>)
    requires Inv(s) && t in s.threads && Critical(s.threads[t]) && !s.threads[t].Leaving?
    requires var lane := s.threads[t].lane;
             && RingOk(r) && (to.Leaving? || (Critical(to) && to.lane == lane))
             && (if Uses(to, lane) then OwnerOk(to, r) else r.producer.Idle?)
             && r.posted == Accepted(log, lane)
             && (forall other: Lane :: other != lane ==> Accepted(log, other) == Accepted(s.log, other))
             && log != [] && GrantOk(to, t, log[|log| - 1])
    ensures Inv(WithThread(SetChannel(s, s.threads[t].lane, r), t, to).(log := log))
  {
    hide RingOk, OwnerOk, Accepted, GrantOk;
    HolderIsAlone(s, t);
    StayInside(s.locked, s.threads, t, to);
    var lane := s.threads[t].lane;
    OwnLane(s.threads, lane, r, t, to);
    if lane.Normal? {
      OtherLane(s.threads, Priority, s.priority, t, to);
    } else {
      OtherLane(s.threads, Normal, s.normal, t, to);
    }
  }

  // Before New, and between its two looks at the head, the ring waits for this thread.
  lemma NewGood(s: State, t: int, step: R.Step)
    requires Inv(s) && t in s.threads
    requires (s.threads[t].Asking? && step == R.TryNew) || (s.threads[t].Rereading? && step == R.RereadHead)
    ensures s.log != [] && RingOk(Channel(s, s.threads[t].lane))
    ensures R.Enabled(Channel(s, s.threads[t].lane), step) && Inv(DoNew(s, t, step))
  {
    hide Accepted;
    HolderIsAlone(s, t);
    var me := s.threads[t];
    var ring := Channel(s, me.lane);
    RestingRing(s, t);
    R.StepKeepsInv(ring, step);
    var r := R.Apply(ring, step);
    assert r.posted == ring.posted;
    var to := AfterNew(me, r);
    if to.Leaving? {
      forall lane: Lane ensures Accepted(Settle(s.log, Refused), lane) == Accepted(s.log, lane) {
        AcceptedSettled(s.log, Refused, lane);
      }
      HolderGood(s, t, r, to, Settle(s.log, Refused));
    } else {
      HolderGood(s, t, r, to, s.log);
    }
  }

  // A lane's producer side is where its lock holder stands.
  lemma RestingRing(s: State, t: int)
    requires Inv(s) && t in s.threads && Critical(s.threads[t]) && !s.threads[t].Leaving?
    ensures var lane := s.threads[t].lane;
            RingOk(Channel(s, lane)) && OwnerOk(s.threads[t], Channel(s, lane))
  {
    hide RingOk, Accepted, LogOk;
  }

  lemma WriteGood(s: State, t: int)
    requires Inv(s) && Enabled(s, WriteByte(t))
    ensures RingOk(Channel(s, s.threads[t].lane)) && Channel(s, s.threads[t].lane).producer.Reserved?
    ensures Inv(DoWrite(s, t))
  {
    hide Accepted;
    HolderIsAlone(s, t);
    RestingRing(s, t);
    var me := s.threads[t];
    var ring := Channel(s, me.lane);
    var step := R.WriteByte(me.offset, me.message[me.offset]);
    R.StepKeepsInv(ring, step);
    var r := R.Apply(ring, step);
    OneMore(ring.mem, ring.producer.at, me.offset, me.message);
    HolderGood(s, t, r, me.(offset := me.offset + 1), s.log);
  }

  lemma OneMore(mem: Bytes, at: nat, offset: nat, message: Pointer)
    requires offset < POINTER_SIZE && at + POINTER_SIZE <= |mem|
    requires mem[at..at + offset] == message[..offset]
    ensures Store(mem, at + offset, [message[offset]])[at..at + offset + 1] == message[..offset + 1]
  {
    var mem' := Store(mem, at + offset, [message[offset]]);
    assert mem'[at..at + offset + 1] == mem[at..at + offset] + [message[offset]];
  }

  lemma PostGood(s: State, t: int)
    requires Inv(s) && Enabled(s, Post(t))
    ensures s.log != []
    ensures RingOk(Channel(s, s.threads[t].lane)) && Channel(s, s.threads[t].lane).producer.Reserved?
    ensures Inv(DoPost(s, t))
  {
    hide Accepted;
    HolderIsAlone(s, t);
    RestingRing(s, t);
    var me := s.threads[t];
    var ring := Channel(s, me.lane);
    R.StepKeepsInv(ring, R.PostElement);
    var r := R.Apply(ring, R.PostElement);
    assert me.message[..POINTER_SIZE] == me.message;
    assert r.posted == ring.posted + [me.message];
    forall lane: Lane ensures Accepted(Settle(s.log, Sent), lane)
        == Accepted(s.log, lane) + if lane == me.lane then [me.message] else [] {
      AcceptedSettled(s.log, Sent, lane);
    }
    HolderGood(s, t, r, Leaving(true), Settle(s.log, Sent));
  }

  /* The consumer */

  lemma ConsumeGood(s: State, lane: Lane, step: R.Step)
    requires Inv(s) && Enabled(s, Consume(lane, step))
    ensures var s' := Apply(s, Consume(lane, step));
            && Inv(s') && R.Inv(Channel(s, lane))
            && Channel(s', lane) == R.Apply(Channel(s, lane), step)
            && (forall other: Lane :: other != lane ==> Channel(s', other) == Channel(s, other))
            && s'.threads == s.threads && s'.log == s.log
  {
    hide Accepted, LogOk, MutualExclusion;
    var r := Channel(s, lane);
    R.StepKeepsInv(r, step);
    var r' := R.Apply(r, step);
    assert r'.producer == r.producer && r'.mem == r.mem && r'.posted == r.posted;
    forall t | t in s.threads && Uses(s.threads[t], lane) ensures OwnerOk(s.threads[t], r') {
      assert OwnerOk(s.threads[t], r);
    }
  }

  lemma StepKeepsInv(s: State, step: Step)
    requires Inv(s) && Enabled(s, step)
    ensures Inv(Apply(s, step))
  {
    hide Inv, DoNew, DoWrite, DoPost;
    match step
    case CallSend(t, message, lane) => CallSendGood(s, t, message, lane);
    case TestAndSet(t) => LockGood(s, t);
    case AskNew(t) => NewGood(s, t, R.TryNew);
    case Reread(t) => NewGood(s, t, R.RereadHead);
    case WriteByte(t) => WriteGood(s, t);
    case Post(t) => PostGood(s, t);
    case Unlock(t) => UnlockGood(s, t);
    case Consume(lane, ring) => ConsumeGood(s, lane, ring);
  }

  /* Runs */

  ghost predicate Runnable(s: State, steps: seq<Step>)
    requires Inv(s)
    decreases |steps|
  {
    steps == [] ||
    (Enabled(s, steps[0]) &&
     (StepKeepsInv(s, steps[0]);
      Runnable(Apply(s, steps[0]), steps[1..])))
  }

  ghost function Exec(s: State, steps: seq<Step>): (s': State)
    requires Inv(s) && Runnable(s, steps)
    ensures Inv(s')
    decreases |steps|
  {
    if steps == [] then s
    else
      StepKeepsInv(s, steps[0]);
      Exec(Apply(s, steps[0]), steps[1..])
  }

  // A run of a buffer as Init leaves it.
  ghost predicate IsRun(s: State, steps: seq<Step>) {
    Initial(s) && (InitialInv(s); Runnable(s, steps))
  }

  ghost function Reached(s: State, steps: seq<Step>): (s': State)
    requires IsRun(s, steps)
    ensures Inv(s')
  {
    InitialInv(s);
    Exec(s, steps)
  }

  /* Every call is granted once, with its own arguments */

  datatype Call = Call(message: Pointer, lane: Lane)

  // The calls of Send by thread t, in order.
  function CallsOf(steps: seq<Step>, t: int): seq<Call> {
    if steps == [] then []
    else
      (if steps[0].CallSend? && steps[0].thread == t then [Call(steps[0].message, steps[0].lane)] else [])
      + CallsOf(steps[1..], t)
  }

  // The grants of thread t, in the order of the lock.
  function GrantsOf(log: seq<Grant>, t: int): seq<Call> {
    if log == [] then []
    else
      var last := log[|log| - 1];
      GrantsOf(log[..|log| - 1], t) + if last.thread == t then [Call(last.message, last.lane)] else []
  }

  // The call of a thread that still waits for the lock.
  function WaitingOf(threads: map<int, Thread>, t: int): seq<Call> {
    if t in threads && threads[t].Spinning? then [Call(threads[t].message, threads[t].lane)] else []
  }

  lemma GrantsAppend(log: seq<Grant>, g: Grant, t: int)
    ensures GrantsOf(log + [g], t)
         == GrantsOf(log, t) + if g.thread == t then [Call(g.message, g.lane)] else []
  {
    assert (log + [g])[..|log|] == log;
  }

  lemma GrantsSettled(log: seq<Grant>, outcome: Outcome, t: int)
    requires log != []
    ensures GrantsOf(Settle(log, outcome), t) == GrantsOf(log, t)
  {
    var front, last := log[..|log| - 1], log[|log| - 1];
    assert log == front + [last];
    assert Settle(log, outcome) == front + [last.(outcome := outcome)];
    GrantsAppend(front, last, t);
    GrantsAppend(front, last.(outcome := outcome), t);
  }

  ghost function Ledger(log: seq<Grant>, threads: map<int, Thread>, t: int): seq<Call> {
    GrantsOf(log, t) + WaitingOf(threads, t)
  }

  lemma CallsBeforeLock(s: State, step: Step, t: int)
    requires Inv(s) && Enabled(s, step) && (step.CallSend? || step.TestAndSet?)
    ensures Ledger(Apply(s, step).log, Apply(s, step).threads, t)
         == Ledger(s.log, s.threads, t) + CallsOf([step], t)
  {
    hide Inv, RingOk;
    if step.TestAndSet? && !s.locked {
      var me := s.threads[step.thread];
      GrantsAppend(s.log, Grant(step.thread, me.message, me.lane, Open), t);
    }
  }

  // Inside the critical section only the outcome in the log changes.
  lemma HolderLog(s: State, step: Step)
    requires Inv(s) && Enabled(s, step)
    requires step.AskNew? || step.Reread? || step.WriteByte? || step.Post?
    ensures s.log != []
    ensures var s', u := Apply(s, step), step.thread;
            && s.threads.Keys == s'.threads.Keys && Critical(s.threads[u]) && Critical(s'.threads[u])
            && (forall t :: t in s.threads && t != u ==> s'.threads[t] == s.threads[t])
            && (s'.log == s.log || s'.log == Settle(s.log, Refused) || s'.log == Settle(s.log, Sent))
  {
    hide Inv, RingOk, R.Apply, Settle;
    HolderIsAlone(s, step.thread);
  }

  lemma CallsInside(s: State, step: Step, t: int)
    requires Inv(s) && Enabled(s, step)
    requires step.AskNew? || step.Reread? || step.WriteByte? || step.Post?
    ensures Ledger(Apply(s, step).log, Apply(s, step).threads, t) == Ledger(s.log, s.threads, t)
  {
    hide Inv, Apply, Settle, GrantsOf;
    HolderLog(s, step);
    GrantsSettled(s.log, Refused, t);
    GrantsSettled(s.log, Sent, t);
  }

  lemma CallsStep(s: State, step: Step, t: int)
    requires Inv(s) && Enabled(s, step)
    ensures Ledger(Apply(s, step).log, Apply(s, step).threads, t)
         == Ledger(s.log, s.threads, t) + CallsOf([step], t)
  {
    hide Inv, RingOk, R.Apply, GrantsOf, DoNew, DoWrite, DoPost;
    if step.CallSend? || step.TestAndSet? {
      CallsBeforeLock(s, step, t);
    } else if !step.Unlock? && !step.Consume? {
      CallsInside(s, step, t);
    }
  }

  // A thread's grants, and the call it may still wait with, are exactly its calls of Send:
  // one for each, with the message and the lane it was called with, in the order it called.
  lemma {:induction false} CallsAreGranted(s: State, steps: seq<Step>, t: int)
    requires Inv(s) && Runnable(s, steps)
    ensures Ledger(Exec(s, steps).log, Exec(s, steps).threads, t)
         == Ledger(s.log, s.threads, t) + CallsOf(steps, t)
    decreases |steps|
  {
    hide Inv, Apply, Enabled, Ledger;
    if steps != [] {
      StepKeepsInv(s, steps[0]);
      CallsStep(s, steps[0], t);
      CallsAreGranted(Apply(s, steps[0]), steps[1..], t);
    }
  }

  // For any number of threads and any interleaving with the consumer: at most one thread is
  // between New and Post, and what a lane's consumer has taken, followed by what is queued,
  // is exactly the messages passed to Send for that lane by calls that did not find it full,
  // whole and in the order of the lock.
  lemma LanesAreFifos(s: State, steps: seq<Step>, lane: Lane, a: int, b: int)
    requires IsRun(s, steps)
    ensures var s' := Reached(s, steps);
            && (a in s'.threads && b in s'.threads && Critical(s'.threads[a]) && Critical(s'.threads[b]) ==> a == b)
            && R.Inv(Channel(s', lane))
            && Accepted(s'.log, lane) == Channel(s', lane).taken + R.Queue(Channel(s', lane))
            && |R.Queue(Channel(s', lane))| <= 1024
            && forall t :: GrantsOf(s'.log, t) + WaitingOf(s'.threads, t) == CallsOf(steps, t)
  {
    hide Accepted, GrantsOf, WaitingOf, CallsOf;
    var s' := Reached(s, steps);
    var r := Channel(s', lane);
    assert r.posted == r.posted[..r.head] + r.posted[r.head..];
    forall t ensures GrantsOf(s'.log, t) + WaitingOf(s'.threads, t) == CallsOf(steps, t) {
      InitialInv(s);
      CallsAreGranted(s, steps, t);
      NothingGranted(s, t);
    }
  }

  lemma NothingGranted(s: State, t: int)
    requires Initial(s)
    ensures GrantsOf(s.log, t) + WaitingOf(s.threads, t) == []
    ensures forall calls: seq<Call> :: [] + calls == calls
  {
  }

  // A thread's result becomes "refused" only at a moment when its lane is full, and "sent"
  // only with its own message appended to its own lane.
  lemma ResultMeans(s: State, step: Step, t: int)
    requires Inv(s) && Enabled(s, step) && t in s.threads && !s.threads[t].Leaving?
    ensures var s', me := Apply(s, step), s.threads[t];
            && t in s'.threads && R.Inv(Channel(s, me.lane))
            && (s'.threads[t] == Leaving(false) ==> |R.Queue(Channel(s, me.lane))| == 1024)
            && (s'.threads[t] == Leaving(true) ==>
                  Channel(s', me.lane).posted == Channel(s, me.lane).posted + [me.message])
  {
    hide Accepted, Inv, RingOk, R.Inv, DoNew, DoPost;
    LanesOk(s);
    if step == AskNew(t) || step == Reread(t) {
      ResultOfNew(s, t, if step == AskNew(t) then R.TryNew else R.RereadHead);
    } else if step == Post(t) {
      ResultOfPost(s, t);
    } else {
      StillBusy(s, step, t);
    }
  }

  lemma ResultOfNew(s: State, t: int, step: R.Step)
    requires Inv(s) && t in s.threads
    requires (s.threads[t].Asking? && step == R.TryNew) || (s.threads[t].Rereading? && step == R.RereadHead)
    ensures var lane := s.threads[t].lane;
            && s.log != [] && RingOk(Channel(s, lane)) && R.Enabled(Channel(s, lane), step)
            && var s' := DoNew(s, t, step);
               && t in s'.threads && s'.threads[t] != Leaving(true)
               && (s'.threads[t] == Leaving(false) ==> |R.Queue(Channel(s, lane))| == SLOTS)
  {
    hide Accepted, Inv;
    HolderIsAlone(s, t);
    RestingRing(s, t);
    R.NullMeansFullOrEmpty(Channel(s, s.threads[t].lane));
  }

  lemma ResultOfPost(s: State, t: int)
    requires Inv(s) && Enabled(s, Post(t))
    ensures var me := s.threads[t];
            && s.log != [] && RingOk(Channel(s, me.lane)) && Channel(s, me.lane).producer.Reserved?
            && var s' := DoPost(s, t);
               && t in s'.threads && s'.threads[t] == Leaving(true)
               && Channel(s', me.lane).posted == Channel(s, me.lane).posted + [me.message]
  {
    hide Accepted, Inv;
    HolderIsAlone(s, t);
    RestingRing(s, t);
    assert s.threads[t].message[..POINTER_SIZE] == s.threads[t].message;
  }

  lemma StillBusy(s: State, step: Step, t: int)
    requires Inv(s) && Enabled(s, step) && t in s.threads && !s.threads[t].Leaving?
    requires step != AskNew(t) && step != Reread(t) && step != Post(t)
    ensures t in Apply(s, step).threads && !Apply(s, step).threads[t].Leaving?
  {
    hide Inv, RingOk, R.Apply, Settle;
  }

  lemma LanesOk(s: State)
    requires Inv(s)
    ensures RingOk(s.normal) && RingOk(s.priority)
  {
  }

  function StepThread(step: Step): int {
    match step
    case CallSend(t, _, _) => t
    case TestAndSet(t) => t
    case AskNew(t) => t
    case Reread(t) => t
    case WriteByte(t) => t
    case Post(t) => t
    case Unlock(t) => t
    case Consume(_, _) => -1
  }

  // What a thread inside still has to do before it has left the lock.
  function ToDo(threads: map<int, Thread>, t: int): nat {
    if t !in threads then 0
    else
      match threads[t]
      case Spinning(_, _) => 0
      case Asking(_, _) => 12
      case Rereading(_, _) => 11
      case Writing(_, _, offset) => if offset <= POINTER_SIZE then 2 + POINTER_SIZE - offset else 0
      case Leaving(_) => 1
  }

  predicate IsStepOf(step: Step, t: int) {
    !step.Consume? && StepThread(step) == t
  }

  function StepsOf(steps: seq<Step>, t: int): nat {
    if steps == [] then 0 else (if IsStepOf(steps[0], t) then 1 else 0) + StepsOf(steps[1..], t)
  }

  lemma ToDoBounds(s: State, t: int)
    requires Inv(s) && t in s.threads && Critical(s.threads[t])
    ensures 0 < ToDo(s.threads, t) <= 12
  {
    hide Accepted, Inv;
    if !s.threads[t].Leaving? {
      RestingRing(s, t);
    }
  }

  lemma ToDoStep(s: State, step: Step, t: int)
    requires Inv(s) && Enabled(s, step) && (t in s.threads ==> Critical(s.threads[t]))
    requires !(step.CallSend? && step.thread == t)
    ensures var now, next := ToDo(s.threads, t), ToDo(Apply(s, step).threads, t);
            t in Apply(s, step).threads ==>
              && t in s.threads && Critical(Apply(s, step).threads[t])
              && (if IsStepOf(step, t) then next < now else next == now)
  {
    hide Accepted, Inv;
    if t in s.threads {
      HolderIsAlone(s, t);
      ToDoBounds(s, t);
      if !s.threads[t].Leaving? {
        RestingRing(s, t);
      }
    }
  }

  // Once inside, a thread has left the lock after at most twelve steps of its own, whatever
  // the others do.
  lemma {:induction false} LockIsReleased(s: State, steps: seq<Step>, t: int)
    requires Inv(s) && Runnable(s, steps) && (t in s.threads ==> Critical(s.threads[t]))
    requires forall step :: step in steps ==> !(step.CallSend? && step.thread == t)
    ensures t in Exec(s, steps).threads ==> StepsOf(steps, t) < ToDo(s.threads, t) <= 12
    decreases |steps|
  {
    hide Inv, Apply, Enabled;
    if t in s.threads {
      ToDoBounds(s, t);
    }
    if steps != [] {
      StepKeepsInv(s, steps[0]);
      ToDoStep(s, steps[0], t);
      LockIsReleased(Apply(s, steps[0]), steps[1..], t);
    }
  }

  // Send gives up only on a lane that is full when the lock holder reads its head.
  lemma RefusedMeansFull(s: State, t: int)
    requires Inv(s) && Enabled(s, Reread(t))
    ensures var lane := s.threads[t].lane;
            && Inv(Apply(s, Reread(t))) && R.Inv(Channel(s, lane))
            && (Apply(s, Reread(t)).threads[t] == Leaving(false) <==> |R.Queue(Channel(s, lane))| == SLOTS)
  {
    hide Accepted;
    RestingRing(s, t);
    StepKeepsInv(s, Reread(t));
    R.NullMeansFullOrEmpty(Channel(s, s.threads[t].lane));
  }
}
