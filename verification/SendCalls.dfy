// A Send with nothing in between is one of the runs of the lock machine, so what holds of
// every run holds of the buffer object's method.
module SendCalls {
  import opened EntryHeader
  import R = FixedRing
  import opened SendBuffer
  import opened SendSafety

  lemma OneStep(s: State, step: Step)
    requires Inv(s) && Enabled(s, step)
    ensures Runnable(s, [step]) && Exec(s, [step]) == Apply(s, step)
  {
    hide Inv, Apply;
    StepKeepsInv(s, step);
    assert [step][1..] == [];
  }

  lemma {:induction false} Append(s: State, first: seq<Step>, second: seq<Step>)
    requires Inv(s) && Runnable(s, first) && Runnable(Exec(s, first), second)
    ensures Runnable(s, first + second)
    ensures Exec(s, first + second) == Exec(Exec(s, first), second)
    decreases |first|
  {
    hide Inv, Apply, Enabled;
    if first == [] {
      assert first + second == second;
    } else {
      StepKeepsInv(s, first[0]);
      var all := first + second;
      assert all[0] == first[0] && all[1..] == first[1..] + second;
      Append(Apply(s, first[0]), first[1..], second);
    }
  }

  // One more step at the end of a run.
  lemma Extend(s: State, steps: seq<Step>, step: Step) returns (longer: seq<Step>)
    requires Inv(s) && Runnable(s, steps) && Enabled(Exec(s, steps), step)
    ensures longer == steps + [step]
    ensures Runnable(s, longer) && Exec(s, longer) == Apply(Exec(s, steps), step)
  {
    hide Inv, Apply, Enabled;
    OneStep(Exec(s, steps), step);
    Append(s, steps, [step]);
    longer := steps + [step];
  }

  /* What Send does to the ring of its lane */

  // The slot New granted, with the first n bytes of the message stored.
  ghost function Written(r: R.Ring, message: Pointer, n: nat): R.Ring
    requires R.Inv(r) && r.elem == POINTER_SIZE && r.producer.Reserved? && n <= POINTER_SIZE
  {
    R.ReservedSlot(r);
    r.(mem := Store(r.mem, r.producer.at, message[..n]))
  }

  ghost function Published(r: R.Ring, message: Pointer): R.Ring
    requires R.Inv(r) && r.elem == POINTER_SIZE && r.producer.Reserved?
  {
    Written(r, message, POINTER_SIZE).(tail := r.tail + 1, producer := R.Idle(false), posted := r.posted + [message])
  }

  ghost function Sending(r: R.Ring, message: Pointer): R.Ring
    requires R.Inv(r) && r.elem == POINTER_SIZE && R.Enabled(r, R.TryNew)
  {
    var asked := R.New(r);
    if asked.producer.Reserved? then Published(asked, message) else asked
  }

  lemma WriteNext(r: R.Ring, message: Pointer, n: nat)
    requires R.Inv(r) && r.elem == POINTER_SIZE && r.producer.Reserved? && n < POINTER_SIZE
    requires R.Inv(Written(r, message, n))
    ensures R.Apply(Written(r, message, n), R.WriteByte(n, message[n])) == Written(r, message, n + 1)
  {
    R.ReservedSlot(r);
    StoreNext(r.mem, r.producer.at, message, n);
  }

  lemma StoreNext(mem: Bytes, at: nat, message: Bytes, n: nat)
    requires n < |message| && at + |message| <= |mem|
    ensures Store(Store(mem, at, message[..n]), at + n, [message[n]]) == Store(mem, at, message[..n + 1])
  {
    assert message[..n + 1] == message[..n] + [message[n]];
  }

  lemma WriteNone(r: R.Ring, message: Pointer)
    requires R.Inv(r) && r.elem == POINTER_SIZE && r.producer.Reserved?
    ensures Written(r, message, 0) == r
  {
    R.ReservedSlot(r);
    assert Store(r.mem, r.producer.at, []) == r.mem;
  }

  lemma PublishWritten(r: R.Ring, message: Pointer)
    requires R.Inv(r) && r.elem == POINTER_SIZE && r.producer.Reserved?
    requires R.Inv(Written(r, message, POINTER_SIZE))
    ensures R.Apply(Written(r, message, POINTER_SIZE), R.PostElement) == Published(r, message)
  {
    R.ReservedSlot(r);
    var at := r.producer.at;
    assert message[..POINTER_SIZE] == message;
    assert Store(r.mem, at, message)[at..at + POINTER_SIZE] == message;
  }

  // Sending appends the message, or leaves the queue as it is on a full ring.
  lemma SendingQueue(r: R.Ring, message: Pointer)
    requires R.Inv(r) && r.elem == POINTER_SIZE && R.Enabled(r, R.TryNew)
    requires R.Inv(Sending(r, message))
    ensures R.Queue(Sending(r, message))
         == R.Queue(r) + if |R.Queue(r)| < r.size then [message] else []
    ensures |R.Queue(r)| <= r.size
  {
    R.CallsAnswer(r);
  }

  /* The steps of one thread inside Send */

  // The buffer while thread t is inside: its lane's ring is r, its grant the last in the log.
  ghost function Inside(s: State, t: int, to: Thread, lane: Lane, r: R.Ring, g: Grant): State {
    SetChannel(s, lane, r).(locked := true, threads := s.threads[t := to], log := s.log + [g])
  }

  lemma EnterIsARun(s: State, t: int, message: Pointer, lane: Lane) returns (steps: seq<Step>)
    requires Inv(s) && !s.locked && t !in s.threads
    ensures Runnable(s, steps)
    ensures Exec(s, steps)
         == Inside(s, t, Asking(message, lane), lane, Channel(s, lane), Grant(t, message, lane, Open))
  {
    hide Inv;
    OneStep(s, CallSend(t, message, lane));
    steps := Extend(s, [CallSend(t, message, lane)], TestAndSet(t));
    assert s.threads[t := Spinning(message, lane)][t := Asking(message, lane)]
        == s.threads[t := Asking(message, lane)];
  }

  lemma IdleRing(s: State, t: int)
    requires Inv(s) && t in s.threads && s.threads[t].Asking?
    ensures var r := Channel(s, s.threads[t].lane);
            R.Inv(r) && r.elem == POINTER_SIZE && r.producer.Idle?
  {
    RestingRing(s, t);
  }

  // Where the two looks of New leave the thread.
  lemma AskIsARun(s: State, t: int) returns (steps: seq<Step>)
    requires Inv(s) && t in s.threads && s.threads[t].Asking?
    ensures Runnable(s, steps)
    ensures var me, ring := s.threads[t], Channel(s, s.threads[t].lane);
            && R.Inv(ring) && R.Enabled(ring, R.TryNew) && s.log != []
            && var r := R.New(ring);
               && !r.producer.Refreshing?
               && Exec(s, steps) == Answered(s, t, r)
  {
    hide Inv, R.Inv, Accepted;
    IdleRing(s, t);
    HolderIsAlone(s, t);
    var ring := Channel(s, s.threads[t].lane);
    R.StepKeepsInv(ring, R.TryNew);
    OneStep(s, AskNew(t));
    steps := [AskNew(t)];
    var r := R.Apply(ring, R.TryNew);
    if r.producer.Refreshing? {
      R.StepKeepsInv(r, R.RereadHead);
      steps := Extend(s, steps, Reread(t));
    }
  }

  ghost function Answered(s: State, t: int, r: R.Ring): State
    requires t in s.threads && s.threads[t].Asking? && !r.producer.Refreshing? && s.log != []
  {
    var me := s.threads[t];
    var to := if r.producer.Reserved? then Writing(me.message, me.lane, 0) else Leaving(false);
    WithThread(SetChannel(s, me.lane, r), t, to).(
      log := if r.producer.Reserved? then s.log else Settle(s.log, Refused))
  }

  lemma WritingRing(s: State, t: int)
    requires Inv(s) && t in s.threads && s.threads[t].Writing?
    ensures var r := Channel(s, s.threads[t].lane);
            R.Inv(r) && r.elem == POINTER_SIZE && r.producer.Reserved?
    ensures s.log != []
  {
    RestingRing(s, t);
    HolderIsAlone(s, t);
  }

  ghost function Stored(s: State, t: int, n: nat): State
    requires Inv(s) && t in s.threads && s.threads[t].Writing? && n <= POINTER_SIZE
  {
    WritingRing(s, t);
    var me := s.threads[t];
    WithThread(SetChannel(s, me.lane, Written(Channel(s, me.lane), me.message, n)), t, me.(offset := n))
  }

  lemma {:induction false} WriteIsARun(s: State, t: int, n: nat) returns (steps: seq<Step>)
    requires Inv(s) && t in s.threads && s.threads[t].Writing? && s.threads[t].offset == 0
    requires n <= POINTER_SIZE
    ensures Runnable(s, steps) && Exec(s, steps) == Stored(s, t, n)
  {
    hide Inv, R.Inv, Accepted, Written;
    WritingRing(s, t);
    var me := s.threads[t];
    var r := Channel(s, me.lane);
    if n == 0 {
      steps := [];
      WriteNone(r, me.message);
      assert s.threads[t := me] == s.threads;
    } else {
      steps := WriteIsARun(s, t, n - 1);
      var before := Stored(s, t, n - 1);
      WritingRing(before, t);
      steps := Extend(s, steps, WriteByte(t));
      WriteNext(r, me.message, n - 1);
      assert s.threads[t := me.(offset := n - 1)][t := me.(offset := n)] == s.threads[t := me.(offset := n)];
    }
  }

  ghost function PostedBy(s: State, t: int): State
    requires Inv(s) && t in s.threads && s.threads[t].Writing?
  {
    WritingRing(s, t);
    var me := s.threads[t];
    WithThread(SetChannel(s, me.lane, Published(Channel(s, me.lane), me.message)), t, Leaving(true)).(
      log := Settle(s.log, Sent))
  }

  lemma PostIsARun(s: State, t: int) returns (steps: seq<Step>)
    requires Inv(s) && t in s.threads && s.threads[t].Writing? && s.threads[t].offset == 0
    ensures Runnable(s, steps) && Exec(s, steps) == PostedBy(s, t)
  {
    hide Inv, R.Inv, Accepted, Written;
    WritingRing(s, t);
    var me := s.threads[t];
    steps := WriteIsARun(s, t, POINTER_SIZE);
    var before := Stored(s, t, POINTER_SIZE);
    WritingRing(before, t);
    steps := Extend(s, steps, Post(t));
    PublishWritten(Channel(s, me.lane), me.message);
    assert s.threads[t := me.(offset := POINTER_SIZE)][t := Leaving(true)] == s.threads[t := Leaving(true)];
  }

  // From the lock to the result.
  lemma WorkIsARun(s: State, t: int) returns (steps: seq<Step>)
    requires Inv(s) && t in s.threads && s.threads[t].Asking?
    ensures Runnable(s, steps)
    ensures var me, ring := s.threads[t], Channel(s, s.threads[t].lane);
            && R.Inv(ring) && ring.elem == POINTER_SIZE && R.Enabled(ring, R.TryNew) && s.log != []
            && Exec(s, steps) == Decided(s, t, me.lane, Sending(ring, me.message), R.New(ring).producer.Reserved?)
  {
    hide Inv, R.Inv, Accepted, R.New, Published;
    IdleRing(s, t);
    steps := AskIsARun(s, t);
    var me, r := s.threads[t], R.New(Channel(s, s.threads[t].lane));
    if r.producer.Reserved? {
      var asked := Answered(s, t, r);
      var rest := PostIsARun(asked, t);
      Append(s, steps, rest);
      steps := steps + rest;
      assert s.threads[t := Writing(me.message, me.lane, 0)][t := Leaving(true)] == s.threads[t := Leaving(true)];
    }
  }

  // The buffer when the result is known, with the lock still held.
  ghost function Decided(s: State, t: int, lane: Lane, r: R.Ring, sent: bool): State
    requires t in s.threads && s.log != []
  {
    WithThread(SetChannel(s, lane, r), t, Leaving(sent)).(log := Settle(s.log, if sent then Sent else Refused))
  }

  lemma LeaveLock(s: State, t: int, message: Pointer, lane: Lane, r: R.Ring, sent: bool)
    requires !s.locked && t !in s.threads
    ensures var g := Grant(t, message, lane, Open);
            var inside := Inside(s, t, Asking(message, lane), lane, Channel(s, lane), g);
            && t in inside.threads && inside.threads[t] == Asking(message, lane) && inside.log != []
            && Channel(inside, lane) == Channel(s, lane)
            && var decided := Decided(inside, t, lane, r, sent);
               && Enabled(decided, Unlock(t))
               && decided.(locked := false, threads := decided.threads - {t})
                  == SetChannel(s, lane, r).(
                       log := s.log + [Grant(t, message, lane, if sent then Sent else Refused)])
  {
    var g := Grant(t, message, lane, Open);
    var decided := Decided(Inside(s, t, Asking(message, lane), lane, Channel(s, lane), g), t, lane, r, sent);
    assert decided.threads - {t} == s.threads;
    assert decided.log == s.log + [g.(outcome := if sent then Sent else Refused)];
  }

  lemma UnlockStep(s: State, t: int)
    requires Inv(s) && Enabled(s, Unlock(t))
    ensures Apply(s, Unlock(t)) == s.(locked := false, threads := s.threads - {t})
  {
    hide Inv;
  }

  // A whole Send of a thread that finds the lock free: the lane's ring takes the message if
  // it has room, the other lane stays as it is, and the lock is free again.
  lemma SendIsARun(s: State, t: int, message: Pointer, lane: Lane) returns (steps: seq<Step>)
    requires Inv(s) && !s.locked && t !in s.threads
    requires RingOk(Channel(s, lane)) && Channel(s, lane).producer.Idle?
    ensures Runnable(s, steps)
    ensures var ring := Channel(s, lane);
            var outcome := if |R.Queue(ring)| < SLOTS then Sent else Refused;
            Exec(s, steps) == SetChannel(s, lane, Sending(ring, message)).(
                                log := s.log + [Grant(t, message, lane, outcome)])
  {
    hide Inv, R.Inv, Accepted, Sending, R.New, Apply, Inside, Decided, Enabled, Runnable, Exec;
    var ring := Channel(s, lane);
    R.CallsAnswer(ring);
    R.CounterOrder(ring);
    var sent := R.New(ring).producer.Reserved?;
    LeaveLock(s, t, message, lane, Sending(ring, message), sent);
    steps := EnterIsARun(s, t, message, lane);
    var inside := Exec(s, steps);
    var work := WorkIsARun(inside, t);
    Append(s, steps, work);
    UnlockStep(Exec(s, steps + work), t);
    steps := Extend(s, steps + work, Unlock(t));
  }
}
