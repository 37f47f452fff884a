// CSendBuffer as an object. A Send that finds the lock free is proved to be a run of the
// lock machine; the interleavings of many threads are the subject of SendSafety.
module SendBufferImpl {
  import opened Wrappers
  import opened EntryHeader
  import opened SendBuffer
  import opened SendSafety
  import opened SendCalls
  import R = FixedRing
  import FixedChannel

  class Buffer {
    const normal: FixedChannel.Channel
    const priority: FixedChannel.Channel
    var locked: bool
    ghost var log: seq<Grant>

    ghost function State(): SendBuffer.State
      reads this, normal, priority, normal.data, priority.data
    {
      SendBuffer.State(locked, map[], normal.State(), priority.State(), log)
    }

    // The buffer while no thread is inside Send.
    ghost predicate Valid()
      reads this, normal, priority, normal.data, priority.data
    {
      && normal != priority && normal.data != priority.data && !locked
      && normal.Valid() && priority.Valid() && Inv(State())
    }

    // Two new channels of 1024 pointers and a free lock.
    constructor (normal: FixedChannel.Channel, priority: FixedChannel.Channel)
      requires normal != priority && normal.data != priority.data
      requires normal.Valid() && R.Initial(normal.State()) && normal.size == SLOTS && normal.elem == POINTER_SIZE
      requires priority.Valid() && R.Initial(priority.State()) && priority.size == SLOTS && priority.elem == POINTER_SIZE
      ensures Valid() && Initial(State()) && this.normal == normal && this.priority == priority
    {
      this.normal, this.priority, locked, log := normal, priority, false, [];
      new;
      InitialInv(State());
    }

    function Lane(lane: SendBuffer.Lane): FixedChannel.Channel {
      if lane.Normal? then normal else priority
    }

    function OtherLane(lane: SendBuffer.Lane): FixedChannel.Channel {
      if lane.Normal? then priority else normal
    }

    // The pointer is stored in the slot that New returned.
    method Store(channel: FixedChannel.Channel, at: nat, message: Pointer)
      requires channel.Valid() && channel.elem == POINTER_SIZE && channel.producer == R.Reserved(at)
      modifies channel.data
      ensures channel.Valid() && channel.State() == Written(old(channel.State()), message, POINTER_SIZE)
    {
      hide R.Inv, Written;
      WriteNone(channel.State(), message);
      for i := 0 to POINTER_SIZE
        invariant channel.Valid() && channel.State() == Written(old(channel.State()), message, i)
        invariant channel.elem == POINTER_SIZE && channel.producer == R.Reserved(at)
      {
        WriteNext(old(channel.State()), message, i);
        channel.WriteByte(at, i, message[i]);
      }
    }

    // The body of Send between lock and unlock.
    method Enqueue(channel: FixedChannel.Channel, message: Pointer) returns (error: ErrorCode)
      requires channel.Valid() && channel.elem == POINTER_SIZE && channel.producer.Idle?
      modifies channel, channel.data
      ensures channel.Valid() && channel.data == old(channel.data) && channel.size == old(channel.size)
      ensures channel.State() == Sending(old(channel.State()), message)
      ensures error == if |old(R.Queue(channel.State()))| < channel.size then Success else OutOfMemory
    {
      hide R.Inv, R.New, R.Queue, Written;
      var at := channel.New();
      if at.Some? {
        ghost var asked := channel.State();
        Store(channel, at.value, message);
        PublishWritten(asked, message);
        channel.Post(at);
        return Success;
      }
      return OutOfMemory;
    }

    lemma LaneIsIdle(lane: SendBuffer.Lane)
      requires Valid()
      ensures Lane(lane).elem == POINTER_SIZE && Lane(lane).size == SLOTS && Lane(lane).producer.Idle?
      ensures RingOk(Lane(lane).State())
    {
      hide R.Inv, Accepted, MutualExclusion, LogOk;
    }

    // The message joins its lane, or the lane was full and nothing changes; the other lane
    // is left alone either way. `thread` names the calling thread.
    method Send(message: Pointer, lane: SendBuffer.Lane, ghost thread: int)
        returns (error: ErrorCode, ghost steps: seq<Step>)
      requires Valid()
      modifies this, Lane(lane), Lane(lane).data
      ensures Valid()
      ensures var before := old(R.Queue(Lane(lane).State()));
              && error == (if |before| < 1024 then Success else OutOfMemory)
              && R.Queue(Lane(lane).State()) == if error == Success then before + [message] else before
      ensures OtherLane(lane).State() == old(OtherLane(lane).State())
      ensures Runnable(old(State()), steps) && State() == Exec(old(State()), steps)
    {
      hide R.Inv, Inv, R.Queue, Sending, Runnable, Exec, RingOk;
      LaneIsIdle(lane);
      steps := SendIsARun(State(), thread, message, lane);
      ghost var before := Lane(lane).State();
      locked := true;
      error := Enqueue(Lane(lane), message);
      SendingQueue(before, message);
      log := log + [Grant(thread, message, lane, if error == Success then Sent else Refused)];
      locked := false;
    }
  }
}
