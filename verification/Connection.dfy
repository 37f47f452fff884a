// CConnectionImpl's receiving side: DeliverMessage and Recv.
module Connection {
  import opened Wrappers
  import opened EntryHeader
  import opened Framing
  import opened ReceiveBuffer

  const INITIAL_CAPACITY: nat := 4096

  // Why Recv came to its end.
  datatype Ending =
    | NotOpen | BudgetSpent | NothingMore
    | EndOfStream | BrokenData | SocketError | NoMemory

  // The chunks from a position on are nonempty, the last one perhaps excepted.
  predicate Brought(chunks: seq<Bytes>, start: nat, all: bool) {
    forall i :: start <= i < |chunks| - (if all then 0 else 1) ==> chunks[i] != []
  }

  lemma BroughtMore(before: seq<Bytes>, after: seq<Bytes>, start: nat)
    requires start <= |before| && before <= after
    ensures start == |before| ==> Brought(before, start, true)
    ensures Brought(before, start, true) ==>
      && (|after| <= |before| + 1 ==> Brought(after, start, false))
      && (|after| == |before| ==> Brought(after, start, true))
      && (|after| == |before| + 1 && after[|before|] != [] ==> Brought(after, start, true))
  {
  }

  class ConnectionImpl {
    const messageLength: Bytes -> nat    // OnMessageLength
    const socket: Socket
    const buffer: Buffer
    var isOpen: bool                     // m_iFd != -1
    var delivered: seq<Bytes>            // the arguments of OnMessage, in order
    ghost var chunks: seq<Bytes>         // what recv returned, call by call
    ghost var failed: bool               // a message with broken length was met

    ghost function Session(): Framing.Session
      requires buffer.Valid()
      reads this, buffer, buffer.data
    {
      Framing.Session(delivered, buffer.Live(), failed)
    }

    // The capacity follows the bytes received so far; expansions have copied no more
    // than the capacity they added.
    ghost predicate Bounded()
      reads socket, buffer
    {
      && buffer.tail <= socket.position
      && INITIAL_CAPACITY <= buffer.size
      && (buffer.size == INITIAL_CAPACITY || buffer.size <= 2 * (socket.position + 1024))
      && buffer.copied == buffer.size - INITIAL_CAPACITY
    }

    ghost predicate Valid()
      reads this, socket, buffer, buffer.data
    {
      && buffer.Valid() && Bounded()
      && Session() == FeedAll(messageLength, chunks)
      && FedWhileGood(messageLength, chunks)
      && Concat(chunks) == socket.Received()
      && (failed ==> !isOpen)
    }

    // A broken stream is one whose kept bytes the length function calls broken; kept bytes
    // it was asked about, because there are some or nothing arrived, are so in no other.
    ghost predicate Verdict(asked: bool)
      requires buffer.Valid()
      reads this`failed, buffer, buffer.data
    {
      && (failed ==> messageLength(buffer.Live()) == 0xFFFF_FFFF)
      && (!failed && (asked || buffer.Live() != []) ==> messageLength(buffer.Live()) != 0xFFFF_FFFF)
    }

    lemma LiveVerdict()
      requires Valid() && chunks != []
      ensures Verdict(chunks[|chunks| - 1] == [])
    {
      FeedVerdict(messageLength, chunks);
    }

    constructor (messageLength: Bytes -> nat, socket: Socket, buffer: Buffer)
      requires buffer.Valid() && buffer.size == INITIAL_CAPACITY && buffer.Live() == [] && buffer.copied == 0
      requires socket.position == 0
      ensures Valid() && this.messageLength == messageLength && chunks == []
      ensures this.socket == socket && this.buffer == buffer && isOpen
    {
      this.messageLength, this.socket, this.buffer := messageLength, socket, buffer;
      isOpen, delivered, chunks, failed := true, [], [], false;
    }

    // Hands whole messages over until none is left, or broken data is met. Messages and rest
    // are a cut of the data; the error is the length function's last answer, which is about
    // the rest unless the last message ended where the data did.
    method DeliverMessage() returns (error: ErrorCode, ghost messages: seq<Bytes>)
      requires buffer.Valid()
      modifies this`delivered, buffer`head, buffer`tail
      ensures buffer.Valid() && buffer.tail <= old(buffer.tail)
      ensures delivered == old(delivered) + messages
      ensures IsCut(messageLength, old(buffer.Live()), messages, buffer.Live())
      ensures error in {Success, InvalidState}
      ensures error == InvalidState <==>
        messageLength(buffer.Live()) == 0xFFFF_FFFF && (messages == [] || buffer.Live() != [])
      ensures Deliver(messageLength, old(buffer.Live()))
           == Delivery(messages, buffer.Live(), error == InvalidState)
    {
      hide IsCut, Deliver, Remains;
      ghost var whole := Deliver(messageLength, buffer.Live());
      DeliverVerdict(messageLength, buffer.Live());
      DeliverIsCut(messageLength, buffer.Live());
      messages := [];
      RemainsAll(messageLength, buffer.Live());
      while true
        invariant buffer.Valid() && buffer.tail <= old(buffer.tail)
        invariant delivered == old(delivered) + messages
        invariant Remains(messageLength, buffer.Live(), messages, whole)
        decreases |buffer.Live()|
      {
        ghost var live := buffer.Live();
        RemainsNext(messageLength, live, messages, whole);
        var available := buffer.GetReadLength();
        var length := messageLength(buffer.data[buffer.head..buffer.tail]);
        if length == 0 {
          return Success, messages;
        } else if length == BROKEN {
          return InvalidState, messages;
        } else if length <= available {
          delivered := delivered + [buffer.data[buffer.head..buffer.tail][..length]];
          messages := messages + [live[..length]];
          buffer.Consume(length);
          if length == available {
            return Success, messages;
          }
        } else {
          return Success, messages;
        }
      }
    }

    // The dispatcher's part in closing is not modelled: the descriptor is gone at once.
    method Close()
      modifies this`isOpen
      ensures !isOpen && (old(Valid()) ==> Valid())
    {
      isOpen := false;
    }

    // The delivery behind one recv that appended `chunk` to the buffer.
    method Accept(ghost before: Bytes, ghost chunk: Bytes) returns (error: ErrorCode)
      requires buffer.Valid() && isOpen && !failed
      requires FeedAll(messageLength, chunks) == Framing.Session(delivered, before, false)
      requires buffer.Live() == before + chunk
      modifies this, buffer`head, buffer`tail
      ensures buffer.Valid() && buffer.tail <= old(buffer.tail)
      ensures chunks == old(chunks) + [chunk] && old(delivered) <= delivered
      ensures Session() == FeedAll(messageLength, chunks) && FedWhileGood(messageLength, chunks)
      ensures failed == !isOpen && error == if failed then InvalidState else Success
      ensures Verdict(chunk == [])
    {
      hide FeedAll, FedWhileGood, Deliver;
      ghost var messages;
      error, messages := DeliverMessage();
      FeedOne(messageLength, chunks, chunk);
      chunks := chunks + [chunk];
      FeedVerdict(messageLength, chunks);
      failed := error == InvalidState;
      if error != Success {
        Close();
      }
    }

    // One recv and the delivery behind it.
    method RecvOnce(limit: nat, hasMemory: bool) returns (error: ErrorCode, length: nat, eof: bool)
      requires Valid() && isOpen && 1 <= limit
      requires buffer.size < 0x8000_0000
      modifies this, buffer, buffer.data, socket
      ensures Valid() && buffer.Valid() && (buffer.data == old(buffer.data) || fresh(buffer.data))
      ensures length <= limit && socket.position == old(socket.position) + length
      ensures old(chunks) <= chunks && old(delivered) <= delivered
      ensures if error in {Success, InvalidState}
              then |chunks| == |old(chunks)| + 1 && |chunks[|old(chunks)|]| == length
              else chunks == old(chunks)
      ensures buffer.tail <= old(buffer.tail) + length
      ensures buffer.size == old(buffer.size) || buffer.size <= 2 * (old(buffer.tail) + 1024)
      ensures error == Success <==> isOpen
      ensures error in {Success, OutOfMemory, SystemError, InvalidState}
      ensures error == InvalidState <==> failed
      ensures error == SystemError ==> socket.last == Failed
      ensures error == OutOfMemory ==> !hasMemory && buffer.size == old(buffer.size)
      ensures error == Success ==>
        && (eof <==> socket.last == Closed) && (eof ==> length == 0)
        && (!eof && length == 0 <==> socket.last == WouldBlock)
      ensures error == Success ==> Verdict(length == 0)
      ensures error == InvalidState ==> Verdict(true)
    {
      hide FeedAll;
      ghost var before := buffer.Live();
      ghost var chunk;
      error, length, eof, chunk := buffer.Recv(socket, limit, hasMemory);
      if error != Success {
        Close();
        return;
      }
      ConcatAppend(chunks, [chunk]);
      ConcatOne(chunk);
      error := Accept(before, chunk);
    }

    // Reads and delivers up to `size` bytes, stops early when nothing more is there, and
    // closes the connection at the end of the stream -- where the result is the number of
    // bytes received, like an error code -- and after an error. `memory` says for which block
    // sizes the allocator has memory.
    method Recv(size: nat, memory: nat -> bool) returns (code: int, ghost ending: Ending)
      requires Valid()
      requires buffer.size < 0x8000_0000 && buffer.tail + size + 1024 < 0x4000_0000
      modifies this, buffer, buffer.data, socket
      ensures Valid()
      ensures old(chunks) <= chunks && old(delivered) <= delivered
      ensures old(socket.position) <= socket.position <= old(socket.position) + size
      ensures ending == NotOpen <==> !old(isOpen)
      // every recv but the one that ends the call brought something
      ensures Brought(chunks, |old(chunks)|, ending in {BudgetSpent, SocketError, NoMemory})
      ensures ending in {NothingMore, EndOfStream, BrokenData} ==> Verdict(true)
      ensures ending == BudgetSpent && 0 < size ==> Verdict(false)
      ensures var received := socket.position - old(socket.position);
              match ending
              case NotOpen =>
                && code == InvalidState.Number() && received == 0
                && chunks == old(chunks) && delivered == old(delivered) && !isOpen
              case BudgetSpent => code == Success.Number() && isOpen && received == size
              case NothingMore =>
                code == Success.Number() && isOpen && received < size && socket.last == WouldBlock
              case EndOfStream =>
                code == received < size && !isOpen && !failed && socket.last == Closed
              case BrokenData => code == InvalidState.Number() && !isOpen && failed
              case SocketError =>
                code == SystemError.Number() && !isOpen && !failed && socket.last == Failed
              case NoMemory =>
                code == OutOfMemory.Number() && !isOpen && !failed && !memory(2 * buffer.size)
    {
      if !isOpen {
        return InvalidState.Number(), NotOpen;
      }
      assert buffer.Valid() && !failed;
      hide Valid, ErrorCode.Number, Verdict, Brought;
      assert Brought(chunks, |chunks|, true) by { BroughtMore(chunks, chunks, |chunks|); }
      var total := 0;
      while total < size
        invariant Valid() && buffer.Valid() && isOpen && !failed && (buffer.data == old(buffer.data) || fresh(buffer.data))
        invariant total <= size && socket.position == old(socket.position) + total
        invariant buffer.tail <= old(buffer.tail) + total && buffer.size < 0x8000_0000
        invariant old(chunks) <= chunks && old(delivered) <= delivered
        invariant Brought(chunks, |old(chunks)|, true)
        invariant 0 < total ==> Verdict(false)
        decreases size - total
      {
        ghost var before := chunks;
        var error, length, eof := RecvOnce(size - total, memory(2 * buffer.size));
        BroughtMore(before, chunks, |old(chunks)|);
        assert socket.position == old(socket.position) + total + length;
        if error != Success {
          ending := if error == InvalidState then BrokenData
                    else if error == SystemError then SocketError else NoMemory;
          return error.Number(), ending;
        }
        if eof {
          Close();
          return total, EndOfStream;
        }
        if length == 0 {
          return Success.Number(), NothingMore;
        }
        total := total + length;
      }
      return Success.Number(), BudgetSpent;
    }

    // With a stable length function all messages handed over so far are one pass over all
    // bytes received so far, and what is kept is what that pass leaves.
    lemma StreamIsParsed()
      requires Valid() && PrefixStable(messageLength) && chunks != []
      ensures var d := Deliver(messageLength, socket.Received());
              && delivered == d.messages && failed == d.failed
              && (!failed ==> buffer.Live() == d.rest)
    {
      FeedIsOnePass(messageLength, chunks);
    }

    // With any length function no byte is lost or invented, and while the data is not
    // broken the buffer holds no whole message.
    lemma BytesAreConserved()
      requires Valid()
      ensures Concat(delivered) + buffer.Live() == socket.Received()
      ensures !failed && chunks != [] ==>
        messageLength(buffer.Live()) == 0 || |buffer.Live()| < messageLength(buffer.Live())
    {
      FeedConserves(messageLength, chunks);
    }
  }
}
