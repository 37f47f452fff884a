// receive_buffer.h: the buffer between the socket and the framer.
module ReceiveBuffer {
  import opened Wrappers
  import opened EntryHeader

  // What recv may answer: some bytes, zero for the end of the stream, nothing at the moment,
  // an error.
  datatype Reply = Data(bytes: Bytes) | Closed | WouldBlock | Failed

  // The peer's byte stream. The kernel decides how much of it a call returns.
  class Socket {
    const wire: nat -> Byte
    var position: nat
    ghost var last: Reply      // the latest answer about the stream
    ghost var asked: nat       // the room offered to the latest call

    constructor (wire: nat -> Byte)
      ensures this.wire == wire && position == 0
    {
      this.wire := wire;
      position, last, asked := 0, WouldBlock, 0;
    }

    ghost function Received(): (bytes: Bytes)
      reads this
      ensures |bytes| == position
    {
      seq(position, i requires 0 <= i => wire(i))
    }

    // A call with room for no byte returns zero and says nothing about the stream.
    method Receive(limit: nat) returns (reply: Reply)
      modifies this
      ensures last == (if limit == 0 then old(last) else reply) && asked == limit
      ensures limit == 0 ==> reply == Closed
      ensures reply.Data? ==> 1 <= |reply.bytes| <= limit
      ensures Received() == old(Received()) + if reply.Data? then reply.bytes else []
    {
      asked := limit;
      if limit == 0 {
        return Closed;
      }
      var answer: nat :| 0 <= answer < 4;
      if answer == 0 {
        last := Closed;
        return Closed;
      } else if answer == 1 {
        last := WouldBlock;
        return WouldBlock;
      } else if answer == 2 {
        last := Failed;
        return Failed;
      }
      var n: nat :| 1 <= n <= limit;
      var from := position;
      reply := Data(seq(n, i requires 0 <= i => wire(from + i)));
      position, last := position + n, reply;
      assert forall k :: 0 <= k < from ==> Received()[k] == old(Received())[k];
      assert Received() == old(Received()) + reply.bytes;
    }
  }

  class Buffer {
    var data: array<Byte>
    var size: nat
    var tail: nat
    var head: nat
    ghost var copied: nat      // bytes copied by all expansions

    ghost predicate Valid()
      reads this
    {
      && data.Length == size < UINT32
      && head <= tail <= size
      && (head == tail ==> head == 0)
    }

    // Received and not yet consumed.
    ghost function Live(): Bytes
      requires Valid()
      reads this, data
    {
      data[head..tail]
    }

    constructor ()
      ensures Valid() && size == 0 && copied == 0 && fresh(data)
    {
      data := new Byte[0];
      size, tail, head, copied := 0, 0, 0, 0;
    }

    // `hasAllocator` says whether an allocator was passed, `hasMemory` whether it had memory.
    method Init(capacity: nat, hasAllocator: bool, hasMemory: bool) returns (error: ErrorCode)
      requires Valid() && capacity < UINT32
      modifies this
      ensures Valid()
      ensures error == if !hasAllocator then InvalidParam else if !hasMemory then OutOfMemory else Success
      ensures error == Success ==> size == capacity && Live() == [] && copied == 0 && fresh(data)
    {
      if !hasAllocator {
        return InvalidParam;
      }
      if !hasMemory {
        return OutOfMemory;
      }
      data := new Byte[capacity];
      size, tail, head, copied := capacity, 0, 0, 0;
      return Success;
    }

    // memmove of the live bytes to the start of the buffer.
    method Compact()
      requires Valid()
      modifies this`head, this`tail, data
      ensures Valid() && head == 0 && tail == old(tail) - old(head)
      ensures Live() == old(Live())
    {
      if tail != head {
        var n := tail - head;
        for i := 0 to n
          modifies data
          invariant data[..i] == old(data[head..tail])[..i]
          invariant forall k :: head + i <= k < tail ==> data[k] == old(data[k])
        {
          data[i] := data[head + i];
        }
        tail, head := n, 0;
      }
    }

    // Compacts, then moves to a larger block. The live bytes survive either way.
    method Expand(length: nat, hasMemory: bool) returns (error: ErrorCode)
      requires Valid() && size + length < UINT32
      modifies this, data
      ensures Valid() && head == 0 && tail == old(tail) - old(head)
      ensures Live() == old(Live())
      ensures error == if hasMemory then Success else OutOfMemory
      ensures error == Success ==>
        size == old(size) + length && copied == old(copied) + old(size) && fresh(data)
      ensures error != Success ==> size == old(size) && copied == old(copied) && data == old(data)
    {
      Compact();
      if !hasMemory {
        return OutOfMemory;
      }
      var larger := new Byte[size + length];
      for i := 0 to size
        modifies larger
        invariant larger[..i] == data[..i]
      {
        larger[i] := data[i];
      }
      assert larger[..tail] == data[..tail];
      copied := copied + size;
      data := larger;
      size := size + length;
      return Success;
    }

    // Appends what the socket has, at most maxLength bytes. There is room for at least one
    // byte unless the buffer was made without any, so that otherwise a return of zero from
    // recv really means the end.
    method Recv(socket: Socket, maxLength: nat, hasMemory: bool)
      returns (error: ErrorCode, length: nat, eof: bool, ghost chunk: Bytes)
      requires Valid() && size + size < UINT32
      modifies this, data, socket
      ensures Valid() && (data == old(data) || fresh(data))
      ensures Live() == old(Live()) + chunk && length == |chunk| <= maxLength
      ensures socket.Received() == old(socket.Received()) + chunk
      ensures error == OutOfMemory ==> !hasMemory && size == old(size) <= old(tail) + 1024
      ensures error == SystemError ==> socket.last == Failed
      ensures error != Success || eof ==> chunk == []
      ensures error in {Success, OutOfMemory, SystemError}
      ensures 0 < old(size) && 0 < maxLength && error == Success ==>
        && (eof <==> socket.last == Closed)
        && (!eof && length == 0 <==> socket.last == WouldBlock)
      ensures (old(size) == 0 || maxLength == 0) && error == Success ==> eof && socket.last == old(socket.last)
      // the call is offered all the room there is, up to maxLength bytes
      ensures error != OutOfMemory ==>
        tail - length <= size && socket.asked == if size - (tail - length) < maxLength then size - (tail - length) else maxLength
      // more than 1024 bytes were free for the call, once the buffer is larger than that
      ensures error != OutOfMemory && 1024 < old(size) ==> tail - length + 1024 < size
      // the buffer grew only when it was nearly full, and by doubling
      ensures size == old(size) || (size == 2 * old(size) && old(size) <= old(tail) + 1024)
      ensures tail <= old(tail) + length
      ensures copied - old(copied) == size - old(size)
    {
      eof, length, chunk := false, 0, [];
      if tail + 1024 >= size {
        error := Expand(size, hasMemory);
        if error != Success {
          return OutOfMemory, 0, false, [];
        }
      }
      var writeLength := if size - tail < maxLength then size - tail else maxLength;
      var reply := socket.Receive(writeLength);
      match reply
      case Data(bytes) =>
        Write(bytes);
        length := |bytes|;
        return Success, length, false, bytes;
      case Closed =>
        return Success, 0, true, [];
      case WouldBlock =>
        return Success, 0, false, [];
      case Failed =>
        return SystemError, 0, false, [];
    }

    // The kernel's write behind the live bytes.
    method Write(bytes: Bytes)
      requires Valid() && tail + |bytes| <= size && bytes != []
      modifies this`tail, data
      ensures Valid() && tail == old(tail) + |bytes| && Live() == old(Live()) + bytes
    {
      for i := 0 to |bytes|
        modifies data
        invariant data[..tail] == old(data[..tail])
        invariant data[tail..tail + i] == bytes[..i]
      {
        data[tail + i] := bytes[i];
      }
      assert data[head..tail] == data[..tail][head..];
      tail := tail + |bytes|;
      assert data[head..tail] == data[head..tail - |bytes|] + data[tail - |bytes|..tail];
    }

    method GetReadLength() returns (n: nat)
      requires Valid()
      ensures n == |Live()|
    {
      n := tail - head;
    }

    // Drops bytes at the front; an empty buffer starts over at its beginning.
    method Consume(length: nat)
      requires Valid() && length <= |Live()|
      modifies this`head, this`tail
      ensures Valid() && tail <= old(tail)
      ensures Live() == old(Live())[length..]
    {
      head := head + length;
      if head == tail {
        head, tail := 0, 0;
      }
    }
  }
}
