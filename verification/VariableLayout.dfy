// The byte layout of the variable-size ring: what memory holds between two counters.
module VariableLayout {
  import opened Arith
  import opened EntryHeader

  // A ring of `size` bytes; entries and counters are multiples of 8.
  ghost predicate Sized(mem: Bytes, size: nat) {
    |mem| == size && size % 8 == 0 && 16 <= size
  }

  // Address of a counter in the ring.
  function Index(p: nat, size: nat): (i: nat)
    requires p % 8 == 0 && size % 8 == 0 && 0 < size
    ensures i == Wrap(p, size) && i % 8 == 0 && i + HEADER_SIZE <= size
  {
    WrapEight(p, size);
    Wrap(p, size)
  }

  // The consumer's test: an entry, as against filler up to the end of the buffer.
  predicate IsEntry(mem: Bytes, size: nat, i: nat)
    requires |mem| == size && i + HEADER_SIZE <= size
  {
    size - i > HEADER_SIZE && HeaderAt(mem, i).flags != PLACEHOLD
  }

  function BlockLength(mem: Bytes, size: nat, i: nat): nat
    requires |mem| == size && i + HEADER_SIZE <= size
  {
    if IsEntry(mem, size, i) then HeaderAt(mem, i).length else size - i
  }

  // A correct block: an entry that does not straddle the buffer end, or filler that
  // ends exactly there and whose 32-bit length field is the truncated distance.
  predicate BlockOk(mem: Bytes, size: nat, i: nat)
    requires |mem| == size && i + HEADER_SIZE <= size
  {
    var h := HeaderAt(mem, i);
    && h.magic == MAGIC
    && if IsEntry(mem, size, i) then
         h.flags == 0 && HEADER_SIZE <= h.length && h.length % 8 == 0 && i + h.length <= size
       else
         h.length == (size - i) % UINT32
  }

  lemma BlockBounds(mem: Bytes, size: nat, i: nat)
    requires |mem| == size && size % 8 == 0 && i % 8 == 0 && i + HEADER_SIZE <= size
    requires BlockOk(mem, size, i)
    ensures var n := BlockLength(mem, size, i); HEADER_SIZE <= n && n % 8 == 0 && i + n <= size
  {
    var h := HeaderAt(mem, i);
    if IsEntry(mem, size, i) {
      assert HEADER_SIZE <= h.length && h.length % 8 == 0 && i + h.length <= size;
    } else {
      assert BlockLength(mem, size, i) == size - i;
    }
  }

  // The counter behind the block at counter h.
  ghost function Next(mem: Bytes, size: nat, h: nat): (next: nat)
    requires Sized(mem, size) && h % 8 == 0 && BlockOk(mem, size, Index(h, size))
    ensures next == h + BlockLength(mem, size, Index(h, size))
    ensures h + HEADER_SIZE <= next && next % 8 == 0
    ensures Wrap(h, size) + (next - h) <= size
  {
    var i := Index(h, size);
    BlockBounds(mem, size, i);
    h + BlockLength(mem, size, i)
  }

  // [h, t) is a gap-free sequence of correct blocks.
  ghost predicate Chain(mem: Bytes, size: nat, h: nat, t: nat)
    requires Sized(mem, size) && h % 8 == 0
    decreases t - h
  {
    h == t ||
    (h < t && BlockOk(mem, size, Index(h, size))
     && Next(mem, size, h) <= t && Chain(mem, size, Next(mem, size, h), t))
  }

  function Payload(mem: Bytes, i: nat, length: nat): Bytes
    requires HEADER_SIZE <= length && i + length <= |mem|
  {
    mem[i + HEADER_SIZE..i + length]
  }

  // What the block at counter p contributes to the queue.
  ghost function BlockRecords(mem: Bytes, size: nat, i: nat): seq<Bytes>
    requires |mem| == size && i + HEADER_SIZE <= size && BlockOk(mem, size, i)
  {
    if IsEntry(mem, size, i) then [Payload(mem, i, HeaderAt(mem, i).length)] else []
  }

  // The payloads stored between two counters, oldest first.
  ghost function Records(mem: Bytes, size: nat, h: nat, t: nat): seq<Bytes>
    requires Sized(mem, size) && h % 8 == 0 && Chain(mem, size, h, t)
    decreases t - h
  {
    if h == t then []
    else
      BlockRecords(mem, size, Index(h, size)) + Records(mem, size, Next(mem, size, h), t)
  }

  lemma {:induction false} ChainJoin(mem: Bytes, size: nat, h: nat, m: nat, t: nat)
    requires Sized(mem, size) && h % 8 == 0 && m % 8 == 0
    requires Chain(mem, size, h, m) && Chain(mem, size, m, t)
    ensures Chain(mem, size, h, t)
    ensures Records(mem, size, h, t) == Records(mem, size, h, m) + Records(mem, size, m, t)
    decreases m - h
  {
    hide HeaderAt;
    if h < m {
      var next := Next(mem, size, h);
      ChainJoin(mem, size, next, m, t);
      var first := BlockRecords(mem, size, Index(h, size));
      assert first + (Records(mem, size, next, m) + Records(mem, size, m, t))
          == (first + Records(mem, size, next, m)) + Records(mem, size, m, t);
    } else {
      assert Records(mem, size, h, m) == [];
    }
  }

  // Both memories hold the same bytes at every counter of [h, t).
  ghost predicate Agree(mem: Bytes, mem': Bytes, size: nat, h: nat, t: nat) {
    && 0 < size == |mem| == |mem'|
    && forall p: nat :: h <= p < t ==> mem[Wrap(p, size)] == mem'[Wrap(p, size)]
  }

  lemma SliceAgrees(mem: Bytes, mem': Bytes, size: nat, p: nat, n: nat, t: nat)
    requires Agree(mem, mem', size, p, t)
    requires p + n <= t && Wrap(p, size) + n <= size
    ensures var i := Wrap(p, size); mem[i..i + n] == mem'[i..i + n]
  {
    var i := Wrap(p, size);
    forall k | i <= k < i + n ensures mem[k] == mem'[k] {
      WrapAdd(p, k - i, size);
      assert p <= p + (k - i) < t;
    }
  }

  lemma HeaderAgrees(mem: Bytes, mem': Bytes, size: nat, p: nat, t: nat)
    requires Sized(mem, size) && p % 8 == 0 && p + HEADER_SIZE <= t
    requires Agree(mem, mem', size, p, t)
    ensures HeaderAt(mem', Index(p, size)) == HeaderAt(mem, Index(p, size))
  {
    var i := Index(p, size);
    SliceAgrees(mem, mem', size, p, HEADER_SIZE, t);
  }

  lemma BlockAgrees(mem: Bytes, mem': Bytes, size: nat, p: nat, t: nat)
    requires Sized(mem, size) && p % 8 == 0
    requires Agree(mem, mem', size, p, t)
    requires BlockOk(mem, size, Index(p, size))
    requires p + BlockLength(mem, size, Index(p, size)) <= t
    ensures var i := Index(p, size);
            && BlockOk(mem', size, i)
            && BlockLength(mem', size, i) == BlockLength(mem, size, i)
            && BlockRecords(mem', size, i) == BlockRecords(mem, size, i)
  {
    hide HeaderAt;
    var i := Index(p, size);
    BlockBounds(mem, size, i);
    HeaderAgrees(mem, mem', size, p, t);
    if IsEntry(mem, size, i) {
      var n := HeaderAt(mem, i).length;
      SliceAgrees(mem, mem', size, p, n, t);
      assert Payload(mem, i, n) == mem[i..i + n][HEADER_SIZE..];
      assert Payload(mem', i, n) == mem'[i..i + n][HEADER_SIZE..];
    }
  }

  // Writing elsewhere changes neither the blocks nor their payloads.
  lemma {:induction false} ChainAgrees(mem: Bytes, mem': Bytes, size: nat, h: nat, t: nat)
    requires Sized(mem, size) && h % 8 == 0
    requires Agree(mem, mem', size, h, t) && Chain(mem, size, h, t)
    ensures Chain(mem', size, h, t)
    ensures Records(mem', size, h, t) == Records(mem, size, h, t)
    decreases t - h
  {
    hide HeaderAt;
    if h < t {
      BlockAgrees(mem, mem', size, h, t);
      ChainAgrees(mem, mem', size, Next(mem, size, h), t);
    }
  }

  // A write at counters [a, a + n) that stays within one lap of h spares [h, t).
  lemma StoreSpares(mem: Bytes, size: nat, h: nat, t: nat, a: nat, at: nat, bytes: Bytes)
    requires 0 < size == |mem| && h <= t <= a
    requires at == Wrap(a, size) && at + |bytes| <= size && a + |bytes| <= h + size
    ensures Agree(mem, Store(mem, at, bytes), size, h, t)
  {
    var mem' := Store(mem, at, bytes);
    forall p: nat | h <= p < t ensures mem[Wrap(p, size)] == mem'[Wrap(p, size)] {
      var i := Wrap(p, size);
      if at <= i < at + |bytes| {
        WrapAdd(a, i - at, size);
        WrapDistinct(p, a + (i - at), size);
        assert false;
      }
    }
  }
}
