// channel_common.h: the 8-byte header in front of every entry, as bytes in memory, and the
// counters both channels keep.
module EntryHeader {

  type Byte = x: int | 0 <= x < 256
  type Bytes = seq<Byte>

  const MAGIC: nat := 0x7F7F
  const PLACEHOLD: nat := 1
  const HEADER_SIZE: nat := 8
  const UINT32: nat := 0x1_0000_0000

  // The longest payload whose entry size still fits 32 bits.
  const MAX_PAYLOAD: nat := UINT32 - 16

  // ChannelStats: calls that succeeded and failed, for each half of a pair.
  datatype Stats = Stats(count: nat, failed: nat, count2: nat, failed2: nat)

  datatype Header = Header(magic: nat, flags: nat, length: nat)

  function LittleEndian(v: nat, n: nat): (bytes: Bytes)
    ensures |bytes| == n
  {
    if n == 0 then [] else [v % 256] + LittleEndian(v / 256, n - 1)
  }

  function Value(bytes: Bytes): nat {
    if bytes == [] then 0 else bytes[0] + 256 * Value(bytes[1..])
  }

  function Encode(h: Header): (bytes: Bytes)
    ensures |bytes| == HEADER_SIZE
  {
    LittleEndian(h.magic, 2) + LittleEndian(h.flags, 2) + LittleEndian(h.length, 4)
  }

  function Decode(bytes: Bytes): Header
    requires |bytes| == HEADER_SIZE
  {
    Header(Value(bytes[0..2]), Value(bytes[2..4]), Value(bytes[4..8]))
  }

  lemma Value2(v: nat)
    requires v < 0x1_0000
    ensures Value(LittleEndian(v, 2)) == v
  {
    var both := LittleEndian(v, 2);
    var high := LittleEndian(v / 256, 1);
    assert high == [v / 256] && high[1..] == [];
    assert Value(high) == v / 256;
    assert both == [v % 256] + high && both[1..] == high;
    assert Value(both) == both[0] + 256 * Value(both[1..]);
  }

  lemma Value4(v: nat)
    requires v < UINT32
    ensures Value(LittleEndian(v, 4)) == v
  {
    var all := LittleEndian(v, 4);
    assert all[1..] == LittleEndian(v / 256, 3);
    assert all[1..][1..] == LittleEndian(v / 256 / 256, 2);
    Value2(v / 256 / 256);
  }

  // A header whose fields fit their widths reads back as it was written.
  lemma DecodeEncode(h: Header)
    requires h.magic < 0x1_0000 && h.flags < 0x1_0000 && h.length < UINT32
    ensures Decode(Encode(h)) == h
  {
    Value2(h.magic);
    Value2(h.flags);
    Value4(h.length);
    var bytes := Encode(h);
    assert bytes[0..2] == LittleEndian(h.magic, 2);
    assert bytes[2..4] == LittleEndian(h.flags, 2);
    assert bytes[4..8] == LittleEndian(h.length, 4);
  }

  function Word(low: nat, high: nat): nat {
    low + 0x100 * high
  }

  // Where the fields lie: two 16-bit numbers and a 32-bit one, low bytes first.
  lemma HeaderLayout(h: Header)
    requires h.magic < 0x1_0000 && h.flags < 0x1_0000 && h.length < UINT32
    ensures var b := Encode(h);
            && Word(b[0], b[1]) == h.magic
            && Word(b[2], b[3]) == h.flags
            && Word(b[4], b[5]) + 0x1_0000 * Word(b[6], b[7]) == h.length
  {
    Digits2(h.magic);
    Digits2(h.flags);
    assert LittleEndian(h.length, 4)[1..] == LittleEndian(h.length / 256, 3);
    assert LittleEndian(h.length, 4)[1..][1..] == LittleEndian(h.length / 256 / 256, 2);
    Digits2(h.length / 256 / 256);
  }

  lemma Digits2(v: nat)
    requires v < 0x1_0000
    ensures var d := LittleEndian(v, 2); Word(d[0], d[1]) == v
  {
    assert LittleEndian(v, 2)[1..] == LittleEndian(v / 256, 1);
  }

  // Memory after writing `bytes` from address `at` on.
  function Store(mem: Bytes, at: nat, bytes: Bytes): (mem': Bytes)
    requires at + |bytes| <= |mem|
    ensures |mem'| == |mem|
  {
    mem[..at] + bytes + mem[at + |bytes|..]
  }

  function HeaderAt(mem: Bytes, at: nat): Header
    requires at + HEADER_SIZE <= |mem|
  {
    Decode(mem[at..at + HEADER_SIZE])
  }

  lemma HeaderStored(mem: Bytes, at: nat, h: Header)
    requires at + HEADER_SIZE <= |mem|
    requires h.magic < 0x1_0000 && h.flags < 0x1_0000 && h.length < UINT32
    ensures HeaderAt(Store(mem, at, Encode(h)), at) == h
  {
    DecodeEncode(h);
    assert Store(mem, at, Encode(h))[at..at + HEADER_SIZE] == Encode(h);
  }

  // ALIGN8 on a 32-bit value: the addition wraps before the low bits are cleared.
  function Align8(size: nat): nat
    requires size < UINT32
  {
    var sum := (size + 7) % UINT32;
    sum - sum % 8
  }

  // The 64-bit sum with sizeof(Entry) is cut back to 32 bits by the return type.
  function CalSize(size: nat): nat
    requires size < UINT32
  {
    (HEADER_SIZE + Align8(size)) % UINT32
  }

  // The entry has room for its header and the whole payload, rounded up to 8 bytes,
  // exactly for payloads up to MAX_PAYLOAD.
  lemma CalSizeFits(size: nat)
    requires size < UINT32
    ensures CalSize(size) % 8 == 0
    ensures CalSize(size) >= HEADER_SIZE + size <==> size <= MAX_PAYLOAD
    ensures size <= MAX_PAYLOAD ==> CalSize(size) < HEADER_SIZE + size + 8
  {
  }
}
