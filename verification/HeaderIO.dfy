// Reading and writing header fields in place.
module HeaderIO {
  import opened EntryHeader

  // Stores the low n bytes of v from address `at` on.
  method StoreField(a: array<Byte>, at: nat, v: nat, n: nat)
    requires at + n <= a.Length
    modifies a
    ensures a[..] == Store(old(a[..]), at, LittleEndian(v, n))
  {
    var rest := v;
    for i := 0 to n
      invariant LittleEndian(v, n) == a[at..at + i] + LittleEndian(rest, n - i)
      invariant a[..at] == old(a[..at]) && a[at + n..] == old(a[at + n..])
    {
      ghost var before := a[at..at + i];
      a[at + i] := rest % 256;
      rest := rest / 256;
      assert a[at..at + i + 1] == before + [a[at + i]];
    }
    assert a[..] == a[..at] + a[at..at + n] + a[at + n..];
  }

  // pEntry->uMagic, uFlags and uLength, in the order of the source.
  method StoreHeader(a: array<Byte>, at: nat, h: Header)
    requires at + HEADER_SIZE <= a.Length
    modifies a
    ensures a[..] == Store(old(a[..]), at, Encode(h))
  {
    ghost var before := a[..];
    StoreField(a, at, h.magic, 2);
    StoreField(a, at + 2, h.flags, 2);
    StoreField(a, at + 4, h.length, 4);
    StoresJoin(before, at, LittleEndian(h.magic, 2), LittleEndian(h.flags, 2));
    StoresJoin(before, at, LittleEndian(h.magic, 2) + LittleEndian(h.flags, 2), LittleEndian(h.length, 4));
  }

  // Adjacent stores are one store.
  lemma StoresJoin(mem: Bytes, at: nat, x: Bytes, y: Bytes)
    requires at + |x| + |y| <= |mem|
    ensures Store(Store(mem, at, x), at + |x|, y) == Store(mem, at, x + y)
  {
  }

  method LoadField(a: array<Byte>, at: nat, n: nat) returns (v: nat)
    requires at + n <= a.Length
    ensures v == Value(a[at..at + n])
  {
    v := 0;
    var i := n;
    while i > 0
      invariant 0 <= i <= n && v == Value(a[at + i..at + n])
    {
      i := i - 1;
      assert a[at + i..at + n][1..] == a[at + i + 1..at + n];
      v := a[at + i] + 256 * v;
    }
  }

  method LoadHeader(a: array<Byte>, at: nat) returns (h: Header)
    requires at + HEADER_SIZE <= a.Length
    ensures h == HeaderAt(a[..], at)
  {
    var magic := LoadField(a, at, 2);
    var flags := LoadField(a, at + 2, 2);
    var length := LoadField(a, at + 4, 4);
    ghost var bytes := a[..][at..at + HEADER_SIZE];
    assert bytes[0..2] == a[at..at + 2];
    assert bytes[2..4] == a[at + 2..at + 2 + 2];
    assert bytes[4..8] == a[at + 4..at + 4 + 4];
    h := Header(magic, flags, length);
  }
}
