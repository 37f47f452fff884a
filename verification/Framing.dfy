// What cutting a byte stream into messages means: one delivery pass over a buffer, passes
// over a stream that arrives in chunks, and their independence of the chunks.
module Framing {
  import opened EntryHeader

  // OnMessageLength's answer for broken data; 0 means that the length is not known yet.
  const BROKEN: nat := 0xFFFF_FFFF

  datatype Delivery = Delivery(messages: seq<Bytes>, rest: Bytes, failed: bool)

  // One pass of DeliverMessage over the bytes of the buffer. It stops without asking again
  // when a message ends exactly at the end of the data.
  function Deliver(f: Bytes -> nat, s: Bytes): Delivery
    decreases |s|
  {
    var n := f(s);
    if n == 0 then Delivery([], s, false)
    else if n == BROKEN then Delivery([], s, true)
    else if n < |s| then
      var d := Deliver(f, s[n..]);
      Delivery([s[..n]] + d.messages, d.rest, d.failed)
    else if n == |s| then Delivery([s], [], false)
    else Delivery([], s, false)
  }

  // A length function whose answer, once it has one, does not change with further bytes.
  ghost predicate PrefixStable(f: Bytes -> nat) {
    forall p: Bytes, q: Bytes :: f(p) != 0 ==> f(p + q) == f(p)
  }

  function Concat(parts: seq<Bytes>): Bytes {
    if parts == [] then [] else Concat(parts[..|parts| - 1]) + parts[|parts| - 1]
  }

  lemma {:induction false} ConcatAppend(a: seq<Bytes>, b: seq<Bytes>)
    ensures Concat(a + b) == Concat(a) + Concat(b)
    decreases |b|
  {
    if b == [] {
      assert a + b == a;
    } else {
      var front, last := b[..|b| - 1], b[|b| - 1];
      ConcatAppend(a, front);
      assert (a + b)[..|a + b| - 1] == a + front;
    }
  }

  lemma ConcatOne(part: Bytes)
    ensures Concat([part]) == part
  {
    var parts := [part];
    assert parts[..0] == [];
  }

  // A correct cut of s: nonempty messages of the length the function asks for, in front of
  // a rest in which it finds no whole message.
  ghost predicate IsCut(f: Bytes -> nat, s: Bytes, messages: seq<Bytes>, rest: Bytes)
    decreases |messages|
  {
    if messages == [] then s == rest && (f(s) == 0 || f(s) == BROKEN || |s| < f(s))
    else
      var m := messages[0];
      && m != [] && m <= s && f(s) == |m| && f(s) != BROKEN
      && if m == s then messages[1..] == [] && rest == []
         else IsCut(f, s[|m|..], messages[1..], rest)
  }

  lemma {:induction false} DeliverIsCut(f: Bytes -> nat, s: Bytes)
    ensures var d := Deliver(f, s); IsCut(f, s, d.messages, d.rest)
    decreases |s|
  {
    var n, d := f(s), Deliver(f, s);
    if n != 0 && n != BROKEN && n < |s| {
      DeliverIsCut(f, s[n..]);
      assert d.messages[1..] == Deliver(f, s[n..]).messages;
    }
  }

  // There is only one correct cut.
  lemma {:induction false} CutIsUnique(f: Bytes -> nat, s: Bytes, a: seq<Bytes>, ra: Bytes, b: seq<Bytes>, rb: Bytes)
    requires IsCut(f, s, a, ra) && IsCut(f, s, b, rb)
    ensures a == b && ra == rb
    decreases |a|
  {
    if a != [] && b != [] {
      assert a[0] == s[..|a[0]|] == b[0];
      assert a == [a[0]] + a[1..] && b == [b[0]] + b[1..];
      if a[0] != s {
        CutIsUnique(f, s[|a[0]|..], a[1..], ra, b[1..], rb);
      }
    }
  }

  // No byte is lost or invented, and a pass that succeeds leaves no whole message behind.
  lemma {:induction false} DeliverConserves(f: Bytes -> nat, s: Bytes)
    ensures var d := Deliver(f, s);
            && Concat(d.messages) + d.rest == s
            && (d.failed ==> f(d.rest) == BROKEN)
            && (!d.failed ==> f(d.rest) == 0 || |d.rest| < f(d.rest))
    decreases |s|
  {
    var n, d := f(s), Deliver(f, s);
    if n != 0 && n != BROKEN && n < |s| {
      var tail := Deliver(f, s[n..]);
      DeliverConserves(f, s[n..]);
      ConcatAppend([s[..n]], tail.messages);
      assert Concat([s[..n]]) == s[..n];
      assert s == s[..n] + s[n..];
    }
  }

  // A pass fails exactly if the function calls the rest broken; a rest that is empty because
  // the last message ended there is not asked about.
  lemma {:induction false} DeliverVerdict(f: Bytes -> nat, s: Bytes)
    ensures var d := Deliver(f, s);
            && (d.failed <==> f(d.rest) == 0xFFFF_FFFF && (d.messages == [] || d.rest != []))
            && (d.messages == [] ==> d.rest == s)
    decreases |s|
  {
    var n := f(s);
    if n != 0 && n != BROKEN && n < |s| {
      DeliverVerdict(f, s[n..]);
    }
  }

  // A pass with the messages `passed` behind it and the bytes s still to do.
  predicate Remains(f: Bytes -> nat, s: Bytes, passed: seq<Bytes>, whole: Delivery) {
    var d := Deliver(f, s);
    whole == Delivery(passed + d.messages, d.rest, d.failed)
  }

  lemma RemainsAll(f: Bytes -> nat, s: Bytes)
    ensures Remains(f, s, [], Deliver(f, s))
  {
  }

  lemma RemainsNext(f: Bytes -> nat, s: Bytes, passed: seq<Bytes>, whole: Delivery)
    requires Remains(f, s, passed, whole)
    ensures var n := f(s);
            if 0 < n && n != BROKEN && n < |s| then Remains(f, s[n..], passed + [s[..n]], whole)
            else if 0 < n && n != BROKEN && n == |s| then whole == Delivery(passed + [s[..n]], [], false)
            else whole == Delivery(passed, s, n == BROKEN)
  {
    var n := f(s);
    assert passed + [] == passed && s[..|s|] == s;
    if 0 < n && n != BROKEN && n < |s| {
      Associate(passed, [s[..n]], Deliver(f, s[n..]).messages);
    }
  }

  // A pass over more data begins as the pass over less.
  lemma {:induction false} DeliverMore(f: Bytes -> nat, a: Bytes, b: Bytes)
    requires PrefixStable(f)
    ensures var d, all := Deliver(f, a), Deliver(f, a + b);
            if d.failed then all == Delivery(d.messages, d.rest + b, true)
            else var next := Deliver(f, d.rest + b);
                 all == Delivery(d.messages + next.messages, next.rest, next.failed)
    decreases |a|
  {
    var n := f(a);
    if n == 0 || n == BROKEN || |a| < n {
      assert Deliver(f, a).messages + Deliver(f, a + b).messages == Deliver(f, a + b).messages;
    } else {
      assert f(a + b) == n;
      if n < |a| {
        DeliverMore(f, a[n..], b);
        var d := Deliver(f, a[n..]);
        Associate([a[..n]], d.messages, Deliver(f, d.rest + b).messages);
        assert (a + b)[n..] == a[n..] + b;
        assert (a + b)[..n] == a[..n];
      } else if b == [] {
        assert a + b == a && [] + b == b;
        NothingToDeliver(f, a);
      } else {
        assert (a + b)[n..] == b && (a + b)[..n] == a && [] + b == b;
      }
    }
  }

  lemma NothingToDeliver(f: Bytes -> nat, a: Bytes)
    requires PrefixStable(f) && f(a) != BROKEN
    ensures Deliver(f, []) == Delivery([], [], false)
  {
    if f([]) != 0 {
      assert [] + a == a;
      assert f([] + a) == f([]);
    }
  }

  /* A stream in chunks */

  // What a connection has done so far: messages handed over, bytes kept, broken or not.
  datatype Session = Session(delivered: seq<Bytes>, live: Bytes, failed: bool)

  const FRESH: Session := Session([], [], false)

  function Feed(f: Bytes -> nat, t: Session, chunk: Bytes): Session {
    if t.failed then t
    else
      var d := Deliver(f, t.live + chunk);
      Session(t.delivered + d.messages, d.rest, d.failed)
  }

  function FeedAll(f: Bytes -> nat, chunks: seq<Bytes>): Session {
    if chunks == [] then FRESH
    else Feed(f, FeedAll(f, chunks[..|chunks| - 1]), chunks[|chunks| - 1])
  }

  // For a stable length function, feeding chunk by chunk is one pass over the whole stream;
  // only bytes that arrive after broken data stay outside the buffer.
  lemma {:induction false} FeedIsOnePass(f: Bytes -> nat, chunks: seq<Bytes>)
    requires PrefixStable(f) && chunks != []
    ensures var t, d := FeedAll(f, chunks), Deliver(f, Concat(chunks));
            && t.delivered == d.messages && t.failed == d.failed
            && (if t.failed then t.live <= d.rest else t.live == d.rest)
    decreases |chunks|
  {
    var front, last := chunks[..|chunks| - 1], chunks[|chunks| - 1];
    if front == [] {
      assert Concat(chunks) == [] + last == last;
    } else {
      FeedIsOnePass(f, front);
      DeliverMore(f, Concat(front), last);
    }
  }

  // How recv splits the stream makes no difference.
  lemma ChunksDoNotMatter(f: Bytes -> nat, a: seq<Bytes>, b: seq<Bytes>)
    requires PrefixStable(f) && a != [] && b != [] && Concat(a) == Concat(b)
    ensures FeedAll(f, a).delivered == FeedAll(f, b).delivered
    ensures FeedAll(f, a).failed == FeedAll(f, b).failed
    ensures !FeedAll(f, a).failed ==> FeedAll(f, a).live == FeedAll(f, b).live
  {
    FeedIsOnePass(f, a);
    FeedIsOnePass(f, b);
  }

  lemma Associate<T>(a: seq<T>, b: seq<T>, c: seq<T>)
    ensures (a + b) + c == a + (b + c)
  {
  }

  // Nothing was fed to a session that had already met broken data.
  predicate FedWhileGood(f: Bytes -> nat, chunks: seq<Bytes>) {
    chunks == [] || !FeedAll(f, chunks[..|chunks| - 1]).failed
  }

  // For any length function, stable or not, delivered and kept bytes are the received ones.
  lemma {:induction false} FeedConserves(f: Bytes -> nat, chunks: seq<Bytes>)
    requires FedWhileGood(f, chunks)
    ensures var t := FeedAll(f, chunks);
            && Concat(t.delivered) + t.live == Concat(chunks)
            && (!t.failed && chunks != [] ==> f(t.live) == 0 || |t.live| < f(t.live))
    decreases |chunks|
  {
    if chunks != [] {
      var front, last := chunks[..|chunks| - 1], chunks[|chunks| - 1];
      var t := FeedAll(f, front);
      StillGood(f, front);
      FeedConserves(f, front);
      var d := Deliver(f, t.live + last);
      DeliverConserves(f, t.live + last);
      ConcatAppend(t.delivered, d.messages);
      Associate(Concat(t.delivered), Concat(d.messages), d.rest);
      Associate(Concat(t.delivered), t.live, last);
    }
  }

  // A stream is broken exactly if the function calls the kept bytes broken, unless there are
  // none because the last message ended where the bytes did: then it was not asked again.
  lemma FeedVerdict(f: Bytes -> nat, chunks: seq<Bytes>)
    requires chunks != [] && FedWhileGood(f, chunks)
    ensures var t := FeedAll(f, chunks);
            && (t.failed ==> f(t.live) == 0xFFFF_FFFF)
            && (!t.failed && t.live != [] ==> f(t.live) != 0xFFFF_FFFF)
            && (chunks[|chunks| - 1] == [] ==> (t.failed <==> f(t.live) == 0xFFFF_FFFF))
  {
    var front, last := chunks[..|chunks| - 1], chunks[|chunks| - 1];
    var live := FeedAll(f, front).live;
    DeliverVerdict(f, live + last);
    StillGood(f, front);
    FeedConserves(f, front);
    if last == [] {
      assert live + last == live;
      assert Deliver(f, live).messages == [];
    }
  }

  lemma FeedOne(f: Bytes -> nat, chunks: seq<Bytes>, chunk: Bytes)
    requires !FeedAll(f, chunks).failed
    ensures FeedAll(f, chunks + [chunk]) == Feed(f, FeedAll(f, chunks), chunk)
    ensures FedWhileGood(f, chunks + [chunk])
  {
    assert (chunks + [chunk])[..|chunks|] == chunks;
  }

  lemma StillGood(f: Bytes -> nat, chunks: seq<Bytes>)
    requires !FeedAll(f, chunks).failed
    ensures FedWhileGood(f, chunks)
  {
  }

  lemma FeedLast(f: Bytes -> nat, chunks: seq<Bytes>, last: Bytes)
    ensures FeedAll(f, chunks + [last]) == Feed(f, FeedAll(f, chunks), last)
  {
    assert (chunks + [last])[..|chunks|] == chunks;
  }

  function Available(s: Bytes): nat {
    |s|
  }

  // Stability is needed: a function that takes whatever has arrived sees the chunks.
  lemma UnstableLengthSeesChunks()
    ensures !PrefixStable(Available)
    ensures FeedAll(Available, [[1, 2]]).delivered != FeedAll(Available, [[1], [2]]).delivered
  {
    assert Available([1] + [2]) != Available([1]);
    FeedLast(Available, [], [1, 2]);
    FeedLast(Available, [], [1]);
    FeedLast(Available, [[1]], [2]);
    assert [] + [[1, 2]] == [[1, 2]] && [] + [[1]] == [[1]] && [[1]] + [[2]] == [[1], [2]];
    var one := FeedAll(Available, [[1]]);
    assert |Feed(Available, FRESH, [1, 2]).delivered| == 1;
    assert one.live == [] && |one.delivered| == 1;
    assert |Feed(Available, one, [2]).delivered| == 2;
  }
}
