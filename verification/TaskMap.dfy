// The scheduler's time-keyed task map: key probing and the choice of a batch.
module TaskMap {

  datatype TaskType = RunFixedCount | RunPeriodic

  // What the caller posts; times are in microseconds.
  datatype Task = Task(kind: TaskType, execTimes: nat, delayUs: nat, intervalUs: nat, cancelled: bool)

  datatype TaskEx = TaskEx(task: Task, cancelled: bool, running: bool, count: nat, id: nat)

  type Tasks = map<nat, TaskEx>

  const MICRO: nat := 1000
  const BATCH: nat := 16

  function KeysFrom(m: Tasks, lo: nat): set<nat> {
    set k | k in m.Keys && lo <= k
  }

  lemma KeysFromStep(m: Tasks, lo: nat)
    requires lo in m
    ensures KeysFrom(m, lo) == {lo} + KeysFrom(m, lo + 1)
    ensures |KeysFrom(m, lo + 1)| == |KeysFrom(m, lo)| - 1
  {
    assert KeysFrom(m, lo) == {lo} + KeysFrom(m, lo + 1);
  }

  // Linear probing: the first free key from k on. At most one step for each entry of the
  // map, so the move is bounded by the number of entries.
  function Probe(m: Tasks, k: nat): (free: nat)
    ensures k <= free && free !in m
    ensures forall j :: k <= j < free ==> j in m
    ensures free - k <= |KeysFrom(m, k)| <= |m|
    decreases |KeysFrom(m, k)|
  {
    KeysFromBound(m, k);
    if k in m then
      KeysFromStep(m, k);
      Probe(m, k + 1)
    else k
  }

  lemma SubsetSize<T>(a: set<T>, b: set<T>)
    requires a <= b
    ensures |a| <= |b|
  {
    assert b == a + (b - a);
  }

  lemma KeysFromBound(m: Tasks, k: nat)
    ensures |KeysFrom(m, k)| <= |m|
  {
    SubsetSize(KeysFrom(m, k), m.Keys);
  }

  ghost predicate IsLeast(k: nat, s: set<nat>) {
    k in s && forall j :: j in s ==> k <= j
  }

  lemma {:induction false} FindLeast(s: set<nat>) returns (k: nat)
    requires s != {}
    ensures IsLeast(k, s)
    decreases s
  {
    k :| k in s;
    var rest := s - {k};
    if rest != {} {
      var y := FindLeast(rest);
      forall j | j in s ensures (if k <= y then k else y) <= j {
        assert j == k || j in rest;
      }
      k := if k <= y then k else y;
    } else {
      forall j | j in s ensures k <= j {
        assert j == k || j in rest;
      }
    }
  }

  lemma LeastExists(s: set<nat>)
    requires s != {}
    ensures exists k :: IsLeast(k, s)
  {
    var k := FindLeast(s);
  }

  ghost function Least(s: set<nat>): (k: nat)
    requires s != {}
    ensures k in s && forall j :: j in s ==> k <= j
  {
    LeastExists(s);
    var k :| IsLeast(k, s);
    k
  }

  // Run's collect loop from the iterator position lo on: drop cancelled tasks, stop at the
  // first task that is not due or when the batch is full, mark the others as running.
  ghost function CollectFrom(m: Tasks, lo: nat, now: nat, batch: seq<nat>): (r: (Tasks, seq<nat>))
    decreases |KeysFrom(m, lo)|
  {
    if KeysFrom(m, lo) == {} then (m, batch)
    else
      var k := Least(KeysFrom(m, lo));
      if m[k].cancelled then
        SmallerAfterErase(m, lo, k);
        CollectFrom(m - {k}, k, now, batch)
      else if k > now then (m, batch)
      else
        var m', batch' := m[k := m[k].(running := true)], batch + [k];
        SmallerAfterStep(m, m', lo, k);
        if |batch'| >= BATCH then (m', batch') else CollectFrom(m', k + 1, now, batch')
  }

  lemma SmallerAfterErase(m: Tasks, lo: nat, k: nat)
    requires k in KeysFrom(m, lo) && forall j :: j in KeysFrom(m, lo) ==> k <= j
    ensures KeysFrom(m - {k}, k) == KeysFrom(m, lo) - {k}
    ensures |KeysFrom(m - {k}, k)| < |KeysFrom(m, lo)|
  {
    assert KeysFrom(m - {k}, k) == KeysFrom(m, lo) - {k};
  }

  lemma SmallerAfterStep(m: Tasks, m': Tasks, lo: nat, k: nat)
    requires k in KeysFrom(m, lo) && forall j :: j in KeysFrom(m, lo) ==> k <= j
    requires m'.Keys == m.Keys
    ensures KeysFrom(m', k + 1) == KeysFrom(m, lo) - {k}
    ensures |KeysFrom(m', k + 1)| < |KeysFrom(m, lo)|
  {
    assert KeysFrom(m', k + 1) == KeysFrom(m, lo) - {k};
  }

  ghost function Collect(m: Tasks, now: nat): (r: (Tasks, seq<nat>)) {
    CollectFrom(m, 0, now, [])
  }

  /* What the batch is */

  ghost function DueFrom(m: Tasks, lo: nat, now: nat): set<nat> {
    set k | k in m.Keys && lo <= k <= now && !m[k].cancelled
  }

  predicate Ascending(keys: seq<nat>) {
    forall i, j :: 0 <= i < j < |keys| ==> keys[i] < keys[j]
  }

  // b holds the n smallest members of s, or all of them if there are fewer, in order.
  ghost predicate Smallest(b: seq<nat>, s: set<nat>, n: nat) {
    && Ascending(b)
    && (forall k :: k in b ==> k in s)
    && |b| == (if |s| <= n then |s| else n)
    && (forall x, k :: x in b && k in s && k !in b ==> x < k)
  }

  // m' is m without some cancelled tasks and with the batch marked as running.
  ghost predicate OnlyCancelledErased(m: Tasks, m': Tasks, batch: seq<nat>) {
    && (forall k :: k in m' ==> k in m)
    && (forall k :: k in m && k !in m' ==> m[k].cancelled)
    && (forall k :: k in m' ==> m'[k] == if k in batch then m[k].(running := true) else m[k])
    && (forall k :: k in batch ==> k in m')
  }

  lemma SmallestCons(k: nat, c: seq<nat>, s: set<nat>, n: nat)
    requires k !in s && (forall j :: j in s ==> k < j) && Smallest(c, s, n)
    ensures Smallest([k] + c, {k} + s, n + 1)
  {
    assert |{k} + s| == 1 + |s|;
    var b := [k] + c;
    assert forall x :: x in b <==> x == k || x in c;
    forall i, j | 0 <= i < j < |b| ensures b[i] < b[j] {
      assert b[j] == c[j - 1] && c[j - 1] in s;
    }
  }

  lemma SmallestNone(k: nat, s: set<nat>)
    requires k !in s && (forall j :: j in s ==> k < j)
    ensures Smallest([k], {k} + s, 1)
  {
    assert |{k} + s| == 1 + |s|;
  }

  lemma DueNone(m: Tasks, lo: nat, now: nat)
    requires forall k :: k in KeysFrom(m, lo) ==> now < k
    ensures DueFrom(m, lo, now) == {}
  {
    assert forall k :: k in DueFrom(m, lo, now) ==> k in KeysFrom(m, lo);
  }

  lemma DueAfterErase(m: Tasks, lo: nat, now: nat, k: nat)
    requires k in KeysFrom(m, lo) && forall j :: j in KeysFrom(m, lo) ==> k <= j
    requires m[k].cancelled
    ensures DueFrom(m - {k}, k, now) == DueFrom(m, lo, now)
  {
    assert forall j :: j in DueFrom(m, lo, now) ==> j in KeysFrom(m, lo);
  }

  lemma DueAfterStep(m: Tasks, lo: nat, now: nat, k: nat)
    requires k in KeysFrom(m, lo) && forall j :: j in KeysFrom(m, lo) ==> k <= j
    requires !m[k].cancelled && k <= now
    ensures var rest := DueFrom(m[k := m[k].(running := true)], k + 1, now);
            && DueFrom(m, lo, now) == {k} + rest
            && k !in rest && forall j :: j in rest ==> k < j
  {
    assert forall j :: j in DueFrom(m, lo, now) ==> j in KeysFrom(m, lo);
  }

  lemma {:induction false} CollectFromExact(m: Tasks, lo: nat, now: nat, batch: seq<nat>)
    requires |batch| < BATCH
    ensures var (m', b) := CollectFrom(m, lo, now, batch);
            && batch <= b
            && Smallest(b[|batch|..], DueFrom(m, lo, now), BATCH - |batch|)
            && OnlyCancelledErased(m, m', b[|batch|..])
    decreases |KeysFrom(m, lo)|
  {
    var (m', b) := CollectFrom(m, lo, now, batch);
    if KeysFrom(m, lo) == {} {
      DueNone(m, lo, now);
    } else {
      var k := Least(KeysFrom(m, lo));
      if m[k].cancelled {
        SmallerAfterErase(m, lo, k);
        DueAfterErase(m, lo, now, k);
        CollectFromExact(m - {k}, k, now, batch);
      } else if k > now {
        DueNone(m, lo, now);
      } else {
        DueAfterStep(m, lo, now, k);
        CollectOne(m, lo, now, batch, k);
      }
    }
  }

  lemma CollectOne(m: Tasks, lo: nat, now: nat, batch: seq<nat>, k: nat)
    requires |batch| < BATCH
    requires k in KeysFrom(m, lo) && forall j :: j in KeysFrom(m, lo) ==> k <= j
    requires k == Least(KeysFrom(m, lo)) && !m[k].cancelled && k <= now
    requires DueFrom(m, lo, now) == {k} + DueFrom(m[k := m[k].(running := true)], k + 1, now)
    ensures var (m', b) := CollectFrom(m, lo, now, batch);
            && batch <= b
            && Smallest(b[|batch|..], DueFrom(m, lo, now), BATCH - |batch|)
            && OnlyCancelledErased(m, m', b[|batch|..])
    decreases |KeysFrom(m, lo)|, 0
  {
    var (m', b) := CollectFrom(m, lo, now, batch);
    var m1, batch1 := m[k := m[k].(running := true)], batch + [k];
    SmallerAfterStep(m, m1, lo, k);
    var rest := DueFrom(m1, k + 1, now);
    if |batch1| >= BATCH {
      assert b == batch1 && b[|batch|..] == [k];
      SmallestNone(k, rest);
    } else {
      CollectFromExact(m1, k + 1, now, batch1);
      var c := b[|batch1|..];
      assert b[|batch|..] == [k] + c;
      SmallestCons(k, c, rest, BATCH - |batch1|);
      BatchMarks(m, m', k, c);
    }
  }

  lemma BatchMarks(m: Tasks, m': Tasks, k: nat, c: seq<nat>)
    requires k in m && OnlyCancelledErased(m[k := m[k].(running := true)], m', c)
    requires !m[k].cancelled
    ensures OnlyCancelledErased(m, m', [k] + c)
  {
    var m1 := m[k := m[k].(running := true)];
    assert forall x :: x in [k] + c <==> x == k || x in c;
    assert k in m1 && !m1[k].cancelled;
  }

  // The loop comes past key k: it ends neither with a full batch at or before k nor at a
  // task before k that is not due.
  ghost predicate Passed(m: Tasks, lo: nat, now: nat, batch: seq<nat>, k: nat) {
    && lo <= k
    && (|batch| < BATCH || k < batch[|batch| - 1])
    && (forall j :: j in m && lo <= j < k && now < j ==> m[j].cancelled)
  }

  // The erased entries are exactly the cancelled ones the loop comes past.
  ghost predicate ErasedWherePassed(m: Tasks, m': Tasks, lo: nat, now: nat, batch: seq<nat>) {
    forall k :: k in m ==> (k !in m' <==> m[k].cancelled && Passed(m, lo, now, batch, k))
  }

  lemma {:induction false} ErasedExact(m: Tasks, lo: nat, now: nat, batch: seq<nat>)
    requires |batch| < BATCH
    ensures var (m', b) := CollectFrom(m, lo, now, batch);
            ErasedWherePassed(m, m', lo, now, b)
    decreases |KeysFrom(m, lo)|
  {
    var (m', b) := CollectFrom(m, lo, now, batch);
    assert forall k :: k in KeysFrom(m, lo) <==> k in m && lo <= k;
    if KeysFrom(m, lo) != {} {
      var k := Least(KeysFrom(m, lo));
      if m[k].cancelled {
        SmallerAfterErase(m, lo, k);
        ErasedExact(m - {k}, k, now, batch);
        ErasedFirst(m, lo, now, batch, k);
      } else if k <= now && |batch| + 1 < BATCH {
        var m1 := m[k := m[k].(running := true)];
        SmallerAfterStep(m, m1, lo, k);
        ErasedExact(m1, k + 1, now, batch + [k]);
        ErasedLater(m, m', lo, now, b, k);
      }
    }
  }

  // Going past key k changes nothing for the keys behind it.
  lemma PassedBehind(m: Tasks, m1: Tasks, lo: nat, lo1: nat, now: nat, b: seq<nat>, k: nat, x: nat)
    requires x in m && x != k && k in m && lo <= k
    requires m[k].cancelled || k <= now
    requires forall j :: j in m && lo <= j && j != k ==> lo1 <= j && j in m1 && m1[j].cancelled == m[j].cancelled
    requires lo <= lo1 && forall j :: j in m1 && lo1 <= j ==> j in m && m1[j].cancelled == m[j].cancelled
    ensures Passed(m, lo, now, b, x) <==> Passed(m1, lo1, now, b, x)
  {
    if Passed(m1, lo1, now, b, x) {
      forall j | j in m && lo <= j < x && now < j ensures m[j].cancelled {
        assert j == k || j in m1;
      }
    }
    if Passed(m, lo, now, b, x) {
      forall j | j in m1 && lo1 <= j < x && now < j ensures m1[j].cancelled {
        assert j in m;
      }
    }
  }

  // An erased entry lies before everything that is then taken into the batch.
  lemma ErasedFirst(m: Tasks, lo: nat, now: nat, batch: seq<nat>, k: nat)
    requires |batch| < BATCH
    requires k in KeysFrom(m, lo) && forall j :: j in KeysFrom(m, lo) ==> k <= j
    requires m[k].cancelled
    requires var (m', b) := CollectFrom(m - {k}, k, now, batch);
             ErasedWherePassed(m - {k}, m', k, now, b)
    ensures var (m', b) := CollectFrom(m - {k}, k, now, batch);
            ErasedWherePassed(m, m', lo, now, b)
  {
    var (m', b) := CollectFrom(m - {k}, k, now, batch);
    CollectFromExact(m - {k}, k, now, batch);
    if |b| >= BATCH {
      var c := b[|batch|..];
      assert c[|c| - 1] == b[|b| - 1] && c[|c| - 1] in c;
    }
    assert Passed(m, lo, now, b, k) by {
      assert forall j :: j in m && lo <= j ==> j in KeysFrom(m, lo);
    }
    forall x | x in m && x != k ensures x !in m' <==> m[x].cancelled && Passed(m, lo, now, b, x) {
      assert forall j :: j in m && lo <= j ==> j in KeysFrom(m, lo);
      assert x in m - {k};
      PassedBehind(m, m - {k}, lo, k, now, b, k, x);
    }
  }

  lemma ErasedLater(m: Tasks, m': Tasks, lo: nat, now: nat, b: seq<nat>, k: nat)
    requires k in KeysFrom(m, lo) && forall j :: j in KeysFrom(m, lo) ==> k <= j
    requires !m[k].cancelled && k <= now
    requires ErasedWherePassed(m[k := m[k].(running := true)], m', k + 1, now, b)
    ensures ErasedWherePassed(m, m', lo, now, b)
  {
    var m1 := m[k := m[k].(running := true)];
    forall x | x in m ensures x !in m' <==> m[x].cancelled && Passed(m, lo, now, b, x) {
      assert x in m1 && m1[x].cancelled == m[x].cancelled;
      assert forall j :: j in m && lo <= j ==> j in KeysFrom(m, lo);
      if x != k {
        PassedBehind(m, m1, lo, k + 1, now, b, k, x);
      }
    }
  }

  // The batch is exactly the min(16, n) smallest of the n due and uncancelled keys, in key
  // order; what is erased is exactly the cancelled tasks before the point where the loop ends.
  lemma CollectExact(m: Tasks, now: nat)
    ensures var (m', b) := Collect(m, now);
            && Smallest(b, DueFrom(m, 0, now), BATCH)
            && OnlyCancelledErased(m, m', b)
            && ErasedWherePassed(m, m', 0, now, b)
  {
    CollectFromExact(m, 0, now, []);
    ErasedExact(m, 0, now, []);
    var (m', b) := Collect(m, now);
    assert b[0..] == b;
  }
}
