// Every step of the scheduler keeps the invariant: conservation of ids, counts that agree
// with the history, and timing.
module SchedulerSafety {
  import opened TaskMap
  import opened Scheduler

  lemma InitialInv(s: State)
    requires Initial(s)
    ensures Inv(s)
  {
  }

  /* Counting executions */

  lemma ExecutionsAppend(h: seq<Event>, e: Event, id: nat)
    ensures Executions(h + [e], id) == Executions(h, id) + if e.id == id then 1 else 0
  {
    assert (h + [e])[..|h|] == h;
  }

  lemma {:induction false} NoExecutions(h: seq<Event>, id: nat)
    requires forall i :: 0 <= i < |h| ==> h[i].id != id
    ensures Executions(h, id) == 0
  {
    if h != [] {
      NoExecutions(h[..|h| - 1], id);
    }
  }

  lemma {:induction false} SomeExecution(h: seq<Event>, id: nat) returns (i: nat)
    requires 1 <= Executions(h, id)
    ensures i < |h| && h[i].id == id
  {
    if h[|h| - 1].id == id {
      i := |h| - 1;
    } else {
      i := SomeExecution(h[..|h| - 1], id);
    }
  }

  /* Time */

  lemma TickGood(s: State, d: nat)
    requires Inv(s)
    ensures Inv(s.(clock := s.clock + d))
  {
    hide Conserved, EntryOk, LeftOk;
  }

  lemma DraftGood(s: State, thread: int, d: Draft)
    requires Inv(s) && d.clock <= s.clock
    ensures Inv(s.(drafts := s.drafts[thread := d]))
  {
    hide Conserved, EntryOk, LeftOk, OnTime, PhaseOk;
  }

  /* Posting and cancelling */

  lemma InsertConserves(tasks: Tasks, nextId: nat, finished: set<nat>, erased: set<nat>, k: nat, t: TaskEx)
    requires Conserved(tasks, nextId, finished, erased)
    requires k !in tasks && t.id == nextId
    ensures Conserved(tasks[k := t], nextId + 1, finished, erased)
  {
    var tasks' := tasks[k := t];
    forall id: nat ensures Pending(tasks', id) <==> Pending(tasks, id) || id == nextId {
      if Pending(tasks, id) {
        var j :| j in tasks && tasks[j].id == id;
        assert j in tasks' && tasks'[j].id == id;
      }
      assert k in tasks' && tasks'[k].id == nextId;
    }
    forall j | j in tasks ensures tasks[j].id < nextId {
      assert Pending(tasks, tasks[j].id);
    }
  }

  // A further post changes nothing that is said about the earlier ones.
  lemma IssueMore(t: TaskEx, k: nat, phase: Phase, history: seq<Event>, issued: seq<Draft>, d: Draft)
    requires EntryOk(t, k, phase, history, issued)
    ensures EntryOk(t, k, phase, history, issued + [d])
  {
    hide Executions, Started, Inside, Outstanding, RestedBy;
  }

  lemma NewEntryOk(t: TaskEx, k: nat, phase: Phase, history: seq<Event>, issued: seq<Draft>, d: Draft)
    requires t == TaskEx(d.task, d.task.cancelled, false, 0, |issued|) && Base(d) <= k
    requires !Started(phase, k) && !Inside(phase, k) && k !in Outstanding(phase)
    requires forall i :: 0 <= i < |history| ==> history[i].id < |issued|
    ensures EntryOk(t, k, phase, history, issued + [d])
  {
    NoExecutions(history, |issued|);
  }

  lemma FreshKey(phase: Phase, keys: set<nat>, clock: nat, k: nat)
    requires PhaseOk(phase, keys, clock) && k !in keys
    ensures !Started(phase, k) && !Inside(phase, k) && k !in Outstanding(phase)
  {
  }

  lemma InsertHistory(history: seq<Event>, issued: seq<Draft>, clock: nat, finished: set<nat>, erased: set<nat>, d: Draft)
    requires OnTime(history, issued, clock) && LeftOk(history, issued, finished, erased)
    ensures OnTime(history, issued + [d], clock) && LeftOk(history, issued + [d], finished, erased)
  {
    hide Executions;
  }

  lemma InsertGood(s: State, thread: int)
    requires Inv(s) && Enabled(s, InsertPost(thread))
    ensures Inv(DoInsert(s, thread))
  {
    hide Conserved, EntryOk, Executions, Probe, Started, Inside, Outstanding, LeftOk;
    var d := s.drafts[thread];
    var k := Probe(s.tasks, Base(d));
    var t := TaskEx(d.task, d.task.cancelled, false, 0, s.nextId);
    FreshKey(s.phase, s.tasks.Keys, s.clock, k);
    NewEntryOk(t, k, s.phase, s.history, s.issued, d);
    forall j | j in s.tasks ensures EntryOk(s.tasks[j], j, s.phase, s.history, s.issued + [d]) {
      IssueMore(s.tasks[j], j, s.phase, s.history, s.issued, d);
    }
    InsertConserves(s.tasks, s.nextId, s.finished, s.erased, k, t);
    InsertHistory(s.history, s.issued, s.clock, s.finished, s.erased, d);
  }

  // Two maps with the same keys and ids hold the same pending ids.
  lemma SameIds(m: Tasks, m': Tasks, nextId: nat, finished: set<nat>, erased: set<nat>)
    requires Conserved(m, nextId, finished, erased)
    requires m.Keys == m'.Keys && forall k :: k in m ==> m'[k].id == m[k].id
    ensures Conserved(m', nextId, finished, erased)
  {
    forall id: nat ensures Pending(m', id) <==> Pending(m, id) {
      if Pending(m, id) {
        var k :| k in m && m[k].id == id;
        assert k in m' && m'[k].id == id;
      }
      if Pending(m', id) {
        var k :| k in m' && m'[k].id == id;
        assert k in m && m[k].id == id;
      }
    }
    forall j, k | j in m' && k in m' && m'[j].id == m'[k].id ensures j == k {
      assert m[j].id == m[k].id;
    }
  }

  lemma CancelGood(s: State, id: nat)
    requires Inv(s)
    ensures Inv(DoCancel(s, id))
  {
    hide Conserved, Executions, OnTime, LeftOk, PhaseOk, Started, Inside, Outstanding, RestedBy;
    var s' := DoCancel(s, id);
    assert s'.tasks.Keys == s.tasks.Keys;
    SameIds(s.tasks, s'.tasks, s.nextId, s.finished, s.erased);
  }

  /* Run */

  lemma CollectConserves(tasks: Tasks, tasks': Tasks, nextId: nat, finished: set<nat>, erased: set<nat>, batch: seq<nat>)
    requires Conserved(tasks, nextId, finished, erased) && OnlyCancelledErased(tasks, tasks', batch)
    ensures Conserved(tasks', nextId, finished, erased + (IdsOf(tasks) - IdsOf(tasks')))
  {
    forall k | k in tasks' ensures k in tasks && tasks'[k].id == tasks[k].id {
    }
    forall id: nat
      ensures Pending(tasks', id) ==> Pending(tasks, id)
      ensures Pending(tasks, id) <==> id in IdsOf(tasks)
      ensures Pending(tasks', id) <==> id in IdsOf(tasks')
    {
      if Pending(tasks', id) {
        var k :| k in tasks' && tasks'[k].id == id;
        assert k in tasks && tasks[k].id == id;
      }
    }
  }

  lemma CollectEntry(t: TaskEx, k: nat, now: nat, history: seq<Event>, issued: seq<Draft>, batch: seq<nat>)
    requires EntryOk(t, k, Stamped(now), history, issued)
    ensures EntryOk(if k in batch then t.(running := true) else t, k, Executing(batch, 0, false), history, issued)
  {
  }

  lemma CollectLeft(s: State, tasks': Tasks)
    requires Inv(s)
    ensures LeftOk(s.history, s.issued, s.finished, s.erased + (IdsOf(s.tasks) - IdsOf(tasks')))
  {
    hide Conserved, OnTime, PhaseOk, Executions, Started, Inside, Outstanding, RestedBy;
    forall id | id in IdsOf(s.tasks)
      ensures id < |s.issued|
      ensures s.issued[id].task.kind.RunFixedCount? ==> Executions(s.history, id) <= MaxRuns(s.issued[id].task)
    {
      var k :| k in s.tasks.Keys && s.tasks[k].id == id;
      assert EntryOk(s.tasks[k], k, s.phase, s.history, s.issued);
    }
  }

  lemma CollectGood(s: State)
    requires Inv(s) && s.phase.Stamped?
    ensures Inv(DoCollect(s))
  {
    hide Conserved, EntryOk, OnTime, LeftOk, CollectFrom;
    var (tasks', batch) := Collect(s.tasks, s.phase.now);
    CollectExact(s.tasks, s.phase.now);
    CollectConserves(s.tasks, tasks', s.nextId, s.finished, s.erased, batch);
    CollectLeft(s, tasks');
    forall i | 0 <= i < |batch| ensures batch[i] in tasks'.Keys && batch[i] <= s.clock {
      assert batch[i] in batch;
    }
    forall k | k in tasks' ensures EntryOk(tasks'[k], k, Executing(batch, 0, false), s.history, s.issued) {
      CollectEntry(s.tasks[k], k, s.phase.now, s.history, s.issued, batch);
    }
  }

  // Starting the task at key k adds one execution to its history and to no other's.
  lemma BeginEntry(t: TaskEx, j: nat, k: nat, id: nat, phase: Phase, history: seq<Event>, issued: seq<Draft>, time: nat)
    requires phase.Executing? && !phase.inside && phase.next < |phase.batch| && k == phase.batch[phase.next]
    requires Ascending(phase.batch)
    requires EntryOk(t, j, phase, history, issued) && (j == k <==> t.id == id)
    ensures EntryOk(t, j, phase.(inside := true), history + [Event(id, time)], issued)
  {
    hide Executions;
    ExecutionsAppend(history, Event(id, time), t.id);
  }

  lemma BeginLeft(history: seq<Event>, issued: seq<Draft>, finished: set<nat>, erased: set<nat>, e: Event)
    requires LeftOk(history, issued, finished, erased) && e.id !in finished && e.id !in erased
    ensures LeftOk(history + [e], issued, finished, erased)
  {
    hide Executions;
    forall id: nat | id != e.id ensures Executions(history + [e], id) == Executions(history, id) {
      ExecutionsAppend(history, e, id);
    }
  }

  lemma BeginOnTime(history: seq<Event>, issued: seq<Draft>, clock: nat, e: Event)
    requires OnTime(history, issued, clock) && e.time == clock && e.id < |issued|
    requires Base(issued[e.id]) <= clock && RestedBy(history, e.id, Interval(issued, e.id), clock)
    ensures OnTime(history + [e], issued, clock)
  {
  }

  // The next task of the batch is due and rested.
  lemma NextIsReady(s: State)
    requires Inv(s) && Enabled(s, BeginTask)
    ensures var k := s.phase.batch[s.phase.next];
            && k in s.tasks
            && var id := s.tasks[k].id;
               && id < |s.issued| && id !in s.finished && id !in s.erased
               && Base(s.issued[id]) <= s.clock
               && RestedBy(s.history, id, Interval(s.issued, id), s.clock)
  {
    hide Executions, OnTime, LeftOk;
    var k := s.phase.batch[s.phase.next];
    assert EntryOk(s.tasks[k], k, s.phase, s.history, s.issued);
    assert Pending(s.tasks, s.tasks[k].id);
  }

  lemma BeginGood(s: State)
    requires Inv(s) && Enabled(s, BeginTask)
    ensures Inv(DoBegin(s))
  {
    hide EntryOk, OnTime, LeftOk, Executions;
    NextIsReady(s);
    var k := s.phase.batch[s.phase.next];
    var e := Event(s.tasks[k].id, s.clock);
    BeginOnTime(s.history, s.issued, s.clock, e);
    BeginLeft(s.history, s.issued, s.finished, s.erased, e);
    forall j | j in s.tasks
      ensures EntryOk(s.tasks[j], j, s.phase.(inside := true), s.history + [e], s.issued)
    {
      BeginEntry(s.tasks[j], j, k, e.id, s.phase, s.history, s.issued, s.clock);
    }
  }

  lemma EndEntry(t: TaskEx, j: nat, phase: Phase, history: seq<Event>, issued: seq<Draft>)
    requires phase.Executing? && phase.inside && phase.next < |phase.batch| && Ascending(phase.batch)
    requires EntryOk(t, j, phase, history, issued)
    ensures var t' := if j == phase.batch[phase.next] then t.(count := t.count + 1) else t;
            EntryOk(t', j, Executing(phase.batch, phase.next + 1, false), history, issued)
  {
    hide Executions, RestedBy;
    var batch, n := phase.batch, phase.next;
    assert batch[..n + 1] == batch[..n] + [batch[n]];
  }

  lemma EndGood(s: State)
    requires Inv(s) && Enabled(s, EndTask)
    ensures Inv(DoEnd(s))
  {
    hide Conserved, EntryOk, OnTime, LeftOk;
    var k := s.phase.batch[s.phase.next];
    var tasks' := s.tasks[k := s.tasks[k].(count := s.tasks[k].count + 1)];
    assert tasks'.Keys == s.tasks.Keys;
    SameIds(s.tasks, tasks', s.nextId, s.finished, s.erased);
    forall j | j in s.tasks
      ensures EntryOk(tasks'[j], j, Executing(s.phase.batch, s.phase.next + 1, false), s.history, s.issued)
    {
      EndEntry(s.tasks[j], j, s.phase, s.history, s.issued);
    }
  }

  // Two phases that agree on a key say the same about its entry.
  lemma SamePhase(t: TaskEx, j: nat, phase: Phase, phase': Phase, history: seq<Event>, issued: seq<Draft>)
    requires EntryOk(t, j, phase, history, issued)
    requires Started(phase', j) == Started(phase, j) && Inside(phase', j) == Inside(phase, j)
    requires j in Outstanding(phase') <==> j in Outstanding(phase)
    ensures EntryOk(t, j, phase', history, issued)
  {
  }

  lemma StartRekeyGood(s: State)
    requires Inv(s) && Enabled(s, StartRekey)
    ensures Inv(s.(phase := Rekeying(s.phase.batch, 0)))
  {
    hide Conserved, EntryOk, OnTime, LeftOk;
    var batch := s.phase.batch;
    assert batch[..|batch|] == batch[0..] == batch;
    forall j | j in s.tasks ensures EntryOk(s.tasks[j], j, Rekeying(batch, 0), s.history, s.issued) {
      SamePhase(s.tasks[j], j, s.phase, Rekeying(batch, 0), s.history, s.issued);
    }
  }

  lemma EndRunGood(s: State)
    requires Inv(s) && Enabled(s, EndRun)
    ensures Inv(s.(phase := Waiting))
  {
    hide Conserved, EntryOk, OnTime, LeftOk;
    forall j | j in s.tasks ensures EntryOk(s.tasks[j], j, Waiting, s.history, s.issued) {
      SamePhase(s.tasks[j], j, s.phase, Waiting, s.history, s.issued);
    }
  }

  // The other entries of the batch and the map are as they were.
  lemma RekeyOthers(batch: seq<nat>, n: nat, j: nat)
    requires n < |batch| && Ascending(batch) && j != batch[n]
    ensures j in batch[n + 1..] <==> j in batch[n..]
  {
    assert batch[n..] == [batch[n]] + batch[n + 1..];
  }

  lemma Moved(tasks: Tasks, nextId: nat, finished: set<nat>, erased: set<nat>, k: nat, k': nat, t: TaskEx)
    requires Conserved(tasks, nextId, finished, erased)
    requires k in tasks && k' !in tasks && t.id == tasks[k].id
    ensures Conserved(tasks[k' := t] - {k}, nextId, finished, erased)
  {
    var tasks' := tasks[k' := t] - {k};
    forall id: nat ensures Pending(tasks', id) <==> Pending(tasks, id) {
      if Pending(tasks, id) {
        var j :| j in tasks && tasks[j].id == id;
        var j' := if j == k then k' else j;
        assert j' in tasks' && tasks'[j'].id == id;
      }
      if Pending(tasks', id) {
        var j' :| j' in tasks' && tasks'[j'].id == id;
        var j := if j' == k' then k else j';
        assert j in tasks && tasks[j].id == id;
      }
    }
  }

  lemma Removed(tasks: Tasks, nextId: nat, finished: set<nat>, erased: set<nat>, k: nat)
    requires Conserved(tasks, nextId, finished, erased) && k in tasks
    ensures Conserved(tasks - {k}, nextId, finished + {tasks[k].id}, erased)
  {
    var tasks', gone := tasks - {k}, tasks[k].id;
    assert Pending(tasks, gone);
    forall id: nat ensures Pending(tasks', id) <==> Pending(tasks, id) && id != gone {
      if Pending(tasks, id) {
        var j :| j in tasks && tasks[j].id == id;
        if id != gone {
          assert j in tasks' && tasks'[j].id == id;
        }
      }
      if Pending(tasks', id) {
        var j :| j in tasks' && tasks'[j].id == id;
        assert j in tasks && tasks[j].id == id;
      }
    }
  }

  // A copied entry starts afresh: later than any execution so far by its interval.
  lemma CopyOk(t: TaskEx, k: nat, k': nat, phase: Phase, phase': Phase, history: seq<Event>, issued: seq<Draft>, clock: nat)
    requires EntryOk(t, k, phase, history, issued) && OnTime(history, issued, clock)
    requires Started(phase, k) && !Inside(phase, k)
    requires !Started(phase', k') && !Inside(phase', k') && k' !in Outstanding(phase')
    requires t.task.kind.RunPeriodic? || t.count < t.task.execTimes
    requires clock + t.task.intervalUs * MICRO <= k'
    ensures EntryOk(t.(running := false), k', phase', history, issued)
  {
    hide Executions, Started, Inside, Outstanding;
    var i := SomeExecution(history, t.id);
    assert Base(issued[t.id]) <= history[i].time;
  }

  ghost predicate EntriesOkBut(s: State, k: nat, phase: Phase) {
    forall j :: j in s.tasks && j != k ==> EntryOk(s.tasks[j], j, phase, s.history, s.issued)
  }

  lemma RekeyEntries(s: State, batch: seq<nat>, n: nat)
    requires Inv(s) && s.phase == Rekeying(batch, n) && n < |batch|
    ensures EntriesOkBut(s, batch[n], Rekeying(batch, n + 1))
  {
    hide Conserved, EntryOk, OnTime, LeftOk, AllDue;
    forall j | j in s.tasks && j != batch[n]
      ensures EntryOk(s.tasks[j], j, Rekeying(batch, n + 1), s.history, s.issued)
    {
      RekeyOthers(batch, n, j);
      SamePhase(s.tasks[j], j, s.phase, Rekeying(batch, n + 1), s.history, s.issued);
    }
  }

  lemma TailDue(batch: seq<nat>, n: nat, keys: set<nat>, keys': set<nat>, clock: nat)
    requires n < |batch| && Ascending(batch) && AllDue(batch[n..], keys, clock)
    requires forall k :: k in keys && k != batch[n] ==> k in keys'
    ensures AllDue(batch[n + 1..], keys', clock)
    ensures batch[n] in keys && batch[n] <= clock && batch[n] in batch[n..] && batch[n] !in batch[n + 1..]
  {
    var rest := batch[n..];
    assert rest[0] == batch[n];
    var more := batch[n + 1..];
    forall i | 0 <= i < |more| ensures more[i] in keys' && more[i] <= clock && more[i] != batch[n] {
      assert more[i] == batch[n + 1 + i] == rest[i + 1];
    }
  }

  lemma RekeyPhase(s: State)
    requires Inv(s) && Enabled(s, Rekey)
    ensures var batch, n := s.phase.batch, s.phase.next;
            && batch[n] in s.tasks && batch[n] <= s.clock && batch[n] !in batch[n + 1..]
            && Started(s.phase, batch[n]) && !Inside(s.phase, batch[n])
            && AllDue(batch[n + 1..], s.tasks.Keys, s.clock)
  {
    hide Conserved, EntriesOk, OnTime, LeftOk, AllDue;
    TailDue(s.phase.batch, s.phase.next, s.tasks.Keys, s.tasks.Keys, s.clock);
  }

  // The part of the batch behind the re-keyed entry is still in place.
  lemma RekeyPhaseOk(s: State, keys: set<nat>)
    requires Inv(s) && Enabled(s, Rekey)
    requires forall k :: k in s.tasks.Keys && k != s.phase.batch[s.phase.next] ==> k in keys
    ensures PhaseOk(Rekeying(s.phase.batch, s.phase.next + 1), keys, s.clock)
  {
    hide Conserved, EntriesOk, OnTime, LeftOk, AllDue;
    TailDue(s.phase.batch, s.phase.next, s.tasks.Keys, keys, s.clock);
  }

  lemma RekeyCopyGood(s: State)
    requires Inv(s) && Enabled(s, Rekey) && s.phase.batch[s.phase.next] in s.tasks
    requires var t := s.tasks[s.phase.batch[s.phase.next]];
             t.task.kind.RunPeriodic? || t.count < t.task.execTimes
    ensures Inv(DoRekey(s))
  {
    hide Conserved, EntryOk, OnTime, LeftOk, PhaseOk, Probe, Executions, Interval;
    RekeyPhase(s);
    RekeyEntries(s, s.phase.batch, s.phase.next);
    var batch, n := s.phase.batch, s.phase.next;
    var k, phase' := batch[n], Rekeying(batch, n + 1);
    var t := s.tasks[k];
    var k' := Probe(s.tasks, s.clock + t.task.intervalUs * MICRO);
    assert k' !in batch[n + 1..];
    CopyOk(t, k, k', s.phase, phase', s.history, s.issued, s.clock);
    Moved(s.tasks, s.nextId, s.finished, s.erased, k, k', t.(running := false));
    var s' := DoRekey(s);
    assert EntriesOk(s');
    RekeyPhaseOk(s, s'.tasks.Keys);
  }

  lemma FinishLeft(s: State, k: nat)
    requires Inv(s) && k in s.tasks && Started(s.phase, k) && !Inside(s.phase, k)
    requires s.tasks[k].task.kind.RunFixedCount? && s.tasks[k].count >= s.tasks[k].task.execTimes
    ensures LeftOk(s.history, s.issued, s.finished + {s.tasks[k].id}, s.erased)
  {
    hide Executions, Started, Inside, Outstanding, Conserved;
    assert EntryOk(s.tasks[k], k, s.phase, s.history, s.issued);
  }

  lemma RekeyDropGood(s: State)
    requires Inv(s) && Enabled(s, Rekey) && s.phase.batch[s.phase.next] in s.tasks
    requires var t := s.tasks[s.phase.batch[s.phase.next]];
             t.task.kind.RunFixedCount? && t.count >= t.task.execTimes
    ensures Inv(DoRekey(s))
  {
    hide Conserved, EntryOk, OnTime, LeftOk, PhaseOk, Executions, Interval;
    RekeyPhase(s);
    RekeyEntries(s, s.phase.batch, s.phase.next);
    var k := s.phase.batch[s.phase.next];
    FinishLeft(s, k);
    Removed(s.tasks, s.nextId, s.finished, s.erased, k);
    var s' := DoRekey(s);
    assert EntriesOk(s');
    RekeyPhaseOk(s, s'.tasks.Keys);
  }

  // Any step of any thread keeps the invariant.
  lemma StepKeepsInv(s: State, step: Step)
    requires Inv(s) && Enabled(s, step)
    ensures Inv(Apply(s, step))
  {
    hide Inv, DoInsert, DoCancel, DoCollect, DoBegin, DoEnd, DoRekey;
    match step
    case Tick(d) => TickGood(s, d);
    case ReadPostClock(thread, task) => DraftGood(s, thread, Draft(s.clock, task));
    case InsertPost(thread) => InsertGood(s, thread);
    case Cancel(id) => CancelGood(s, id);
    case StampRun => StampGood(s);
    case CollectBatch => CollectGood(s);
    case BeginTask => BeginGood(s);
    case EndTask => EndGood(s);
    case StartRekey => StartRekeyGood(s);
    case Rekey => RekeyGood(s);
    case EndRun => EndRunGood(s);
  }

  lemma StampGood(s: State)
    requires Inv(s) && s.phase.Waiting?
    ensures Inv(s.(phase := Stamped(s.clock)))
  {
    hide Conserved, EntryOk, OnTime, LeftOk;
    forall j | j in s.tasks ensures EntryOk(s.tasks[j], j, Stamped(s.clock), s.history, s.issued) {
      SamePhase(s.tasks[j], j, s.phase, Stamped(s.clock), s.history, s.issued);
    }
  }

  lemma RekeyGood(s: State)
    requires Inv(s) && Enabled(s, Rekey)
    ensures s.phase.batch[s.phase.next] in s.tasks && Inv(DoRekey(s))
  {
    hide Inv, DoRekey;
    RekeyPhase(s);
    var t := s.tasks[s.phase.batch[s.phase.next]];
    if t.task.kind.RunPeriodic? || t.count < t.task.execTimes {
      RekeyCopyGood(s);
    } else {
      RekeyDropGood(s);
    }
  }
}
