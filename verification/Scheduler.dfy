// task_scheduler_impl.cpp as a machine: posting and cancelling threads interleave with the
// phases of Run. A step is one section under the lock, one clock reading, or one of the two
// ends of a task function, which runs without the lock.
module Scheduler {
  import opened TaskMap

  datatype Phase =
    | Waiting                                               // between two Runs
    | Stamped(now: nat)                                     // clock read, batch not yet collected
    | Executing(batch: seq<nat>, next: nat, inside: bool)   // inside: task batch[next] is running
    | Rekeying(batch: seq<nat>, next: nat)

  // A post between its clock reading and its insertion.
  datatype Draft = Draft(clock: nat, task: Task)

  datatype Event = Event(id: nat, time: nat)

  datatype State = State(
    clock: nat,
    tasks: Tasks,
    nextId: nat,
    phase: Phase,
    drafts: map<int, Draft>,     // by posting thread
    history: seq<Event>,         // executions, oldest first
    issued: seq<Draft>,          // the post behind each id
    finished: set<nat>,          // ids that left the map after their last execution
    erased: set<nat>)            // ids that left the map because they were cancelled

  datatype Step =
    | Tick(d: nat)
    | ReadPostClock(thread: int, task: Task)
    | InsertPost(thread: int)
    | Cancel(id: nat)
    | StampRun
    | CollectBatch
    | BeginTask
    | EndTask
    | StartRekey
    | Rekey
    | EndRun

  function Base(d: Draft): nat {
    d.clock + d.task.delayUs * MICRO
  }

  predicate Enabled(s: State, step: Step) {
    match step
    case Tick(_) => true
    case ReadPostClock(thread, _) => thread !in s.drafts
    case InsertPost(thread) => thread in s.drafts
    case Cancel(_) => true
    case StampRun => s.phase.Waiting?
    case CollectBatch => s.phase.Stamped?
    case BeginTask => s.phase.Executing? && s.phase.next < |s.phase.batch| && !s.phase.inside
    case EndTask => s.phase.Executing? && s.phase.inside
    case StartRekey => s.phase.Executing? && s.phase.next == |s.phase.batch| && !s.phase.inside
    case Rekey => s.phase.Rekeying? && s.phase.next < |s.phase.batch|
    case EndRun => s.phase.Rekeying? && s.phase.next == |s.phase.batch|
  }

  /* Invariant */

  // Batch entries Run still refers to.
  function Outstanding(phase: Phase): seq<nat> {
    match phase
    case Executing(batch, _, _) => batch
    case Rekeying(batch, next) => if next <= |batch| then batch[next..] else []
    case _ => []
  }

  ghost predicate PhaseOk(phase: Phase, keys: set<nat>, clock: nat) {
    match phase
    case Waiting => true
    case Stamped(now) => now <= clock
    case Executing(batch, next, inside) =>
      && next <= |batch| && (inside ==> next < |batch|)
      && Ascending(batch)
      && AllDue(batch, keys, clock)
    case Rekeying(batch, next) =>
      && next <= |batch| && Ascending(batch)
      && AllDue(batch[next..], keys, clock)
  }

  ghost predicate AllDue(batch: seq<nat>, keys: set<nat>, clock: nat) {
    forall i :: 0 <= i < |batch| ==> batch[i] in keys && batch[i] <= clock
  }

  // The task at key k has been started in this Run and not been put back yet.
  predicate Started(phase: Phase, k: nat) {
    match phase
    case Executing(batch, next, inside) =>
      next <= |batch| && (k in batch[..next] || (inside && next < |batch| && k == batch[next]))
    case Rekeying(batch, next) => next <= |batch| && k in batch[next..]
    case _ => false
  }

  // The task at key k has been started but its execution is not yet counted.
  predicate Inside(phase: Phase, k: nat) {
    phase.Executing? && phase.inside && phase.next < |phase.batch| && k == phase.batch[phase.next]
  }

  function Executions(history: seq<Event>, id: nat): nat {
    if history == [] then 0
    else Executions(history[..|history| - 1], id) + if history[|history| - 1].id == id then 1 else 0
  }

  function MaxRuns(task: Task): nat {
    if task.execTimes == 0 then 1 else task.execTimes
  }

  ghost predicate IdsUnique(tasks: Tasks) {
    forall j, k :: j in tasks && k in tasks && tasks[j].id == tasks[k].id ==> j == k
  }

  ghost predicate Pending(tasks: Tasks, id: nat) {
    exists k :: k in tasks && tasks[k].id == id
  }

  // Every issued id is pending, finished or erased, and only one of the three.
  ghost predicate Conserved(tasks: Tasks, nextId: nat, finished: set<nat>, erased: set<nat>) {
    && IdsUnique(tasks)
    && (forall id: nat :: Pending(tasks, id) || id in finished || id in erased <==> id < nextId)
    && (forall id :: id in finished ==> !Pending(tasks, id) && id !in erased)
    && (forall id :: id in erased ==> !Pending(tasks, id))
  }

  // All executions of the task lie at least `interval` before `key`.
  ghost predicate RestedBy(history: seq<Event>, id: nat, interval: nat, key: nat) {
    forall i :: 0 <= i < |history| && history[i].id == id ==> history[i].time + interval <= key
  }

  function Interval(issued: seq<Draft>, id: nat): nat {
    if id < |issued| then issued[id].task.intervalUs * MICRO else 0
  }

  // What the map stores about a pending task agrees with its history.
  ghost predicate EntryOk(t: TaskEx, k: nat, phase: Phase, history: seq<Event>, issued: seq<Draft>) {
    && t.id < |issued| && t.task == issued[t.id].task
    && (t.running <==> k in Outstanding(phase))
    && t.count + (if Inside(phase, k) then 1 else 0) == Executions(history, t.id)
    && (t.task.kind.RunFixedCount? ==> Executions(history, t.id) <= MaxRuns(t.task))
    && if Started(phase, k) then
         1 <= Executions(history, t.id)
       else
         && Base(issued[t.id]) <= k
         && RestedBy(history, t.id, Interval(issued, t.id), k)
         && (t.task.kind.RunFixedCount? ==> Executions(history, t.id) < MaxRuns(t.task))
  }

  ghost predicate EntriesOk(s: State) {
    forall k :: k in s.tasks ==> EntryOk(s.tasks[k], k, s.phase, s.history, s.issued)
  }

  // No execution before the posted delay, and any two of one task an interval apart.
  ghost predicate OnTime(history: seq<Event>, issued: seq<Draft>, clock: nat) {
    && (forall i :: 0 <= i < |history| ==>
          && history[i].time <= clock
          && history[i].id < |issued|
          && Base(issued[history[i].id]) <= history[i].time)
    && (forall i, j :: 0 <= i < j < |history| && history[i].id == history[j].id ==>
          history[i].time + Interval(issued, history[i].id) <= history[j].time)
  }

  // Tasks that left the map: a finished one ran as often as it was asked to.
  ghost predicate LeftOk(history: seq<Event>, issued: seq<Draft>, finished: set<nat>, erased: set<nat>) {
    && (forall id :: id in finished ==>
          && id < |issued| && issued[id].task.kind.RunFixedCount?
          && Executions(history, id) == MaxRuns(issued[id].task))
    && (forall id :: id in erased ==>
          && id < |issued|
          && (issued[id].task.kind.RunFixedCount? ==> Executions(history, id) <= MaxRuns(issued[id].task)))
  }

  ghost predicate DraftsOk(drafts: map<int, Draft>, clock: nat) {
    forall thread :: thread in drafts ==> drafts[thread].clock <= clock
  }

  ghost predicate Inv(s: State) {
    && PhaseOk(s.phase, s.tasks.Keys, s.clock)
    && s.nextId == |s.issued|
    && Conserved(s.tasks, s.nextId, s.finished, s.erased)
    && EntriesOk(s)
    && OnTime(s.history, s.issued, s.clock)
    && LeftOk(s.history, s.issued, s.finished, s.erased)
    && DraftsOk(s.drafts, s.clock)
  }

  ghost predicate Initial(s: State) {
    && s.tasks == map[] && s.nextId == 0 && s.phase == Waiting && s.drafts == map[]
    && s.history == [] && s.issued == [] && s.finished == {} && s.erased == {}
  }

  /* Steps */

  // PostTask under the lock: the first free key from clock + delay on.
  function DoInsert(s: State, thread: int): State
    requires thread in s.drafts
  {
    var d := s.drafts[thread];
    var k := Probe(s.tasks, Base(d));
    s.(tasks := s.tasks[k := TaskEx(d.task, d.task.cancelled, false, 0, s.nextId)],
       nextId := s.nextId + 1, issued := s.issued + [d], drafts := s.drafts - {thread})
  }

  // CancleTask: mark the first task with this id, if there is one.
  ghost function DoCancel(s: State, id: nat): State {
    var keys := set k | k in s.tasks.Keys && s.tasks[k].id == id;
    if keys != {} then
      var k := Least(keys);
      s.(tasks := s.tasks[k := s.tasks[k].(cancelled := true)])
    else s
  }

  ghost function IdsOf(m: Tasks): set<nat> {
    set k | k in m.Keys :: m[k].id
  }

  ghost function DoCollect(s: State): State
    requires s.phase.Stamped?
  {
    var (tasks', batch) := Collect(s.tasks, s.phase.now);
    s.(tasks := tasks', phase := Executing(batch, 0, false),
       erased := s.erased + (IdsOf(s.tasks) - IdsOf(tasks')))
  }

  function DoBegin(s: State): State
    requires Enabled(s, BeginTask) && s.phase.batch[s.phase.next] in s.tasks
  {
    var k := s.phase.batch[s.phase.next];
    s.(history := s.history + [Event(s.tasks[k].id, s.clock)], phase := s.phase.(inside := true))
  }

  function DoEnd(s: State): State
    requires Enabled(s, EndTask) && s.phase.next < |s.phase.batch|
    requires s.phase.batch[s.phase.next] in s.tasks
  {
    var k := s.phase.batch[s.phase.next];
    s.(tasks := s.tasks[k := s.tasks[k].(count := s.tasks[k].count + 1)],
       phase := Executing(s.phase.batch, s.phase.next + 1, false))
  }

  // One round of the last loop: a task with runs left is copied to a new key, counted from
  // the clock as it is now; the old entry is erased afterwards in any case.
  function DoRekey(s: State): State
    requires Enabled(s, Rekey) && s.phase.batch[s.phase.next] in s.tasks
  {
    var k := s.phase.batch[s.phase.next];
    var t := s.tasks[k].(running := false);
    var phase' := Rekeying(s.phase.batch, s.phase.next + 1);
    if t.task.kind.RunPeriodic? || t.count < t.task.execTimes then
      var k' := Probe(s.tasks, s.clock + t.task.intervalUs * MICRO);
      s.(tasks := s.tasks[k' := t] - {k}, phase := phase')
    else
      s.(tasks := s.tasks - {k}, phase := phase', finished := s.finished + {t.id})
  }

  ghost function Apply(s: State, step: Step): State
    requires Inv(s) && Enabled(s, step)
  {
    match step
    case Tick(d) => s.(clock := s.clock + d)
    case ReadPostClock(thread, task) => s.(drafts := s.drafts[thread := Draft(s.clock, task)])
    case InsertPost(thread) => DoInsert(s, thread)
    case Cancel(id) => DoCancel(s, id)
    case StampRun => s.(phase := Stamped(s.clock))
    case CollectBatch => DoCollect(s)
    case BeginTask => DoBegin(s)
    case EndTask => DoEnd(s)
    case StartRekey => s.(phase := Rekeying(s.phase.batch, 0))
    case Rekey => DoRekey(s)
    case EndRun => s.(phase := Waiting)
  }
}
