/**
  The same cache under concurrency: each call of pingap-cache/src/file.rs is a task that moves
  through the atomic actions of its body, and any task may move next. A file is opened in one action
  and read or written in as many as it takes. A caller can drop a call that waits for the file system:
  the deferred fetch_sub runs, a read under way has no effect any more, and a write or an unlink under
  way goes on to its end on its own. The memory tier can drop entries at any moment.
 */
module CacheTasks {
  import opened Wrappers
  import opened CacheCodec
  import opened CacheDisk
  import F = FileCache

  /** `awaited`: somebody still waits for the write. */
  datatype Task =
    | GetStart(key: string, namespace: string)                    // looks into the memory tier
    | GetMissed(key: string, namespace: string)                   // fetch_add
    | GetCounted(key: string, namespace: string, count: u32)      // compares with the limit
    | GetOpening(key: string, namespace: string)                  // opens the file
    | GetReading(key: string, namespace: string, handle: nat, got: Bytes)
    | GetFilling(key: string, namespace: string, answer: F.Answer)  // fills the memory tier
    | GetLeaving(key: string, namespace: string, answer: F.Answer)  // deferred fetch_sub
    | PutStart(call: PutCall)
    | PutRemembered(call: PutCall)
    | PutCounted(call: PutCall, count: u32)
    | PutOpening(call: PutCall, awaited: bool)
    | PutWriting(call: PutCall, awaited: bool, handle: nat, at: nat)
    | PutLeaving(call: PutCall)
    | RemoveStart(key: string, namespace: string)
    | RemoveUnlinking(key: string, namespace: string)
  {
    predicate IsPut() {
      PutStart? || PutRemembered? || PutCounted? || PutOpening? || PutWriting? || PutLeaving?
    }

    function Key(): string {
      if IsPut() then call.key else key
    }

    function Namespace(): string {
      if IsPut() then call.namespace else namespace
    }

    function Path(): string {
      F.FilePath(Key(), Namespace())
    }

    predicate Holds(inode: nat) {
      (GetReading? || PutWriting?) && handle == inode
    }
  }

  /** How an access to the file system goes: it fails, or moves on by some bytes where it moves bytes. */
  datatype Access = Fails | Goes(n: nat)

  datatype Event =
    | Spawn(id: nat, task: Task)
    | Move(id: nat, access: Access)
    | Drop(id: nat)                    // the caller stops waiting
    | Evict(key: string)
    | Clear(paths: set<string>)

  datatype Reply = Reply(key: string, answer: F.Answer)

  /** What the tasks share. */
  datatype Shared = Shared(memory: map<string, CacheObject>, disk: Disk, reading: u32, writing: u32)

  /** `puts`, `torn` and `replies` record the past: the calls of put, the keys of the reads that ended
      on a file that was not whole, and what the gets answered. */
  datatype State = State(shared: Shared, tasks: map<nat, Task>, puts: set<PutCall>, torn: set<string>,
                         replies: seq<Reply>)

  const INITIAL := State(Shared(map[], EMPTY_DISK, 0, 0), map[], {}, {}, [])

  function Increment(n: u32): u32 {
    (n + 1) % U32
  }

  function Decrement(n: u32): u32 {
    (n - 1) % U32
  }

  function BytesOf(d: Disk, handle: nat): Bytes {
    if handle < |d.inodes| then d.inodes[handle].bytes else []
  }

  /** Where an access that started at `at` stands after moving on. */
  function Onward(at: nat, access: Access, end: nat): nat {
    if access.Goes? then Min(at + Max(1, access.n), end) else at
  }

  predicate Whole(d: Disk, handle: nat) {
    handle < |d.inodes| && d.inodes[handle].bytes == Encode(d.inodes[handle].owner.value)
  }

  /** The read finds no further bytes. */
  predicate AtEnd(d: Disk, t: Task) {
    t.GetReading? && |t.got| >= |BytesOf(d, t.handle)|
  }

  function AfterWrite(call: PutCall, awaited: bool): Option<Task> {
    if awaited then Some(PutLeaving(call)) else None
  }

  /** Where a get stands after its next atomic action; `None` when it is over. */
  function NextOfGet(cfg: F.Config, sh: Shared, t: Task, access: Access): Option<Task>
    requires !t.IsPut()
  {
    match t
    case GetStart(key, namespace) =>
      if cfg.tiered && key in sh.memory then None else Some(GetMissed(key, namespace))
    case GetMissed(key, namespace) => Some(GetCounted(key, namespace, sh.reading))
    case GetCounted(key, namespace, count) =>
      Some(if F.WithinQuota(cfg.readingMax, count) then GetOpening(key, namespace)
           else GetLeaving(key, namespace, F.OverQuota))
    case GetOpening(key, namespace) =>
      Some(if access.Fails? then GetLeaving(key, namespace, F.IoError)
           else if t.Path() in sh.disk.links then GetReading(key, namespace, sh.disk.links[t.Path()], [])
           else GetFilling(key, namespace, F.AnswerOf(None)))
    case GetReading(key, namespace, handle, got) =>
      var bytes := BytesOf(sh.disk, handle);
      Some(if access.Fails? then GetLeaving(key, namespace, F.IoError)
           else if |got| < |bytes|
             then GetReading(key, namespace, handle, got + bytes[|got|..Onward(|got|, access, |bytes|)])
           else GetFilling(key, namespace, F.AnswerOf(Some(got))))
    case GetFilling(key, namespace, answer) => Some(GetLeaving(key, namespace, answer))
    case RemoveStart(key, namespace) => Some(RemoveUnlinking(key, namespace))
    case _ => None
  }

  function NextOfPut(cfg: F.Config, sh: Shared, t: Task, access: Access): Option<Task>
    requires t.IsPut()
  {
    match t
    case PutStart(call) => Some(PutRemembered(call))
    case PutRemembered(call) => Some(PutCounted(call, sh.writing))
    case PutCounted(call, count) =>
      Some(if F.WithinQuota(cfg.writingMax, count) then PutOpening(call, true) else PutLeaving(call))
    case PutOpening(call, awaited) =>
      if access.Fails? then AfterWrite(call, awaited)
      else Some(PutWriting(call, awaited, HandleFor(sh.disk, call.Path()), 0))
    case PutWriting(call, awaited, handle, at) =>
      var size := |Encode(call.value)|;
      if access.Fails? || at >= size then AfterWrite(call, awaited)
      else Some(PutWriting(call, awaited, handle, Onward(at, access, size)))
    case _ => None
  }

  function NextTask(cfg: F.Config, sh: Shared, t: Task, access: Access): Option<Task> {
    if t.IsPut() then NextOfPut(cfg, sh, t, access) else NextOfGet(cfg, sh, t, access)
  }

  /** What that action does to the files. */
  function DiskAfter(d: Disk, t: Task, access: Access): Disk {
    match t
    case PutOpening(call, _) => if access.Goes? then Opened(d, call) else d
    case PutWriting(call, _, handle, at) =>
      var data := Encode(call.value);
      if access.Goes? && at < |data| then WrittenAt(d, handle, at, data[at..Onward(at, access, |data|)]) else d
    case RemoveUnlinking(_, _) => if access.Goes? then Unlinked(d, {t.Path()}) else d
    case _ => d
  }

  /** And to the memory tier. */
  function MemoryAfter(cfg: F.Config, memory: map<string, CacheObject>, t: Task): map<string, CacheObject> {
    match t
    case GetFilling(key, _, answer) => if cfg.tiered && answer.Found? then memory[key := answer.value] else memory
    case PutStart(call) => if F.Remembers(cfg, call.value) then memory[call.key := call.value] else memory
    case RemoveStart(key, _) => if cfg.tiered then memory - {key} else memory
    case _ => memory
  }

  function Effect(cfg: F.Config, sh: Shared, t: Task, access: Access): Shared {
    Shared(MemoryAfter(cfg, sh.memory, t), DiskAfter(sh.disk, t, access),
           if t.GetMissed? then Increment(sh.reading) else if t.GetLeaving? then Decrement(sh.reading) else sh.reading,
           if t.PutRemembered? then Increment(sh.writing)
           else if t.PutLeaving? then Decrement(sh.writing) else sh.writing)
  }

  /** What the caller of a get receives with that action. */
  function Received(cfg: F.Config, sh: Shared, t: Task): seq<Reply> {
    match t
    case GetStart(key, _) => if cfg.tiered && key in sh.memory then [Reply(key, F.Found(sh.memory[key]))] else []
    case GetLeaving(key, _, answer) => [Reply(key, answer)]
    case _ => []
  }

  /** The key of a read that ends on a file that is not whole. */
  function Tears(sh: Shared, t: Task, access: Access): set<string> {
    if access.Goes? && AtEnd(sh.disk, t) && !Whole(sh.disk, t.handle) then {t.Key()} else {}
  }

  predicate Waits(t: Task) {
    t.GetOpening? || t.GetReading? || ((t.PutOpening? || t.PutWriting?) && t.awaited)
  }

  /** A dropped read is over; a dropped write goes on, and nobody waits for it. */
  function Dropped(t: Task): Option<Task>
    requires Waits(t)
  {
    if t.IsPut() then Some(t.(awaited := false)) else None
  }

  function DropEffect(sh: Shared, t: Task): Shared {
    if t.IsPut() then sh.(writing := Decrement(sh.writing)) else sh.(reading := Decrement(sh.reading))
  }

  function Replace(tasks: map<nat, Task>, id: nat, next: Option<Task>): map<nat, Task> {
    match next
    case Some(t) => tasks[id := t]
    case None => tasks - {id}
  }

  predicate Starts(t: Task) {
    t.GetStart? || t.PutStart? || t.RemoveStart?
  }

  /** Events that do not apply change nothing. */
  predicate Applies(s: State, e: Event) {
    match e
    case Spawn(id, task) => id !in s.tasks && Starts(task)
    case Move(id, _) => id in s.tasks
    case Drop(id) => id in s.tasks && Waits(s.tasks[id])
    case _ => true
  }

  function Step(cfg: F.Config, s: State, e: Event): State {
    if !Applies(s, e) then s
    else match e
      case Spawn(id, task) =>
        s.(tasks := Replace(s.tasks, id, Some(task)),
           puts := if task.PutStart? then s.puts + {task.call} else s.puts)
      case Move(id, access) =>
        var t := s.tasks[id];
        State(Effect(cfg, s.shared, t, access), Replace(s.tasks, id, NextTask(cfg, s.shared, t, access)), s.puts,
              s.torn + Tears(s.shared, t, access), s.replies + Received(cfg, s.shared, t))
      case Drop(id) =>
        s.(shared := DropEffect(s.shared, s.tasks[id]), tasks := Replace(s.tasks, id, Dropped(s.tasks[id])))
      case Evict(key) => s.(shared := s.shared.(memory := s.shared.memory - {key}))
      case Clear(paths) => s.(shared := s.shared.(disk := Unlinked(s.shared.disk, paths)))
  }

  function Run(cfg: F.Config, events: seq<Event>): State {
    if events == [] then INITIAL
    else Step(cfg, Run(cfg, events[..|events| - 1]), events[|events| - 1])
  }

  // ---------------------------------------------------------------------------------------------
  // Quotas
  // ---------------------------------------------------------------------------------------------

  /** Between the fetch_add and the deferred fetch_sub of the reading or of the writing counter. */
  predicate Counted(t: Task, writes: bool) {
    if writes then t.PutCounted? || ((t.PutOpening? || t.PutWriting?) && t.awaited) || t.PutLeaving?
    else t.GetCounted? || t.GetOpening? || t.GetReading? || t.GetFilling? || t.GetLeaving?
  }

  function Limit(cfg: F.Config, writes: bool): u32 {
    if writes then cfg.writingMax else cfg.readingMax
  }

  /** Waiting for the file access, or about to be let in. */
  predicate Admitted(cfg: F.Config, t: Task, writes: bool) {
    if writes
    then ((t.PutOpening? || t.PutWriting?) && t.awaited) || (t.PutCounted? && F.WithinQuota(cfg.writingMax, t.count))
    else t.GetOpening? || t.GetReading? || (t.GetCounted? && F.WithinQuota(cfg.readingMax, t.count))
  }

  /** Waiting for the file access. */
  predicate Inside(t: Task, writes: bool) {
    Waits(t) && t.IsPut() == writes
  }

  function CountedTasks(tasks: map<nat, Task>, writes: bool): set<nat> {
    set id | id in tasks && Counted(tasks[id], writes)
  }

  function AdmittedTasks(cfg: F.Config, tasks: map<nat, Task>, writes: bool): set<nat> {
    set id | id in tasks && Admitted(cfg, tasks[id], writes)
  }

  function InsideTasks(tasks: map<nat, Task>, writes: bool): set<nat> {
    set id | id in tasks && Inside(tasks[id], writes)
  }

  function Counter(sh: Shared, writes: bool): u32 {
    if writes then sh.writing else sh.reading
  }

  function One(b: bool): nat {
    if b then 1 else 0
  }

  function Resize(ids: set<nat>, id: nat, keep: bool): set<nat> {
    if keep then ids + {id} else ids - {id}
  }

  lemma ResizeCard(ids: set<nat>, id: nat, keep: bool)
    ensures |Resize(ids, id, keep)| == |ids| - One(id in ids) + One(keep)
  {
  }

  predicate IsCounted(t: Option<Task>, writes: bool) {
    t.Some? && Counted(t.value, writes)
  }

  predicate IsAdmitted(cfg: F.Config, t: Option<Task>, writes: bool) {
    t.Some? && Admitted(cfg, t.value, writes)
  }

  function TaskAt(tasks: map<nat, Task>, id: nat): Option<Task> {
    if id in tasks then Some(tasks[id]) else None
  }

  lemma CountedAfter(tasks: map<nat, Task>, id: nat, next: Option<Task>, writes: bool)
    ensures |CountedTasks(Replace(tasks, id, next), writes)| ==
            |CountedTasks(tasks, writes)| - One(IsCounted(TaskAt(tasks, id), writes)) + One(IsCounted(next, writes))
  {
    var ids, keep := CountedTasks(tasks, writes), IsCounted(next, writes);
    var ids' := CountedTasks(Replace(tasks, id, next), writes);
    forall x
      ensures x in ids' <==> x in Resize(ids, id, keep)
    {
      assert x != id ==> (x in Replace(tasks, id, next) <==> x in tasks);
    }
    assert ids' == Resize(ids, id, keep);
    ResizeCard(ids, id, keep);
  }

  lemma AdmittedAfter(cfg: F.Config, tasks: map<nat, Task>, id: nat, next: Option<Task>, writes: bool)
    ensures |AdmittedTasks(cfg, Replace(tasks, id, next), writes)| ==
            |AdmittedTasks(cfg, tasks, writes)|
            - One(IsAdmitted(cfg, TaskAt(tasks, id), writes)) + One(IsAdmitted(cfg, next, writes))
  {
    var ids, keep := AdmittedTasks(cfg, tasks, writes), IsAdmitted(cfg, next, writes);
    var ids' := AdmittedTasks(cfg, Replace(tasks, id, next), writes);
    forall x
      ensures x in ids' <==> x in Resize(ids, id, keep)
    {
      assert x != id ==> (x in Replace(tasks, id, next) <==> x in tasks);
    }
    assert ids' == Resize(ids, id, keep);
    ResizeCard(ids, id, keep);
  }

  predicate Enters(t: Task, writes: bool) {
    if writes then t.PutRemembered? else t.GetMissed?
  }

  predicate Leaves(t: Task, writes: bool) {
    if writes then t.PutLeaving? else t.GetLeaving?
  }

  lemma CountedNext(cfg: F.Config, sh: Shared, t: Task, access: Access, writes: bool)
    ensures IsCounted(NextTask(cfg, sh, t, access), writes) ==
            (Enters(t, writes) || (Counted(t, writes) && !Leaves(t, writes)))
    ensures Enters(t, writes) ==> !Counted(t, writes)
    ensures Leaves(t, writes) ==> Counted(t, writes)
  {
  }

  /** An action moves a counter when its task starts or stops to be counted. */
  lemma CounterFollowsTask(cfg: F.Config, sh: Shared, t: Task, access: Access, writes: bool)
    ensures Counter(Effect(cfg, sh, t, access), writes) ==
            (Counter(sh, writes) - One(Counted(t, writes)) + One(IsCounted(NextTask(cfg, sh, t, access), writes))) % U32
  {
    CountedNext(cfg, sh, t, access, writes);
  }

  /** Whatever happens, a counter moves with the number of tasks it counts, modulo its width. */
  predicate CountsTasks(s: State, writes: bool) {
    Counter(s.shared, writes) == |CountedTasks(s.tasks, writes)| % U32
  }

  lemma ShiftedCount(counter: nat, tasks: nat, before: nat, after: nat)
    requires counter == tasks % U32
    ensures (counter - before + after) % U32 == (tasks - before + after) % U32
  {
  }

  lemma MoveCounts(cfg: F.Config, s: State, id: nat, access: Access, writes: bool)
    requires CountsTasks(s, writes) && id in s.tasks
    ensures CountsTasks(Step(cfg, s, Move(id, access)), writes)
  {
    var t := s.tasks[id];
    var next := NextTask(cfg, s.shared, t, access);
    CounterFollowsTask(cfg, s.shared, t, access, writes);
    CountedAfter(s.tasks, id, next, writes);
    ShiftedCount(Counter(s.shared, writes), |CountedTasks(s.tasks, writes)|, One(Counted(t, writes)),
                 One(IsCounted(next, writes)));
  }

  lemma DropFollowsTask(sh: Shared, t: Task, writes: bool)
    requires Waits(t)
    ensures Counter(DropEffect(sh, t), writes) ==
            (Counter(sh, writes) - One(Counted(t, writes)) + One(IsCounted(Dropped(t), writes))) % U32
  {
  }

  lemma DropCounts(cfg: F.Config, s: State, id: nat, writes: bool)
    requires CountsTasks(s, writes) && id in s.tasks && Waits(s.tasks[id])
    ensures CountsTasks(Step(cfg, s, Drop(id)), writes)
  {
    var t := s.tasks[id];
    DropFollowsTask(s.shared, t, writes);
    CountedAfter(s.tasks, id, Dropped(t), writes);
    ShiftedCount(Counter(s.shared, writes), |CountedTasks(s.tasks, writes)|, One(Counted(t, writes)),
                 One(IsCounted(Dropped(t), writes)));
  }

  lemma StepCounts(cfg: F.Config, s: State, e: Event, writes: bool)
    requires CountsTasks(s, writes)
    ensures CountsTasks(Step(cfg, s, e), writes)
  {
    if Applies(s, e) {
      if e.Spawn? {
        CountedAfter(s.tasks, e.id, Some(e.task), writes);
      } else if e.Move? {
        MoveCounts(cfg, s, e.id, e.access, writes);
      } else if e.Drop? {
        DropCounts(cfg, s, e.id, writes);
      }
    }
  }

  /** In every interleaving a counter shows exactly the tasks it counts, and 0 when there are none. */
  lemma {:induction false} CountersAreExact(cfg: F.Config, events: seq<Event>, writes: bool)
    ensures CountsTasks(Run(cfg, events), writes)
    ensures CountedTasks(Run(cfg, events).tasks, writes) == {} ==> Counter(Run(cfg, events).shared, writes) == 0
  {
    if events != [] {
      CountersAreExact(cfg, events[..|events| - 1], writes);
      StepCounts(cfg, Run(cfg, events[..|events| - 1]), events[|events| - 1], writes);
    } else {
      assert CountedTasks(INITIAL.tasks, writes) == {};
    }
  }

  /** The counters have not wrapped at any point of the run. */
  predicate NeverWraps(cfg: F.Config, events: seq<Event>) {
    |Run(cfg, events).tasks| < U32 && (events == [] || NeverWraps(cfg, events[..|events| - 1]))
  }

  lemma CountedAreTasks(tasks: map<nat, Task>, writes: bool)
    ensures |CountedTasks(tasks, writes)| <= |tasks|
  {
    SubsetCard(CountedTasks(tasks, writes), tasks.Keys);
  }

  lemma {:induction false} SubsetCard(a: set<nat>, b: set<nat>)
    requires a <= b
    ensures |a| <= |b|
  {
    assert |b| == |a| + |b - a| by {
      assert b == a + (b - a);
    }
  }

  lemma AdmittedAreCounted(cfg: F.Config, tasks: map<nat, Task>, writes: bool)
    ensures |AdmittedTasks(cfg, tasks, writes)| <= |CountedTasks(tasks, writes)|
    ensures |InsideTasks(tasks, writes)| <= |AdmittedTasks(cfg, tasks, writes)|
  {
    SubsetCard(AdmittedTasks(cfg, tasks, writes), CountedTasks(tasks, writes));
    SubsetCard(InsideTasks(tasks, writes), AdmittedTasks(cfg, tasks, writes));
  }

  /** A task is let in only while the counter it saw was below the limit. */
  lemma NewlyAdmitted(cfg: F.Config, sh: Shared, t: Task, access: Access, writes: bool)
    requires Limit(cfg, writes) > 0
    requires IsAdmitted(cfg, NextTask(cfg, sh, t, access), writes) && !Admitted(cfg, t, writes)
    ensures Counter(sh, writes) < Limit(cfg, writes)
  {
  }

  lemma MoveWithinQuota(cfg: F.Config, s: State, id: nat, access: Access, writes: bool)
    requires Limit(cfg, writes) > 0 && |AdmittedTasks(cfg, s.tasks, writes)| <= Limit(cfg, writes)
    requires CountsTasks(s, writes) && |s.tasks| < U32 && id in s.tasks
    ensures |AdmittedTasks(cfg, Step(cfg, s, Move(id, access)).tasks, writes)| <= Limit(cfg, writes)
  {
    var next := NextTask(cfg, s.shared, s.tasks[id], access);
    AdmittedAfter(cfg, s.tasks, id, next, writes);
    if IsAdmitted(cfg, next, writes) && !Admitted(cfg, s.tasks[id], writes) {
      NewlyAdmitted(cfg, s.shared, s.tasks[id], access, writes);
      CountedAreTasks(s.tasks, writes);
      AdmittedAreCounted(cfg, s.tasks, writes);
    }
  }

  lemma StepWithinQuota(cfg: F.Config, s: State, e: Event, writes: bool)
    requires Limit(cfg, writes) > 0 && |AdmittedTasks(cfg, s.tasks, writes)| <= Limit(cfg, writes)
    requires CountsTasks(s, writes) && |s.tasks| < U32
    ensures |AdmittedTasks(cfg, Step(cfg, s, e).tasks, writes)| <= Limit(cfg, writes)
  {
    if Applies(s, e) {
      if e.Spawn? {
        AdmittedAfter(cfg, s.tasks, e.id, Some(e.task), writes);
      } else if e.Move? {
        MoveWithinQuota(cfg, s, e.id, e.access, writes);
      } else if e.Drop? {
        AdmittedAfter(cfg, s.tasks, e.id, Dropped(s.tasks[e.id]), writes);
      }
    }
  }

  /** In every interleaving no more callers than the limit wait for a file read, or a file write. */
  lemma {:induction false} QuotaHolds(cfg: F.Config, events: seq<Event>, writes: bool)
    requires Limit(cfg, writes) > 0 && NeverWraps(cfg, events)
    ensures |AdmittedTasks(cfg, Run(cfg, events).tasks, writes)| <= Limit(cfg, writes)
    ensures |InsideTasks(Run(cfg, events).tasks, writes)| <= Limit(cfg, writes)
  {
    if events != [] {
      var rest := events[..|events| - 1];
      QuotaHolds(cfg, rest, writes);
      CountersAreExact(cfg, rest, writes);
      StepWithinQuota(cfg, Run(cfg, rest), events[|events| - 1], writes);
    } else {
      assert AdmittedTasks(cfg, INITIAL.tasks, writes) == {};
    }
    AdmittedAreCounted(cfg, Run(cfg, events).tasks, writes);
  }
}
