/**
  When the calls of pingap-cache/src/file.rs answer like one plain map although other calls are
  under way: calls on different keys may overlap as they like, calls on one key may not.
 */
module CacheCoherence {
  import opened Wrappers
  import opened CacheCodec
  import opened CacheDisk
  import F = FileCache
  import opened CacheTasks

  // ---------------------------------------------------------------------------------------------
  // The plain map
  // ---------------------------------------------------------------------------------------------

  /** A put binds its path when its write is done, an unlink and a clear unbind. */
  function ModelAfter(s: State, e: Event, model: map<string, CacheObject>): map<string, CacheObject> {
    match e
    case Move(id, access) =>
      if id !in s.tasks || access.Fails? then model
      else
        var t := s.tasks[id];
        if t.PutWriting? && t.at >= |Encode(t.call.value)| then model[t.Path() := t.call.value]
        else if t.RemoveUnlinking? then model - {t.Path()}
        else model
    case Clear(paths) => model - paths
    case _ => model
  }

  function Model(cfg: F.Config, events: seq<Event>): map<string, CacheObject> {
    if events == [] then map[]
    else
      var rest := events[..|events| - 1];
      ModelAfter(Run(cfg, rest), events[|events| - 1], Model(cfg, rest))
  }

  function At(model: map<string, CacheObject>, path: string): Option<CacheObject> {
    if path in model then Some(model[path]) else None
  }

  // ---------------------------------------------------------------------------------------------
  // The premises
  // ---------------------------------------------------------------------------------------------

  /** A call on the key is under way. */
  predicate Busy(tasks: map<nat, Task>, key: string) {
    exists id :: id in tasks && tasks[id].Key() == key
  }

  /** The memory tier will not hide what is put: nothing else is in it, or the object goes there. */
  predicate NotHidden(cfg: F.Config, memory: map<string, CacheObject>, key: string, value: CacheObject) {
    F.Remembers(cfg, value) || key !in memory || memory[key] == value
  }

  /**
    What is asked of an event, for one key and its namespace: a call on the key starts when no other
    is under way, names that namespace, and leaves no stale object in the memory tier; its write or
    unlink is let in and succeeds; and its file is not cleared while it is remembered or in use. Of
    all other keys only that they are hashes, without a separator.
   */
  predicate Proper(cfg: F.Config, key: string, home: string, s: State, e: Event) {
    match e
    case Spawn(id, t) =>
      && '/' !in t.Key()
      && (t.Key() == key ==>
            && t.Namespace() == home && !Busy(s.tasks, key)
            && (t.IsPut() ==> Encodable(t.call.value) && NotHidden(cfg, s.shared.memory, key, t.call.value)))
    case Move(id, access) =>
      id in s.tasks && s.tasks[id].Key() == key ==>
        && (s.tasks[id].PutCounted? ==> F.WithinQuota(cfg.writingMax, s.tasks[id].count))
        && (s.tasks[id].PutOpening? || s.tasks[id].PutWriting? || s.tasks[id].RemoveUnlinking? ==> access.Goes?)
    case Clear(paths) => F.FilePath(key, home) in paths ==> !Busy(s.tasks, key) && key !in s.shared.memory
    case _ => true
  }

  predicate Serial(cfg: F.Config, key: string, home: string, events: seq<Event>) {
    events == [] ||
    (var rest := events[..|events| - 1];
     Serial(cfg, key, home, rest) && Proper(cfg, key, home, Run(cfg, rest), events[|events| - 1]))
  }

  // ---------------------------------------------------------------------------------------------
  // What holds throughout
  // ---------------------------------------------------------------------------------------------

  /** Every handle leads to a file made under the path of its task. */
  predicate Placed(d: Disk, t: Task) {
    '/' !in t.Key() && (t.GetReading? || t.PutWriting? ==> t.handle < |d.inodes| && d.inodes[t.handle].path == t.Path())
  }

  /** The file of the path, by its inode and its bytes. */
  datatype Seen = Seen(remembered: Option<CacheObject>, link: Option<nat>, bytes: Bytes)

  /** All that is shared about one key. */
  function See(sh: Shared, key: string, path: string): Seen {
    Seen(if key in sh.memory then Some(sh.memory[key]) else None,
         if path in sh.disk.links then Some(sh.disk.links[path]) else None,
         if path in sh.disk.links then BytesOf(sh.disk, sh.disk.links[path]) else [])
  }

  /** The file holds what the map does. */
  predicate FileAgrees(v: Seen, m: Option<CacheObject>) {
    if m.None? then v.link.None?
    else v.link.Some? && v.bytes == Encode(m.value) && Encodable(m.value)
  }

  predicate MemoryAgrees(v: Seen, m: Option<CacheObject>) {
    v.remembered.Some? ==> v.remembered == m
  }

  /** No call on the key is under way. */
  predicate Rests(v: Seen, m: Option<CacheObject>) {
    FileAgrees(v, m) && MemoryAgrees(v, m)
  }

  predicate Agrees(a: F.Answer, m: Option<CacheObject>) {
    match a
    case Found(o) => m == Some(o)
    case Missing => m == None
    case Panicked => false
    case _ => true
  }

  predicate PutHolds(cfg: F.Config, v: Seen, m: Option<CacheObject>, t: Task)
    requires t.IsPut()
  {
    var value := t.call.value;
    && Encodable(value)
    && (t.PutStart? ==> Rests(v, m) && (F.Remembers(cfg, value) || v.remembered.None? || v.remembered == Some(value)))
    && (t.PutRemembered? || t.PutCounted? || t.PutOpening? ==>
          FileAgrees(v, m) && (v.remembered.Some? ==> v.remembered == Some(value)))
    && (t.PutWriting? ==>
          && t.at <= |Encode(value)| && v.link == Some(t.handle) && v.bytes == Encode(value)[..t.at]
          && (v.remembered.Some? ==> v.remembered == Some(value)))
    && (t.PutLeaving? ==> Rests(v, m))
  }

  predicate GetHolds(v: Seen, m: Option<CacheObject>, t: Task)
    requires !t.IsPut()
  {
    && (if t.RemoveUnlinking? then FileAgrees(v, m) && v.remembered.None? else Rests(v, m))
    && (t.GetReading? ==> v.link == Some(t.handle) && t.got <= v.bytes)
    && (t.GetFilling? || t.GetLeaving? ==> Agrees(t.answer, m))
  }

  /** The one call on the key that is under way. */
  predicate Holding(cfg: F.Config, v: Seen, m: Option<CacheObject>, t: Task) {
    if t.IsPut() then PutHolds(cfg, v, m, t) else GetHolds(v, m, t)
  }

  /** At most one call on the key, which holds, or none, and the key rests. */
  predicate Orderly(cfg: F.Config, key: string, home: string, tasks: map<nat, Task>, v: Seen, m: Option<CacheObject>) {
    && (forall i, j :: i in tasks && j in tasks && tasks[i].Key() == key && tasks[j].Key() == key ==> i == j)
    && (forall id :: id in tasks && tasks[id].Key() == key ==>
      tasks[id].Namespace() == home && Holding(cfg, v, m, tasks[id]))
    && (!Busy(tasks, key) ==> Rests(v, m))
  }

  predicate Grounded(cfg: F.Config, s: State) {
    && Linked(s.shared.disk) && (!cfg.tiered ==> s.shared.memory == map[])
    && (forall id :: id in s.tasks ==> Placed(s.shared.disk, s.tasks[id]))
  }

  predicate Coherent(cfg: F.Config, key: string, home: string, s: State, m: Option<CacheObject>) {
    '/' !in key && Grounded(cfg, s) && Orderly(cfg, key, home, s.tasks, See(s.shared, key, F.FilePath(key, home)), m)
  }

  // ---------------------------------------------------------------------------------------------
  // Calls on other keys
  // ---------------------------------------------------------------------------------------------

  /** An action of a task on another path leaves the file of this path alone. */
  lemma OtherPath(d: Disk, t: Task, access: Access, path: string)
    requires Linked(d) && Placed(d, t) && t.Path() != path
    ensures var d' := DiskAfter(d, t, access);
      && (path in d'.links <==> path in d.links)
      && (path in d.links ==>
            d'.links[path] == d.links[path] && BytesOf(d', d.links[path]) == BytesOf(d, d.links[path]))
  {
  }

  lemma DiskStaysPlaced(d: Disk, t: Task, access: Access, u: Task)
    requires Linked(d) && Placed(d, t) && Placed(d, u)
    ensures Linked(DiskAfter(d, t, access)) && Placed(DiskAfter(d, t, access), u)
  {
  }

  lemma OtherKey(cfg: F.Config, sh: Shared, t: Task, access: Access, key: string, home: string)
    requires Linked(sh.disk) && Placed(sh.disk, t) && t.Key() != key && '/' !in key
    ensures See(Effect(cfg, sh, t, access), key, F.FilePath(key, home)) == See(sh, key, F.FilePath(key, home))
  {
    if t.Path() == F.FilePath(key, home) {
      F.PathInjective(t.Key(), t.Namespace(), key, home);
    }
    OtherPath(sh.disk, t, access, F.FilePath(key, home));
  }

  lemma NextGetIsPlaced(cfg: F.Config, sh: Shared, t: Task, access: Access)
    requires !t.IsPut() && Linked(sh.disk) && Placed(sh.disk, t)
    ensures var next := NextOfGet(cfg, sh, t, access);
      next.Some? ==>
        && Placed(sh.disk, next.value)
        && next.value.Key() == t.Key() && next.value.Namespace() == t.Namespace()
  {
  }

  lemma NextPutIsPlaced(cfg: F.Config, sh: Shared, t: Task, access: Access)
    requires t.IsPut() && Linked(sh.disk) && Placed(sh.disk, t)
    ensures var next := NextOfPut(cfg, sh, t, access);
      next.Some? ==>
        && Placed(DiskAfter(sh.disk, t, access), next.value)
        && next.value.Key() == t.Key() && next.value.Namespace() == t.Namespace()
  {
  }

  lemma NextIsPlaced(cfg: F.Config, sh: Shared, t: Task, access: Access)
    requires Linked(sh.disk) && Placed(sh.disk, t)
    ensures var next := NextTask(cfg, sh, t, access);
      next.Some? ==>
        && Placed(DiskAfter(sh.disk, t, access), next.value)
        && next.value.Key() == t.Key() && next.value.Namespace() == t.Namespace()
  {
    if t.IsPut() {
      NextPutIsPlaced(cfg, sh, t, access);
    } else {
      NextGetIsPlaced(cfg, sh, t, access);
    }
  }

  // ---------------------------------------------------------------------------------------------
  // The call on the key itself
  // ---------------------------------------------------------------------------------------------

  /** What the map says of the path of a task after its action. */
  function BoundAfter(t: Task, access: Access, m: Option<CacheObject>): Option<CacheObject> {
    if access.Fails? then m
    else if t.PutWriting? && t.at >= |Encode(t.call.value)| then Some(t.call.value)
    else if t.RemoveUnlinking? then None
    else m
  }

  predicate GoesWell(cfg: F.Config, t: Task, access: Access) {
    && (t.PutCounted? ==> F.WithinQuota(cfg.writingMax, t.count))
    && (t.PutOpening? || t.PutWriting? || t.RemoveUnlinking? ==> access.Goes?)
  }

  /** The file of a task after its action, if it is an action on files. */
  function SeenAfter(cfg: F.Config, v: Seen, t: Task, access: Access, created: nat): Seen {
    match t
    case PutStart(call) => if F.Remembers(cfg, call.value) then v.(remembered := Some(call.value)) else v
    case PutOpening(call, _) =>
      if access.Goes? then v.(link := Some(if v.link.Some? then v.link.value else created), bytes := []) else v
    case PutWriting(call, _, _, at) =>
      var data := Encode(call.value);
      if access.Goes? && at < |data| then v.(bytes := data[..Onward(at, access, |data|)]) else v
    case GetFilling(_, _, answer) => if cfg.tiered && answer.Found? then v.(remembered := Some(answer.value)) else v
    case RemoveStart(_, _) => if cfg.tiered then v.(remembered := None) else v
    case RemoveUnlinking(_, _) => if access.Goes? then v.(link := None, bytes := []) else v
    case _ => v
  }

  lemma WriteSeen(sh: Shared, t: Task, access: Access, path: string)
    requires t.PutWriting? && path == t.Path() && access.Goes? && t.at < |Encode(t.call.value)|
    requires path in sh.disk.links && sh.disk.links[path] == t.handle < |sh.disk.inodes|
    requires sh.disk.inodes[t.handle].bytes == Encode(t.call.value)[..t.at]
    ensures BytesOf(DiskAfter(sh.disk, t, access), t.handle) ==
            Encode(t.call.value)[..Onward(t.at, access, |Encode(t.call.value)|)]
  {
    AppendNext(Encode(t.call.value), t.at, Onward(t.at, access, |Encode(t.call.value)|));
  }

  lemma OwnSeen(cfg: F.Config, sh: Shared, t: Task, access: Access, m: Option<CacheObject>)
    requires Linked(sh.disk) && Placed(sh.disk, t) && Holding(cfg, See(sh, t.Key(), t.Path()), m, t)
    ensures See(Effect(cfg, sh, t, access), t.Key(), t.Path()) ==
            SeenAfter(cfg, See(sh, t.Key(), t.Path()), t, access, |sh.disk.inodes|)
  {
    if t.PutWriting? && access.Goes? && t.at < |Encode(t.call.value)| {
      WriteSeen(sh, t, access, t.Path());
    }
  }

  lemma PutStep(cfg: F.Config, sh: Shared, v: Seen, m: Option<CacheObject>, t: Task, access: Access)
    requires t.IsPut() && PutHolds(cfg, v, m, t) && GoesWell(cfg, t, access) && v == See(sh, t.Key(), t.Path())
    ensures var next, v', m' := NextOfPut(cfg, sh, t, access), SeenAfter(cfg, v, t, access, |sh.disk.inodes|),
            BoundAfter(t, access, m);
      if next.Some? then next.value.IsPut() && PutHolds(cfg, v', m', next.value) else Rests(v', m')
  {
  }

  lemma EndAgrees(v: Seen, m: Option<CacheObject>)
    requires FileAgrees(v, m) && m.Some?
    ensures Agrees(F.AnswerOf(Some(v.bytes)), m)
  {
    DecodeEncode(m.value);
    HeaderWords(m.value);
  }

  lemma ReadStep(cfg: F.Config, sh: Shared, v: Seen, m: Option<CacheObject>, t: Task, access: Access)
    requires t.GetReading? && GetHolds(v, m, t) && v == See(sh, t.Key(), t.Path())
    ensures var next := NextOfGet(cfg, sh, t, access);
      next.Some? && !next.value.IsPut() && GetHolds(v, m, next.value)
  {
    if access.Goes? && |t.got| >= |v.bytes| {
      assert t.got == v.bytes;
      EndAgrees(v, m);
    }
  }

  lemma GetStep(cfg: F.Config, sh: Shared, v: Seen, m: Option<CacheObject>, t: Task, access: Access)
    requires !t.IsPut() && GetHolds(v, m, t) && GoesWell(cfg, t, access) && v == See(sh, t.Key(), t.Path())
    requires !cfg.tiered ==> v.remembered.None?
    ensures var next, v', m' := NextOfGet(cfg, sh, t, access), SeenAfter(cfg, v, t, access, |sh.disk.inodes|),
            BoundAfter(t, access, m);
      if next.Some? then !next.value.IsPut() && GetHolds(v', m', next.value) else Rests(v', m')
  {
    if t.GetReading? {
      ReadStep(cfg, sh, v, m, t, access);
    }
  }

  lemma RepliesAgree(cfg: F.Config, sh: Shared, t: Task, m: Option<CacheObject>, i: nat)
    requires Holding(cfg, See(sh, t.Key(), t.Path()), m, t) && i < |Received(cfg, sh, t)|
    ensures Received(cfg, sh, t)[i].key == t.Key() && Agrees(Received(cfg, sh, t)[i].answer, m)
  {
  }

  // ---------------------------------------------------------------------------------------------
  // Runs
  // ---------------------------------------------------------------------------------------------

  /** The map at the path of the key, after the action of a task. */
  lemma BoundByMove(s: State, id: nat, access: Access, model: map<string, CacheObject>, key: string, home: string)
    requires id in s.tasks && '/' !in key && '/' !in s.tasks[id].Key()
    requires s.tasks[id].Key() == key ==> s.tasks[id].Namespace() == home
    ensures var path := F.FilePath(key, home);
      At(ModelAfter(s, Move(id, access), model), path) ==
        if s.tasks[id].Key() == key then BoundAfter(s.tasks[id], access, At(model, path)) else At(model, path)
  {
    var t := s.tasks[id];
    if t.Path() == F.FilePath(key, home) {
      F.PathInjective(t.Key(), t.Namespace(), key, home);
    }
  }

  lemma StaysGrounded(cfg: F.Config, s: State, id: nat, access: Access)
    requires Grounded(cfg, s) && id in s.tasks
    ensures Grounded(cfg, Step(cfg, s, Move(id, access)))
  {
    NextIsPlaced(cfg, s.shared, s.tasks[id], access);
    forall j | j in s.tasks
      ensures Placed(DiskAfter(s.shared.disk, s.tasks[id], access), s.tasks[j])
    {
      DiskStaysPlaced(s.shared.disk, s.tasks[id], access, s.tasks[j]);
    }
    DiskStaysPlaced(s.shared.disk, s.tasks[id], access, s.tasks[id]);
  }

  /** The one call on the key moves on, or ends. */
  lemma OneMoves(cfg: F.Config, key: string, home: string, tasks: map<nat, Task>, id: nat, next: Option<Task>,
                 v: Seen, m: Option<CacheObject>, v': Seen, m': Option<CacheObject>)
    requires Orderly(cfg, key, home, tasks, v, m) && id in tasks && tasks[id].Key() == key
    requires if next.Some?
             then next.value.Key() == key && next.value.Namespace() == home && Holding(cfg, v', m', next.value)
             else Rests(v', m')
    ensures Orderly(cfg, key, home, Replace(tasks, id, next), v', m')
  {
    var after := Replace(tasks, id, next);
    forall j | j in after && after[j].Key() == key
      ensures j == id
    {
    }
    if next.Some? {
      assert id in after && after[id].Key() == key;
    }
  }

  /** A call on another key moves on, or ends. */
  lemma AnotherMoves(cfg: F.Config, key: string, home: string, tasks: map<nat, Task>, id: nat, next: Option<Task>,
                     v: Seen, m: Option<CacheObject>)
    requires Orderly(cfg, key, home, tasks, v, m)
    requires id in tasks ==> tasks[id].Key() != key
    requires next.Some? ==> next.value.Key() != key
    ensures Orderly(cfg, key, home, Replace(tasks, id, next), v, m)
  {
    var after := Replace(tasks, id, next);
    assert forall j :: j in after && after[j].Key() == key ==> j in tasks && after[j] == tasks[j];
    if Busy(tasks, key) {
      var j :| j in tasks && tasks[j].Key() == key;
      assert j in after && after[j].Key() == key;
    }
  }

  lemma OwnMove(cfg: F.Config, key: string, home: string, s: State, id: nat, access: Access, m: Option<CacheObject>)
    requires Coherent(cfg, key, home, s, m) && Proper(cfg, key, home, s, Move(id, access))
    requires id in s.tasks && s.tasks[id].Key() == key
    ensures Coherent(cfg, key, home, Step(cfg, s, Move(id, access)), BoundAfter(s.tasks[id], access, m))
  {
    var t, v := s.tasks[id], See(s.shared, key, F.FilePath(key, home));
    var v' := SeenAfter(cfg, v, t, access, |s.shared.disk.inodes|);
    StaysGrounded(cfg, s, id, access);
    NextIsPlaced(cfg, s.shared, t, access);
    OwnSeen(cfg, s.shared, t, access, m);
    if t.IsPut() {
      PutStep(cfg, s.shared, v, m, t, access);
    } else {
      GetStep(cfg, s.shared, v, m, t, access);
    }
    OneMoves(cfg, key, home, s.tasks, id, NextTask(cfg, s.shared, t, access), v, m, v', BoundAfter(t, access, m));
  }

  lemma OtherMove(cfg: F.Config, key: string, home: string, s: State, id: nat, access: Access, m: Option<CacheObject>)
    requires Coherent(cfg, key, home, s, m) && id in s.tasks && s.tasks[id].Key() != key
    ensures Coherent(cfg, key, home, Step(cfg, s, Move(id, access)), m)
  {
    var t := s.tasks[id];
    StaysGrounded(cfg, s, id, access);
    NextIsPlaced(cfg, s.shared, t, access);
    OtherKey(cfg, s.shared, t, access, key, home);
    AnotherMoves(cfg, key, home, s.tasks, id, NextTask(cfg, s.shared, t, access),
      See(s.shared, key, F.FilePath(key, home)), m);
  }

  lemma SpawnCoherent(cfg: F.Config, key: string, home: string, s: State, id: nat, t: Task, m: Option<CacheObject>)
    requires Coherent(cfg, key, home, s, m) && Proper(cfg, key, home, s, Spawn(id, t)) && id !in s.tasks && Starts(t)
    ensures Coherent(cfg, key, home, Step(cfg, s, Spawn(id, t)), m)
  {
    var v := See(s.shared, key, F.FilePath(key, home));
    if t.Key() == key {
      assert Rests(v, m) && Holding(cfg, v, m, t);
      var after := s.tasks[id := t];
      assert forall j :: j in s.tasks ==> s.tasks[j].Key() != key;
      assert id in after && after[id].Key() == key;
    } else {
      AnotherMoves(cfg, key, home, s.tasks, id, Some(t), v, m);
    }
  }

  lemma DropCoherent(cfg: F.Config, key: string, home: string, s: State, id: nat, m: Option<CacheObject>)
    requires Coherent(cfg, key, home, s, m) && id in s.tasks && Waits(s.tasks[id])
    ensures Coherent(cfg, key, home, Step(cfg, s, Drop(id)), m)
  {
    var t, v := s.tasks[id], See(s.shared, key, F.FilePath(key, home));
    assert See(DropEffect(s.shared, t), key, F.FilePath(key, home)) == v;
    if t.Key() == key {
      OneMoves(cfg, key, home, s.tasks, id, Dropped(t), v, m, v, m);
    } else {
      AnotherMoves(cfg, key, home, s.tasks, id, Dropped(t), v, m);
    }
  }

  lemma LessRemembered(cfg: F.Config, v: Seen, m: Option<CacheObject>, t: Task)
    requires Holding(cfg, v, m, t)
    ensures Holding(cfg, v.(remembered := None), m, t)
  {
  }

  lemma EvictCoherent(cfg: F.Config, key: string, home: string, s: State, evicted: string, m: Option<CacheObject>)
    requires Coherent(cfg, key, home, s, m)
    ensures Coherent(cfg, key, home, Step(cfg, s, Evict(evicted)), m)
  {
    var v := See(s.shared, key, F.FilePath(key, home));
    var v' := See(Step(cfg, s, Evict(evicted)).shared, key, F.FilePath(key, home));
    if evicted == key {
      assert v' == v.(remembered := None);
      forall id | id in s.tasks && s.tasks[id].Key() == key
        ensures Holding(cfg, v', m, s.tasks[id])
      {
        LessRemembered(cfg, v, m, s.tasks[id]);
      }
    } else {
      assert v' == v;
    }
  }

  lemma ClearCoherent(cfg: F.Config, key: string, home: string, s: State, paths: set<string>, m: Option<CacheObject>)
    requires Coherent(cfg, key, home, s, m) && Proper(cfg, key, home, s, Clear(paths))
    ensures Coherent(cfg, key, home, Step(cfg, s, Clear(paths)), if F.FilePath(key, home) in paths then None else m)
  {
    var path := F.FilePath(key, home);
    var v := See(s.shared, key, path);
    var v' := See(Step(cfg, s, Clear(paths)).shared, key, path);
    if path !in paths {
      assert v' == v;
    } else {
      assert Rests(v', None);
    }
  }

  lemma StepCoherent(cfg: F.Config, key: string, home: string, s: State, e: Event, model: map<string, CacheObject>)
    requires Coherent(cfg, key, home, s, At(model, F.FilePath(key, home))) && Proper(cfg, key, home, s, e)
    ensures Coherent(cfg, key, home, Step(cfg, s, e), At(ModelAfter(s, e, model), F.FilePath(key, home)))
  {
    var m := At(model, F.FilePath(key, home));
    if Applies(s, e) {
      match e
      case Spawn(id, t) => SpawnCoherent(cfg, key, home, s, id, t, m);
      case Move(id, access) =>
        BoundByMove(s, id, access, model, key, home);
        if s.tasks[id].Key() == key {
          OwnMove(cfg, key, home, s, id, access, m);
        } else {
          OtherMove(cfg, key, home, s, id, access, m);
        }
      case Drop(id) => DropCoherent(cfg, key, home, s, id, m);
      case Evict(evicted) => EvictCoherent(cfg, key, home, s, evicted, m);
      case Clear(paths) => ClearCoherent(cfg, key, home, s, paths, m);
    }
  }

  lemma {:induction false} RunCoherent(cfg: F.Config, key: string, home: string, events: seq<Event>)
    requires '/' !in key && Serial(cfg, key, home, events)
    ensures Coherent(cfg, key, home, Run(cfg, events), At(Model(cfg, events), F.FilePath(key, home)))
  {
    if events != [] {
      var rest := events[..|events| - 1];
      RunCoherent(cfg, key, home, rest);
      StepCoherent(cfg, key, home, Run(cfg, rest), events[|events| - 1], Model(cfg, rest));
    }
  }

  /**
    In every interleaving in which the calls on one key do not overlap, whatever the calls on other
    keys do, each reply to a get of that key is what the plain map says at that moment, unless it is
    an error of the quota or of the file system.
   */
  lemma RepliesAreTheMap(cfg: F.Config, key: string, home: string, events: seq<Event>, e: Event)
    requires '/' !in key && Serial(cfg, key, home, events + [e])
    ensures var s, s', m := Run(cfg, events), Run(cfg, events + [e]), At(Model(cfg, events), F.FilePath(key, home));
      && s.replies <= s'.replies
      && forall i :: |s.replies| <= i < |s'.replies| && s'.replies[i].key == key ==>
           match s'.replies[i].answer
           case Found(o) => m == Some(o)
           case Missing => m == None
           case Panicked => false
           case _ => true
  {
    assert (events + [e])[..|events|] == events;
    RunCoherent(cfg, key, home, events);
    var s, m := Run(cfg, events), At(Model(cfg, events), F.FilePath(key, home));
    if e.Move? && e.id in s.tasks {
      var t := s.tasks[e.id];
      forall i | 0 <= i < |Received(cfg, s.shared, t)| && Received(cfg, s.shared, t)[i].key == key
        ensures Agrees(Received(cfg, s.shared, t)[i].answer, m)
      {
        assert t.Key() == key;
        RepliesAgree(cfg, s.shared, t, m, i);
      }
    }
  }
}
