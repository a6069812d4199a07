/**
  What a get can return, over every interleaving of pingap-cache/src/file.rs: refused, failed,
  dropped and half-finished calls, removals, evictions and clears included.
 */
module CacheProvenance {
  import opened Wrappers
  import opened CacheCodec
  import opened CacheDisk
  import F = FileCache
  import opened CacheTasks

  /** Keys are hashes, without a separator, and metadata fits its header. */
  predicate Fits(e: Event) {
    e.Spawn? ==> '/' !in e.task.Key() && (e.task.PutStart? ==> Encodable(e.task.call.value))
  }

  predicate AllFit(events: seq<Event>) {
    forall i :: 0 <= i < |events| ==> Fits(events[i])
  }

  /** A put opens, and so empties, a file that another call is reading or writing. */
  predicate Clobbers(s: State, e: Event) {
    && e.Move? && e.id in s.tasks && s.tasks[e.id].PutOpening? && e.access.Goes?
    && var path := s.tasks[e.id].Path();
       path in s.shared.disk.links && exists id :: id in s.tasks && s.tasks[id].Holds(s.shared.disk.links[path])
  }

  predicate Unclobbered(cfg: F.Config, events: seq<Event>) {
    events == [] ||
    (Unclobbered(cfg, events[..|events| - 1]) && !Clobbers(Run(cfg, events[..|events| - 1]), events[|events| - 1]))
  }

  // ---------------------------------------------------------------------------------------------
  // Where everything comes from
  // ---------------------------------------------------------------------------------------------

  /** `o` was put under the key, or is cut from what was put if a read of the key ended too early. */
  predicate Stems(puts: set<PutCall>, torn: set<string>, key: string, o: CacheObject) {
    exists c :: c in puts && c.key == key && CutFrom(o, c.value) && (key !in torn ==> o == c.value)
  }

  predicate AnswerStems(puts: set<PutCall>, torn: set<string>, key: string, a: F.Answer) {
    && (a.Found? ==> Stems(puts, torn, key, a.value))
    && (a.Panicked? ==> key in torn)
  }

  predicate InodeStems(puts: set<PutCall>, i: Inode) {
    i.owner in puts && i.owner.Path() == i.path && i.bytes <= Encode(i.owner.value)
  }

  predicate DiskStems(puts: set<PutCall>, d: Disk) {
    Linked(d) && forall i :: 0 <= i < |d.inodes| ==> InodeStems(puts, d.inodes[i])
  }

  /** A reader holds a first part of its file, a writer has written a first part of its object. */
  predicate TaskStems(puts: set<PutCall>, torn: set<string>, d: Disk, t: Task) {
    && '/' !in t.Key() && (t.IsPut() ==> t.call in puts)
    && (t.GetFilling? || t.GetLeaving? ==> AnswerStems(puts, torn, t.key, t.answer))
    && (t.GetReading? ==>
          && t.handle < |d.inodes| && d.inodes[t.handle].path == t.Path()
          && t.got <= d.inodes[t.handle].bytes)
    && (t.PutWriting? ==> WriterStems(d, t))
  }

  predicate WriterStems(d: Disk, t: Task)
    requires t.PutWriting?
  {
    && t.handle < |d.inodes| && d.inodes[t.handle].owner == t.call && t.at <= |Encode(t.call.value)|
    && d.inodes[t.handle].bytes == Encode(t.call.value)[..t.at]
  }

  predicate LoneWriters(tasks: map<nat, Task>) {
    forall i, j :: i in tasks && j in tasks && i != j && tasks[i].PutWriting? && tasks[j].PutWriting? ==>
      tasks[i].handle != tasks[j].handle
  }

  predicate PutsFit(puts: set<PutCall>) {
    forall c :: c in puts ==> '/' !in c.key && Encodable(c.value)
  }

  predicate MemoryStems(puts: set<PutCall>, torn: set<string>, memory: map<string, CacheObject>) {
    forall k :: k in memory ==> Stems(puts, torn, k, memory[k])
  }

  predicate TasksStem(puts: set<PutCall>, torn: set<string>, d: Disk, tasks: map<nat, Task>) {
    LoneWriters(tasks) && forall id :: id in tasks ==> TaskStems(puts, torn, d, tasks[id])
  }

  predicate RepliesStem(puts: set<PutCall>, torn: set<string>, replies: seq<Reply>) {
    forall i :: 0 <= i < |replies| ==> AnswerStems(puts, torn, replies[i].key, replies[i].answer)
  }

  predicate Stemming(s: State) {
    && PutsFit(s.puts) && DiskStems(s.puts, s.shared.disk)
    && MemoryStems(s.puts, s.torn, s.shared.memory)
    && TasksStem(s.puts, s.torn, s.shared.disk, s.tasks)
    && RepliesStem(s.puts, s.torn, s.replies)
  }

  /** What stems from the past stems from a longer past. */
  lemma StillStems(puts: set<PutCall>, torn: set<string>, puts': set<PutCall>, torn': set<string>, key: string,
                   a: F.Answer)
    requires puts <= puts' && torn <= torn' && AnswerStems(puts, torn, key, a)
    ensures AnswerStems(puts', torn', key, a)
  {
    if a.Found? {
      var c :| c in puts && c.key == key && CutFrom(a.value, c.value) && (key !in torn ==> a.value == c.value);
      assert c in puts';
    }
  }

  lemma StemsOver(s: State, puts: set<PutCall>, torn: set<string>)
    requires Stemming(s) && s.puts <= puts && s.torn <= torn && PutsFit(puts)
    ensures Stemming(s.(puts := puts, torn := torn))
  {
    forall k | k in s.shared.memory
      ensures Stems(puts, torn, k, s.shared.memory[k])
    {
      StillStems(s.puts, s.torn, puts, torn, k, F.Found(s.shared.memory[k]));
    }
    forall id | id in s.tasks
      ensures TaskStems(puts, torn, s.shared.disk, s.tasks[id])
    {
      var t := s.tasks[id];
      if t.GetFilling? || t.GetLeaving? {
        StillStems(s.puts, s.torn, puts, torn, t.key, t.answer);
      }
    }
    forall i | 0 <= i < |s.replies|
      ensures AnswerStems(puts, torn, s.replies[i].key, s.replies[i].answer)
    {
      StillStems(s.puts, s.torn, puts, torn, s.replies[i].key, s.replies[i].answer);
    }
  }

  // ---------------------------------------------------------------------------------------------
  // One action
  // ---------------------------------------------------------------------------------------------

  /** A write of the bytes after those that are there. */
  lemma WriteGoesOn(puts: set<PutCall>, torn: set<string>, d: Disk, t: Task, access: Access)
    requires t.PutWriting? && TaskStems(puts, torn, d, t) && access.Goes? && t.at < |Encode(t.call.value)|
    ensures var next, h := Onward(t.at, access, |Encode(t.call.value)|), t.handle;
      var d' := DiskAfter(d, t, access);
      && d' == d.(inodes := d.inodes[h := d.inodes[h].(bytes := Encode(t.call.value)[..next])])
      && d.inodes[h].bytes <= d'.inodes[h].bytes
  {
    AppendNext(Encode(t.call.value), t.at, Onward(t.at, access, |Encode(t.call.value)|));
  }

  lemma DiskKeeps(puts: set<PutCall>, torn: set<string>, d: Disk, t: Task, access: Access)
    requires DiskStems(puts, d) && TaskStems(puts, torn, d, t)
    ensures DiskStems(puts, DiskAfter(d, t, access))
  {
    if t.PutWriting? && access.Goes? && t.at < |Encode(t.call.value)| {
      WriteGoesOn(puts, torn, d, t, access);
    }
  }

  /** The other tasks do not notice, unless their file was emptied. */
  lemma OthersKeep(puts: set<PutCall>, torn: set<string>, d: Disk, t: Task, access: Access, u: Task)
    requires DiskStems(puts, d) && TaskStems(puts, torn, d, t) && TaskStems(puts, torn, d, u)
    requires t.PutOpening? && access.Goes? && t.Path() in d.links ==> !u.Holds(d.links[t.Path()])
    requires t.PutWriting? && u.PutWriting? ==> t.handle != u.handle
    ensures TaskStems(puts, torn, DiskAfter(d, t, access), u)
  {
    if t.PutWriting? && access.Goes? && t.at < |Encode(t.call.value)| {
      WriteGoesOn(puts, torn, d, t, access);
    }
  }

  /** Decoding a first part of what was written gives what was put, cut at most, or panics. */
  lemma ReadStems(puts: set<PutCall>, torn: set<string>, key: string, namespace: string, i: Inode)
    requires PutsFit(puts) && InodeStems(puts, i) && i.path == F.FilePath(key, namespace) && '/' !in key
    requires i.bytes == Encode(i.owner.value) || key in torn
    ensures AnswerStems(puts, torn, key, F.AnswerOf(Some(i.bytes)))
  {
    var c, b := i.owner, i.bytes;
    F.PathInjective(key, namespace, c.key, c.namespace);
    if |b| >= 8 {
      assert b == Encode(c.value)[..|b|];
      DecodePrefix(c.value, |b|);
      DecodeEncode(c.value);
      var a := F.AnswerOf(Some(b));
      if a.Found? {
        assert c in puts && c.key == key && CutFrom(a.value, c.value);
      }
    }
  }

  /** A read that ends holds all that is in the file. */
  lemma EndOfRead(puts: set<PutCall>, torn: set<string>, sh: Shared, t: Task, access: Access)
    requires PutsFit(puts) && DiskStems(puts, sh.disk) && TaskStems(puts, torn, sh.disk, t)
    requires access.Goes? && AtEnd(sh.disk, t) && Tears(sh, t, access) <= torn
    ensures AnswerStems(puts, torn, t.key, F.AnswerOf(Some(t.got)))
  {
    var i := sh.disk.inodes[t.handle];
    assert t.got == i.bytes;
    ReadStems(puts, torn, t.key, t.namespace, i);
  }

  lemma ReadingStems(cfg: F.Config, puts: set<PutCall>, torn: set<string>, sh: Shared, t: Task, access: Access)
    requires PutsFit(puts) && DiskStems(puts, sh.disk) && TaskStems(puts, torn, sh.disk, t) && t.GetReading?
    requires Tears(sh, t, access) <= torn
    ensures TaskStems(puts, torn, sh.disk, NextOfGet(cfg, sh, t, access).value)
  {
    if access.Goes? && AtEnd(sh.disk, t) {
      EndOfRead(puts, torn, sh, t, access);
    }
  }

  lemma NextGetStems(cfg: F.Config, puts: set<PutCall>, torn: set<string>, sh: Shared, t: Task, access: Access)
    requires PutsFit(puts) && DiskStems(puts, sh.disk) && TaskStems(puts, torn, sh.disk, t) && !t.IsPut()
    requires Tears(sh, t, access) <= torn
    ensures var next := NextOfGet(cfg, sh, t, access);
      next.Some? ==> TaskStems(puts, torn, sh.disk, next.value)
  {
    if t.GetReading? {
      ReadingStems(cfg, puts, torn, sh, t, access);
    }
  }

  lemma NextPutStems(cfg: F.Config, puts: set<PutCall>, torn: set<string>, sh: Shared, t: Task, access: Access)
    requires DiskStems(puts, sh.disk) && TaskStems(puts, torn, sh.disk, t) && t.IsPut()
    ensures var next := NextOfPut(cfg, sh, t, access);
      next.Some? ==> TaskStems(puts, torn, DiskAfter(sh.disk, t, access), next.value)
  {
    if t.PutWriting? && access.Goes? && t.at < |Encode(t.call.value)| {
      WriteGoesOn(puts, torn, sh.disk, t, access);
    }
  }

  lemma NextStems(cfg: F.Config, puts: set<PutCall>, torn: set<string>, sh: Shared, t: Task, access: Access)
    requires PutsFit(puts) && DiskStems(puts, sh.disk) && TaskStems(puts, torn, sh.disk, t)
    requires Tears(sh, t, access) <= torn
    ensures var next := NextTask(cfg, sh, t, access);
      next.Some? ==> TaskStems(puts, torn, DiskAfter(sh.disk, t, access), next.value)
  {
    if t.IsPut() {
      NextPutStems(cfg, puts, torn, sh, t, access);
    } else {
      NextGetStems(cfg, puts, torn, sh, t, access);
    }
  }

  lemma MemoryKeeps(cfg: F.Config, puts: set<PutCall>, torn: set<string>, sh: Shared, t: Task)
    requires MemoryStems(puts, torn, sh.memory) && TaskStems(puts, torn, sh.disk, t)
    ensures MemoryStems(puts, torn, MemoryAfter(cfg, sh.memory, t))
    ensures forall i :: 0 <= i < |Received(cfg, sh, t)| ==>
      AnswerStems(puts, torn, Received(cfg, sh, t)[i].key, Received(cfg, sh, t)[i].answer)
  {
    if t.PutStart? {
      assert CutFrom(t.call.value, t.call.value);
      assert Stems(puts, torn, t.call.key, t.call.value);
    }
  }

  /** A writer has kept its handle, or has just opened its file. */
  lemma WriterHandle(cfg: F.Config, sh: Shared, t: Task, access: Access)
    ensures var next := NextTask(cfg, sh, t, access);
      next.Some? && next.value.PutWriting? ==>
        if t.PutWriting? then next.value.handle == t.handle
        else t.PutOpening? && access.Goes? && next.value.handle == HandleFor(sh.disk, t.Path())
  {
  }

  /** No two writers end up on one inode. */
  lemma WritersStayAlone(cfg: F.Config, s: State, id: nat, access: Access)
    requires Stemming(s) && id in s.tasks && !Clobbers(s, Move(id, access))
    ensures LoneWriters(Replace(s.tasks, id, NextTask(cfg, s.shared, s.tasks[id], access)))
  {
    var t, d := s.tasks[id], s.shared.disk;
    var next := NextTask(cfg, s.shared, t, access);
    WriterHandle(cfg, s.shared, t, access);
    forall j | j in s.tasks && j != id && s.tasks[j].PutWriting? && next.Some? && next.value.PutWriting?
      ensures s.tasks[j].handle != next.value.handle
    {
      assert TaskStems(s.puts, s.torn, d, s.tasks[j]);
      if t.PutOpening? && t.Path() in d.links {
        assert !s.tasks[j].Holds(d.links[t.Path()]);
      }
    }
  }

  lemma TasksKeep(cfg: F.Config, s: State, id: nat, access: Access)
    requires Stemming(s) && id in s.tasks && !Clobbers(s, Move(id, access))
    requires Tears(s.shared, s.tasks[id], access) <= s.torn
    ensures var t := s.tasks[id];
      TasksStem(s.puts, s.torn, DiskAfter(s.shared.disk, t, access),
        Replace(s.tasks, id, NextTask(cfg, s.shared, t, access)))
  {
    var t := s.tasks[id];
    var next := NextTask(cfg, s.shared, t, access);
    WritersStayAlone(cfg, s, id, access);
    NextStems(cfg, s.puts, s.torn, s.shared, t, access);
    forall j | j in s.tasks && j != id
      ensures TaskStems(s.puts, s.torn, DiskAfter(s.shared.disk, t, access), s.tasks[j])
    {
      OthersKeep(s.puts, s.torn, s.shared.disk, t, access, s.tasks[j]);
    }
  }

  lemma MoveStems(cfg: F.Config, s: State, id: nat, access: Access)
    requires Stemming(s) && id in s.tasks && !Clobbers(s, Move(id, access))
    requires Tears(s.shared, s.tasks[id], access) <= s.torn
    ensures Stemming(Step(cfg, s, Move(id, access)))
  {
    DiskKeeps(s.puts, s.torn, s.shared.disk, s.tasks[id], access);
    MemoryKeeps(cfg, s.puts, s.torn, s.shared, s.tasks[id]);
    TasksKeep(cfg, s, id, access);
    assert s.torn + Tears(s.shared, s.tasks[id], access) == s.torn;
  }

  lemma SpawnStems(cfg: F.Config, s: State, id: nat, t: Task)
    requires Stemming(s) && id !in s.tasks && Starts(t) && '/' !in t.Key() && (t.IsPut() ==> t.call in s.puts)
    ensures Stemming(s.(tasks := s.tasks[id := t]))
  {
  }

  lemma DropStems(cfg: F.Config, s: State, id: nat)
    requires Stemming(s) && id in s.tasks && Waits(s.tasks[id])
    ensures Stemming(Step(cfg, s, Drop(id)))
  {
    var t, s' := s.tasks[id], Step(cfg, s, Drop(id));
    assert TaskStems(s.puts, s.torn, s.shared.disk, t);
    assert s'.shared.disk == s.shared.disk && s'.shared.memory == s.shared.memory;
    forall j | j in s'.tasks
      ensures TaskStems(s.puts, s.torn, s.shared.disk, s'.tasks[j])
    {
      if j != id {
        assert s'.tasks[j] == s.tasks[j];
      }
    }
    forall i, j | i in s'.tasks && j in s'.tasks && i != j && s'.tasks[i].PutWriting? && s'.tasks[j].PutWriting?
      ensures s'.tasks[i].handle != s'.tasks[j].handle
    {
      assert s.tasks[i].PutWriting? && s.tasks[i].handle == s'.tasks[i].handle;
      assert s.tasks[j].PutWriting? && s.tasks[j].handle == s'.tasks[j].handle;
    }
  }

  lemma StepStems(cfg: F.Config, s: State, e: Event)
    requires Stemming(s) && Fits(e) && !Clobbers(s, e)
    ensures Stemming(Step(cfg, s, e))
  {
    if Applies(s, e) {
      match e
      case Spawn(id, t) =>
        var puts := if t.PutStart? then s.puts + {t.call} else s.puts;
        StemsOver(s, puts, s.torn);
        SpawnStems(cfg, s.(puts := puts), id, t);
      case Move(id, access) =>
        var torn := s.torn + Tears(s.shared, s.tasks[id], access);
        StemsOver(s, s.puts, torn);
        MoveStems(cfg, s.(torn := torn), id, access);
        assert torn + Tears(s.shared, s.tasks[id], access) == torn;
      case Drop(id) => DropStems(cfg, s, id);
      case Evict(key) =>
      case Clear(paths) =>
    }
  }

  lemma {:induction false} RunStems(cfg: F.Config, events: seq<Event>)
    requires AllFit(events) && Unclobbered(cfg, events)
    ensures Stemming(Run(cfg, events))
  {
    if events != [] {
      var rest := events[..|events| - 1];
      RunStems(cfg, rest);
      StepStems(cfg, Run(cfg, rest), events[|events| - 1]);
    }
  }

  /**
    In every interleaving in which no put opens a file that another call is reading or writing: an
    object that a get returned was put before under the same key, metadata and all, and unless some
    read of that key ended on a file that was not whole, it is that object to the last byte; a get
    aborts its task only after such a read.
   */
  lemma GetReturnsWhatWasPut(cfg: F.Config, events: seq<Event>, i: nat)
    requires AllFit(events) && Unclobbered(cfg, events)
    requires i < |Run(cfg, events).replies|
    ensures var s := Run(cfg, events);
      var key, answer := s.replies[i].key, s.replies[i].answer;
      && (answer.Found? ==> exists c :: && c in s.puts && c.key == key && CutFrom(answer.value, c.value)
                                        && (key !in s.torn ==> answer.value == c.value))
      && (answer.Panicked? ==> key in s.torn)
  {
    RunStems(cfg, events);
    var s := Run(cfg, events);
    assert AnswerStems(s.puts, s.torn, s.replies[i].key, s.replies[i].answer);
    if s.replies[i].answer.Found? {
      assert Stems(s.puts, s.torn, s.replies[i].key, s.replies[i].answer.value);
    }
  }

  /** Every put under way, and every put that last opened a file, was made. */
  predicate Owned(s: State) {
    && PutsFit(s.puts)
    && (forall id :: id in s.tasks && s.tasks[id].IsPut() ==> s.tasks[id].call in s.puts)
    && (forall i :: 0 <= i < |s.shared.disk.inodes| ==> s.shared.disk.inodes[i].owner in s.puts)
  }

  lemma OwnedStep(cfg: F.Config, s: State, e: Event)
    requires Owned(s) && Fits(e)
    ensures Owned(Step(cfg, s, e))
  {
  }

  lemma {:induction false} OwnedRun(cfg: F.Config, events: seq<Event>)
    requires AllFit(events)
    ensures Owned(Run(cfg, events))
  {
    if events != [] {
      var rest := events[..|events| - 1];
      OwnedRun(cfg, rest);
      OwnedStep(cfg, Run(cfg, rest), events[|events| - 1]);
    }
  }

  /** In every interleaving, a file that is whole decodes to the object of the put that last opened it. */
  lemma WholeFilesDecode(cfg: F.Config, events: seq<Event>, path: string)
    requires AllFit(events)
    requires var d := Run(cfg, events).shared.disk; path in d.links && Whole(d, d.links[path])
    ensures var d := Run(cfg, events).shared.disk;
      && F.AnswerOf(Content(d, path)) == F.Found(d.inodes[d.links[path]].owner.value)
      && d.inodes[d.links[path]].owner in Run(cfg, events).puts
  {
    OwnedRun(cfg, events);
    var d := Run(cfg, events).shared.disk;
    var c := d.inodes[d.links[path]].owner;
    DecodeEncode(c.value);
    HeaderWords(c.value);
  }
}
