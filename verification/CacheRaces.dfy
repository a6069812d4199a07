/**
  Runs of overlapping calls of pingap-cache/src/file.rs in which the cache does not hold what was
  put, and the exact condition in each.
 */
module CacheRaces {
  import opened Wrappers
  import opened CacheCodec
  import opened CacheDisk
  import F = FileCache
  import opened CacheTasks

  /** A run in which `id` then makes `n` moves, with at most `size` bytes each. */
  function Moved(events: seq<Event>, id: nat, n: nat, size: nat): seq<Event> {
    if n == 0 then events else Moved(events, id, n - 1, size) + [Move(id, Goes(size))]
  }

  /** The run leads to `sh`, with the task `t` beside the others. */
  predicate Leads(cfg: F.Config, events: seq<Event>, sh: Shared, tasks: map<nat, Task>, id: nat, t: Task) {
    Run(cfg, events).shared == sh && Run(cfg, events).tasks == tasks[id := t]
  }

  /** The run leads to `sh`, with these tasks. */
  predicate Ends(cfg: F.Config, events: seq<Event>, sh: Shared, tasks: map<nat, Task>) {
    Run(cfg, events).shared == sh && Run(cfg, events).tasks == tasks
  }

  lemma RunPush(cfg: F.Config, events: seq<Event>, e: Event)
    ensures Run(cfg, events + [e]) == Step(cfg, Run(cfg, events), e)
  {
    assert (events + [e])[..|events|] == events;
  }

  lemma SpawnOn(cfg: F.Config, events: seq<Event>, id: nat, t: Task, sh: Shared, tasks: map<nat, Task>)
    requires Ends(cfg, events, sh, tasks) && id !in tasks && Starts(t)
    ensures Leads(cfg, events + [Spawn(id, t)], sh, tasks, id, t)
  {
    RunPush(cfg, events, Spawn(id, t));
  }

  lemma MoveOn(cfg: F.Config, events: seq<Event>, size: nat, sh: Shared, tasks: map<nat, Task>, id: nat, t: Task,
               next: Task)
    requires Leads(cfg, events, sh, tasks, id, t) && NextTask(cfg, sh, t, Goes(size)) == Some(next)
    ensures Leads(cfg, events + [Move(id, Goes(size))], Effect(cfg, sh, t, Goes(size)), tasks, id, next)
  {
    RunPush(cfg, events, Move(id, Goes(size)));
    assert tasks[id := t][id := next] == tasks[id := next];
  }

  lemma MoveOut(cfg: F.Config, events: seq<Event>, size: nat, sh: Shared, tasks: map<nat, Task>, id: nat, t: Task)
    requires Leads(cfg, events, sh, tasks, id, t) && NextTask(cfg, sh, t, Goes(size)) == None && id !in tasks
    ensures Ends(cfg, events + [Move(id, Goes(size))], Effect(cfg, sh, t, Goes(size)), tasks)
  {
    RunPush(cfg, events, Move(id, Goes(size)));
    assert tasks[id := t] - {id} == tasks;
  }

  function Remembered(cfg: F.Config, sh: Shared, c: PutCall): Shared {
    if F.Remembers(cfg, c.value) then sh.(memory := sh.memory[c.key := c.value]) else sh
  }

  /** A put that is let in, up to the point where it opens its file. */
  lemma PutEnters(cfg: F.Config, events: seq<Event>, size: nat, sh: Shared, tasks: map<nat, Task>, id: nat, c: PutCall)
    requires Leads(cfg, events, sh, tasks, id, PutStart(c)) && F.WithinQuota(cfg.writingMax, sh.writing)
    ensures Leads(cfg, Moved(events, id, 3, size), Remembered(cfg, sh, c).(writing := Increment(sh.writing)),
                  tasks, id, PutOpening(c, true))
  {
    var sh1 := Remembered(cfg, sh, c);
    var sh2 := sh1.(writing := Increment(sh.writing));
    MoveOn(cfg, events, size, sh, tasks, id, PutStart(c), PutRemembered(c));
    assert Leads(cfg, Moved(events, id, 1, size), sh1, tasks, id, PutRemembered(c));
    MoveOn(cfg, Moved(events, id, 1, size), size, sh1, tasks, id, PutRemembered(c), PutCounted(c, sh.writing));
    assert Leads(cfg, Moved(events, id, 2, size), sh2, tasks, id, PutCounted(c, sh.writing));
    MoveOn(cfg, Moved(events, id, 2, size), size, sh2, tasks, id, PutCounted(c, sh.writing), PutOpening(c, true));
  }

  lemma PutOpens(cfg: F.Config, events: seq<Event>, size: nat, sh: Shared, tasks: map<nat, Task>, id: nat, c: PutCall)
    requires Leads(cfg, events, sh, tasks, id, PutOpening(c, true))
    ensures Leads(cfg, Moved(events, id, 1, size), sh.(disk := Opened(sh.disk, c)),
                  tasks, id, PutWriting(c, true, HandleFor(sh.disk, c.Path()), 0))
  {
    MoveOn(cfg, events, size, sh, tasks, id, PutOpening(c, true), PutWriting(c, true, HandleFor(sh.disk, c.Path()), 0));
    assert Moved(events, id, 0, size) == events;
  }

  /** The whole object in one write. */
  lemma PutWrites(cfg: F.Config, events: seq<Event>, size: nat, sh: Shared, tasks: map<nat, Task>, id: nat,
                  c: PutCall, handle: nat)
    requires Leads(cfg, events, sh, tasks, id, PutWriting(c, true, handle, 0)) && size >= |Encode(c.value)| > 0
    ensures Leads(cfg, Moved(events, id, 1, size), sh.(disk := WrittenAt(sh.disk, handle, 0, Encode(c.value))),
                  tasks, id, PutWriting(c, true, handle, |Encode(c.value)|))
  {
    var data := Encode(c.value);
    assert data[0..|data|] == data;
    MoveOn(cfg, events, size, sh, tasks, id, PutWriting(c, true, handle, 0), PutWriting(c, true, handle, |data|));
    assert Moved(events, id, 0, size) == events;
  }

  lemma PutLeaves(cfg: F.Config, events: seq<Event>, size: nat, sh: Shared, tasks: map<nat, Task>, id: nat,
                  c: PutCall, handle: nat)
    requires Leads(cfg, events, sh, tasks, id, PutWriting(c, true, handle, |Encode(c.value)|)) && id !in tasks
    ensures Ends(cfg, Moved(events, id, 2, size), sh.(writing := Decrement(sh.writing)), tasks)
  {
    MoveOn(cfg, events, size, sh, tasks, id, PutWriting(c, true, handle, |Encode(c.value)|), PutLeaving(c));
    assert Leads(cfg, Moved(events, id, 1, size), sh, tasks, id, PutLeaving(c));
    MoveOut(cfg, Moved(events, id, 1, size), size, sh, tasks, id, PutLeaving(c));
  }

  lemma EncodedSize(o: CacheObject)
    ensures |Encode(o)| == 8 + |o.meta0| + |o.meta1| + |o.body|
  {
    HeaderWords(o);
  }

  // ---------------------------------------------------------------------------------------------
  // Two puts of one key
  // ---------------------------------------------------------------------------------------------

  /** What is left in the file when the second text is written over the first one. */
  function Mixed(x: Bytes, y: Bytes): Bytes {
    y + if |y| < |x| then x[|y|..] else []
  }

  /** Two files opened one after the other under one path are one file. */
  lemma OneInode(a: PutCall, b: PutCall)
    requires a.Path() == b.Path()
    ensures HandleFor(Opened(EMPTY_DISK, a), b.Path()) == 0
    ensures Opened(Opened(EMPTY_DISK, a), b) == Disk(map[b.Path() := 0], [Inode(b.Path(), b, [])])
  {
  }

  lemma WriteOver(path: string, owner: PutCall, x: Bytes, y: Bytes)
    ensures var d := Disk(map[path := 0], [Inode(path, owner, [])]);
      Content(WrittenAt(WrittenAt(d, 0, 0, x), 0, 0, y), path) == Some(Mixed(x, y))
  {
    assert Overlay([], 0, x) == x;
    assert Overlay(x, 0, y) == Mixed(x, y);
  }

  lemma MixedDecodes(x: Bytes, b: CacheObject)
    requires Encodable(b)
    ensures var tail := if |Encode(b)| < |x| then x[|Encode(b)|..] else [];
      F.AnswerOf(Some(Mixed(x, Encode(b)))) == F.Found(b.(body := b.body + tail))
  {
    var o := b.(body := b.body + if |Encode(b)| < |x| then x[|Encode(b)|..] else []);
    assert Encode(o) == Mixed(x, Encode(b));
    DecodeEncode(o);
    HeaderWords(o);
  }

  lemma MixedIsEither(x: Bytes, y: Bytes)
    ensures Mixed(x, y) == x || Mixed(x, y) == y <==> |x| <= |y| || y <= x
  {
    if |y| < |x| {
      assert |Mixed(x, y)| == |x|;
      if Mixed(x, y) == x {
        assert x[..|y|] == y;
      }
      if y <= x {
        assert x == x[..|y|] + x[|y|..];
      }
    }
  }

  /** No access has to stop half-way. */
  function Enough(a: PutCall, b: PutCall): nat {
    |Encode(a.value)| + |Encode(b.value)|
  }

  /** Both puts open the file before either writes. */
  function OpenBoth(a: PutCall, b: PutCall, size: nat): seq<Event> {
    var spawned := [Spawn(0, PutStart(a))] + [Spawn(1, PutStart(b))];
    Moved(Moved(Moved(Moved(spawned, 0, 3, size), 1, 3, size), 0, 1, size), 1, 1, size)
  }

  function OverlapEvents(a: PutCall, b: PutCall, size: nat): seq<Event> {
    Moved(Moved(Moved(Moved(OpenBoth(a, b, size), 0, 1, size), 1, 1, size), 0, 2, size), 1, 2, size)
  }

  lemma OpenBothRuns(cfg: F.Config, a: PutCall, b: PutCall, size: nat) returns (sh: Shared)
    requires a.Path() == b.Path() && F.WithinQuota(cfg.writingMax, 1)
    ensures sh.disk == Disk(map[b.Path() := 0], [Inode(b.Path(), b, [])])
    ensures Ends(cfg, OpenBoth(a, b, size), sh, map[0 := PutWriting(a, true, 0, 0), 1 := PutWriting(b, true, 0, 0)])
  {
    var sh0 := INITIAL.shared;
    var e1 := [Spawn(0, PutStart(a))];
    SpawnOn(cfg, [], 0, PutStart(a), sh0, map[]);
    assert [] + e1 == e1;
    var e2 := e1 + [Spawn(1, PutStart(b))];
    SpawnOn(cfg, e1, 1, PutStart(b), sh0, map[0 := PutStart(a)]);
    SwapTasks(cfg, e2, sh0, PutStart(a), PutStart(b));
    PutEnters(cfg, e2, size, sh0, map[1 := PutStart(b)], 0, a);
    var e3, sh3 := Moved(e2, 0, 3, size), Remembered(cfg, sh0, a).(writing := 1);
    SwapTasks(cfg, e3, sh3, PutOpening(a, true), PutStart(b));
    PutEnters(cfg, e3, size, sh3, map[0 := PutOpening(a, true)], 1, b);
    var e4, sh4 := Moved(e3, 1, 3, size), Remembered(cfg, sh3, b).(writing := 2);
    SwapTasks(cfg, e4, sh4, PutOpening(a, true), PutOpening(b, true));
    PutOpens(cfg, e4, size, sh4, map[1 := PutOpening(b, true)], 0, a);
    var e5, sh5 := Moved(e4, 0, 1, size), sh4.(disk := Opened(sh4.disk, a));
    SwapTasks(cfg, e5, sh5, PutWriting(a, true, 0, 0), PutOpening(b, true));
    OneInode(a, b);
    PutOpens(cfg, e5, size, sh5, map[0 := PutWriting(a, true, 0, 0)], 1, b);
    sh := sh5.(disk := Opened(sh5.disk, b));
    SwapTasks(cfg, OpenBoth(a, b, size), sh, PutWriting(a, true, 0, 0), PutWriting(b, true, 0, 0));
  }

  /** The tasks 0 and 1, whichever of them is looked at. */
  lemma SwapTasks(cfg: F.Config, events: seq<Event>, sh: Shared, t: Task, u: Task)
    ensures Leads(cfg, events, sh, map[0 := t], 1, u) <==> Ends(cfg, events, sh, map[0 := t, 1 := u])
    ensures Leads(cfg, events, sh, map[1 := u], 0, t) <==> Ends(cfg, events, sh, map[0 := t, 1 := u])
  {
    assert map[0 := t][1 := u] == map[0 := t, 1 := u] == map[1 := u][0 := t];
  }

  lemma OverlapRuns(cfg: F.Config, a: PutCall, b: PutCall, size: nat)
    requires a.Path() == b.Path() && F.WithinQuota(cfg.writingMax, 1)
    requires size >= |Encode(a.value)| && size >= |Encode(b.value)|
    ensures var s := Run(cfg, OverlapEvents(a, b, size));
      s.tasks == map[] && Content(s.shared.disk, a.Path()) == Some(Mixed(Encode(a.value), Encode(b.value)))
  {
    var x, y := Encode(a.value), Encode(b.value);
    EncodedSize(a.value);
    EncodedSize(b.value);
    var e0 := OpenBoth(a, b, size);
    var sh := OpenBothRuns(cfg, a, b, size);
    SwapTasks(cfg, e0, sh, PutWriting(a, true, 0, 0), PutWriting(b, true, 0, 0));
    PutWrites(cfg, e0, size, sh, map[1 := PutWriting(b, true, 0, 0)], 0, a, 0);
    var e1, sh1 := Moved(e0, 0, 1, size), sh.(disk := WrittenAt(sh.disk, 0, 0, x));
    SwapTasks(cfg, e1, sh1, PutWriting(a, true, 0, |x|), PutWriting(b, true, 0, 0));
    PutWrites(cfg, e1, size, sh1, map[0 := PutWriting(a, true, 0, |x|)], 1, b, 0);
    var e2, sh2 := Moved(e1, 1, 1, size), sh1.(disk := WrittenAt(sh1.disk, 0, 0, y));
    SwapTasks(cfg, e2, sh2, PutWriting(a, true, 0, |x|), PutWriting(b, true, 0, |y|));
    PutLeaves(cfg, e2, size, sh2, map[1 := PutWriting(b, true, 0, |y|)], 0, a, 0);
    var e3, sh3 := Moved(e2, 0, 2, size), sh2.(writing := Decrement(sh2.writing));
    assert map[1 := PutWriting(b, true, 0, |y|)] == map[][1 := PutWriting(b, true, 0, |y|)];
    PutLeaves(cfg, e3, size, sh3, map[], 1, b, 0);
    WriteOver(b.Path(), b, x, y);
  }

  /**
    The schedule in which the first put writes its whole text and then the second does: a get finds
    the metadata of the second, with a body that was never put if the first text is longer.
   */
  lemma OneAfterAnother(cfg: F.Config, a: PutCall, b: PutCall)
    requires a.Path() == b.Path() && F.WithinQuota(cfg.writingMax, 1) && Encodable(b.value)
    ensures var s := Run(cfg, OverlapEvents(a, b, Enough(a, b)));
      && s.tasks == map[] && Content(s.shared.disk, a.Path()).Some?
      && var bytes, x, y := Content(s.shared.disk, a.Path()).value, Encode(a.value), Encode(b.value);
         && (bytes == x || bytes == y <==> |x| <= |y| || y <= x)
         && F.AnswerOf(Some(bytes)) == F.Found(b.value.(body := b.value.body + if |y| < |x| then x[|y|..] else []))
  {
    OverlapRuns(cfg, a, b, Enough(a, b));
    MixedIsEither(Encode(a.value), Encode(b.value));
    MixedDecodes(Encode(a.value), b.value);
  }

  // ---------------------------------------------------------------------------------------------
  // A get that is overtaken
  // ---------------------------------------------------------------------------------------------

  predicate Concerns(e: Event, id: nat) {
    (e.Move? || e.Drop?) && e.id == id
  }

  /** A task stands still while no event concerns it. */
  lemma {:induction false} StandsStill(cfg: F.Config, events: seq<Event>, id: nat, n: nat, m: nat)
    requires n <= m <= |events| && id in Run(cfg, events[..n]).tasks
    requires forall k :: n <= k < m ==> !Concerns(events[k], id)
    ensures id in Run(cfg, events[..m]).tasks && Run(cfg, events[..m]).tasks[id] == Run(cfg, events[..n]).tasks[id]
  {
    if n < m {
      StandsStill(cfg, events, id, n, m - 1);
      assert events[..m][..m - 1] == events[..m - 1];
    }
  }

  /** Two files are read as the same object only if they hold the same bytes. */
  lemma SameObject(x: Bytes, y: Option<Bytes>)
    requires F.AnswerOf(Some(x)).Found?
    ensures F.AnswerOf(y) == F.AnswerOf(Some(x)) <==> y == Some(x)
  {
    EncodeDecode(x);
    if F.AnswerOf(y).Found? {
      EncodeDecode(y.value);
    }
  }

  /** The action of event `n` ends a read with an object; that of event `m` fills the memory tier with it. */
  predicate ReadsThenFills(cfg: F.Config, events: seq<Event>, id: nat, n: nat, m: nat) {
    && n < m < |events| && events[n].Move? && events[n].id == id && events[n].access.Goes?
    && events[m].Move? && events[m].id == id && (forall k :: n < k < m ==> !Concerns(events[k], id))
    && var s := Run(cfg, events[..n]);
       id in s.tasks && AtEnd(s.shared.disk, s.tasks[id]) && F.AnswerOf(Some(s.tasks[id].got)).Found?
  }

  /**
    What a get has read is served from the memory tier after its fill. The file says the same exactly
    when at that moment it holds the bytes that were read: if it held them when the read ended,
    exactly when no put, removal or clear has changed its content in between.
   */
  lemma FillExact(cfg: F.Config, events: seq<Event>, id: nat, n: nat, m: nat)
    requires cfg.tiered && ReadsThenFills(cfg, events, id, n, m)
    ensures var s, before, after := Run(cfg, events[..n]).shared, Run(cfg, events[..m]).shared,
            Run(cfg, events[..m + 1]).shared;
      var t := Run(cfg, events[..n]).tasks[id];
      var served := F.AnswerOf(Some(t.got));
      && t.key in after.memory && served == F.Found(after.memory[t.key])
      && (F.AnswerOf(Content(after.disk, t.Path())) == served <==> Content(before.disk, t.Path()) == Some(t.got))
      && (Content(s.disk, t.Path()) == Some(t.got) ==>
           (F.AnswerOf(Content(after.disk, t.Path())) == served <==>
             Content(before.disk, t.Path()) == Content(s.disk, t.Path())))
  {
    var t := Run(cfg, events[..n]).tasks[id];
    RunPush(cfg, events[..n], events[n]);
    assert events[..n] + [events[n]] == events[..n + 1];
    StandsStill(cfg, events, id, n + 1, m);
    RunPush(cfg, events[..m], events[m]);
    assert events[..m] + [events[m]] == events[..m + 1];
    SameObject(t.got, Content(Run(cfg, events[..m]).shared.disk, t.Path()));
  }

  /** A put on its own, from its start to its end. */
  function PutEvents(events: seq<Event>, id: nat, c: PutCall, size: nat): seq<Event> {
    Moved(Moved(Moved(Moved(events + [Spawn(id, PutStart(c))], id, 3, size), id, 1, size), id, 1, size), id, 2, size)
  }

  lemma PutRuns(cfg: F.Config, events: seq<Event>, size: nat, sh: Shared, tasks: map<nat, Task>, id: nat, c: PutCall)
    requires Ends(cfg, events, sh, tasks) && id !in tasks && F.WithinQuota(cfg.writingMax, sh.writing)
    requires size >= |Encode(c.value)|
    ensures var d := WrittenAt(Opened(sh.disk, c), HandleFor(sh.disk, c.Path()), 0, Encode(c.value));
      Ends(cfg, PutEvents(events, id, c, size),
        Remembered(cfg, sh, c).(disk := d, writing := Decrement(Increment(sh.writing))), tasks)
  {
    EncodedSize(c.value);
    var handle := HandleFor(sh.disk, c.Path());
    var e0 := events + [Spawn(id, PutStart(c))];
    SpawnOn(cfg, events, id, PutStart(c), sh, tasks);
    PutEnters(cfg, e0, size, sh, tasks, id, c);
    var e1, sh1 := Moved(e0, id, 3, size), Remembered(cfg, sh, c).(writing := Increment(sh.writing));
    PutOpens(cfg, e1, size, sh1, tasks, id, c);
    var e2, sh2 := Moved(e1, id, 1, size), sh1.(disk := Opened(sh1.disk, c));
    PutWrites(cfg, e2, size, sh2, tasks, id, c, handle);
    var e3, sh3 := Moved(e2, id, 1, size), sh2.(disk := WrittenAt(sh2.disk, handle, 0, Encode(c.value)));
    PutLeaves(cfg, e3, size, sh3, tasks, id, c, handle);
  }

  /** A get up to the point where it holds what it read. */
  function ReadEvents(events: seq<Event>, id: nat, key: string, namespace: string, size: nat): seq<Event> {
    Moved(Moved(events + [Spawn(id, GetStart(key, namespace))], id, 4, size), id, 2, size)
  }

  lemma ReadOpens(cfg: F.Config, events: seq<Event>, size: nat, sh: Shared, tasks: map<nat, Task>, id: nat,
                  key: string, namespace: string)
    requires Leads(cfg, events, sh, tasks, id, GetStart(key, namespace))
    requires key !in sh.memory && F.WithinQuota(cfg.readingMax, sh.reading)
    requires F.FilePath(key, namespace) in sh.disk.links
    ensures Leads(cfg, Moved(events, id, 4, size), sh.(reading := Increment(sh.reading)), tasks, id,
                  GetReading(key, namespace, sh.disk.links[F.FilePath(key, namespace)], []))
  {
    var handle, sh' := sh.disk.links[F.FilePath(key, namespace)], sh.(reading := Increment(sh.reading));
    MoveOn(cfg, Moved(events, id, 0, size), size, sh, tasks, id, GetStart(key, namespace), GetMissed(key, namespace));
    MoveOn(cfg, Moved(events, id, 1, size), size, sh, tasks, id, GetMissed(key, namespace),
      GetCounted(key, namespace, sh.reading));
    MoveOn(cfg, Moved(events, id, 2, size), size, sh', tasks, id, GetCounted(key, namespace, sh.reading),
      GetOpening(key, namespace));
    MoveOn(cfg, Moved(events, id, 3, size), size, sh', tasks, id, GetOpening(key, namespace),
      GetReading(key, namespace, handle, []));
  }

  lemma ReadsAll(cfg: F.Config, events: seq<Event>, size: nat, sh: Shared, tasks: map<nat, Task>, id: nat,
                 key: string, namespace: string, handle: nat)
    requires Leads(cfg, events, sh, tasks, id, GetReading(key, namespace, handle, []))
    requires size >= |BytesOf(sh.disk, handle)| > 0
    ensures Leads(cfg, Moved(events, id, 2, size), sh, tasks, id,
                  GetFilling(key, namespace, F.AnswerOf(Some(BytesOf(sh.disk, handle)))))
  {
    var bytes := BytesOf(sh.disk, handle);
    assert [] + bytes[0..|bytes|] == bytes;
    MoveOn(cfg, Moved(events, id, 0, size), size, sh, tasks, id, GetReading(key, namespace, handle, []),
           GetReading(key, namespace, handle, bytes));
    MoveOn(cfg, Moved(events, id, 1, size), size, sh, tasks, id, GetReading(key, namespace, handle, bytes),
           GetFilling(key, namespace, F.AnswerOf(Some(bytes))));
  }

  lemma ReadRuns(cfg: F.Config, events: seq<Event>, size: nat, sh: Shared, tasks: map<nat, Task>, id: nat,
                 key: string, namespace: string)
    requires Ends(cfg, events, sh, tasks) && id !in tasks
    requires key !in sh.memory && F.WithinQuota(cfg.readingMax, sh.reading)
    requires Content(sh.disk, F.FilePath(key, namespace)).Some?
    requires size >= |Content(sh.disk, F.FilePath(key, namespace)).value| > 0
    ensures Leads(cfg, ReadEvents(events, id, key, namespace, size), sh.(reading := Increment(sh.reading)), tasks, id,
                  GetFilling(key, namespace, F.AnswerOf(Content(sh.disk, F.FilePath(key, namespace)))))
  {
    var e := events + [Spawn(id, GetStart(key, namespace))];
    SpawnOn(cfg, events, id, GetStart(key, namespace), sh, tasks);
    ReadOpens(cfg, e, size, sh, tasks, id, key, namespace);
    ReadsAll(cfg, Moved(e, id, 4, size), size, sh.(reading := Increment(sh.reading)), tasks, id, key, namespace,
             sh.disk.links[F.FilePath(key, namespace)]);
  }

  lemma WrittenContent(d: Disk, c: PutCall)
    requires Linked(d)
    ensures var d' := WrittenAt(Opened(d, c), HandleFor(d, c.Path()), 0, Encode(c.value));
      Linked(d') && Content(d', c.Path()) == Some(Encode(c.value))
  {
    assert Overlay([], 0, Encode(c.value)) == Encode(c.value);
  }

  /** A put, an eviction, and a get up to its fill. */
  function ReadAgain(a: PutCall, size: nat): seq<Event> {
    ReadEvents(PutEvents([], 0, a, size) + [Evict(a.key)], 1, a.key, a.namespace, size)
  }

  /** Then a second put from start to end, and the fill. */
  function Overtaken(a: PutCall, b: PutCall, size: nat): seq<Event> {
    PutEvents(ReadAgain(a, size), 2, b, size) + [Move(1, Goes(size))]
  }

  lemma ReadAgainRuns(cfg: F.Config, a: PutCall, size: nat) returns (sh: Shared)
    requires Encodable(a.value) && size >= |Encode(a.value)|
    ensures Linked(sh.disk) && sh.writing == 0
    ensures Ends(cfg, ReadAgain(a, size), sh, map[1 := GetFilling(a.key, a.namespace, F.Found(a.value))])
  {
    EncodedSize(a.value);
    DecodeEncode(a.value);
    PutRuns(cfg, [], size, INITIAL.shared, map[], 0, a);
    WrittenContent(EMPTY_DISK, a);
    var e1 := PutEvents([], 0, a, size);
    var sh1 := Run(cfg, e1).shared;
    var sh2 := sh1.(memory := sh1.memory - {a.key});
    RunPush(cfg, e1, Evict(a.key));
    ReadRuns(cfg, e1 + [Evict(a.key)], size, sh2, map[], 1, a.key, a.namespace);
    sh := sh2.(reading := 1);
  }

  /** The last action of the run. */
  lemma LateFill(cfg: F.Config, events: seq<Event>, size: nat, sh: Shared, key: string, namespace: string,
                 o: CacheObject)
    requires cfg.tiered && Ends(cfg, events, sh, map[1 := GetFilling(key, namespace, F.Found(o))])
    ensures Ends(cfg, events + [Move(1, Goes(size))], sh.(memory := sh.memory[key := o]),
                 map[1 := GetLeaving(key, namespace, F.Found(o))])
  {
    RunPush(cfg, events, Move(1, Goes(size)));
  }

  /**
    In this run, from an empty cache, the first object is still served although the second put is
    over and its object is in the file.
   */
  lemma OvertakenGetServesOld(cfg: F.Config, a: PutCall, b: PutCall)
    requires cfg.tiered && a.key == b.key && a.namespace == b.namespace && Encodable(a.value)
    ensures var s := Run(cfg, Overtaken(a, b, Enough(a, b)));
      && s.tasks.Keys == {1} && Content(s.shared.disk, b.Path()) == Some(Encode(b.value))
      && a.key in s.shared.memory && s.shared.memory[a.key] == a.value
  {
    var size, reader := Enough(a, b), GetFilling(a.key, a.namespace, F.Found(a.value));
    var sh := ReadAgainRuns(cfg, a, size);
    PutRuns(cfg, ReadAgain(a, size), size, sh, map[1 := reader], 2, b);
    WrittenContent(sh.disk, b);
    var e := PutEvents(ReadAgain(a, size), 2, b, size);
    LateFill(cfg, e, size, Run(cfg, e).shared, a.key, a.namespace, a.value);
  }

  // ---------------------------------------------------------------------------------------------
  // An update of metadata that is overtaken
  // ---------------------------------------------------------------------------------------------

  /** What an update puts back: the new metadata over the body its get has answered. */
  function Updated(a: PutCall, meta0: Bytes, meta1: Bytes): PutCall {
    a.(value := CacheObject(meta0, meta1, a.value.body))
  }

  /** The get of an update, which has answered. */
  function UpdateAsked(a: PutCall, size: nat): seq<Event> {
    Moved(ReadAgain(a, size), 1, 2, size)
  }

  /** Between the get and the put of the update, another put of the key starts and ends. */
  function UpdateOvertaken(a: PutCall, b: PutCall, meta0: Bytes, meta1: Bytes, size: nat): seq<Event> {
    PutEvents(PutEvents(UpdateAsked(a, size), 2, b, size), 3, Updated(a, meta0, meta1), size)
  }

  lemma UpdateAsks(cfg: F.Config, a: PutCall, size: nat) returns (sh: Shared)
    requires cfg.tiered && Encodable(a.value) && size >= |Encode(a.value)|
    ensures Linked(sh.disk) && sh.writing == 0 && Ends(cfg, UpdateAsked(a, size), sh, map[])
    ensures var replies := Run(cfg, UpdateAsked(a, size)).replies;
      replies != [] && replies[|replies| - 1] == Reply(a.key, F.Found(a.value))
  {
    var t := GetFilling(a.key, a.namespace, F.Found(a.value));
    var sh0 := ReadAgainRuns(cfg, a, size);
    var e1 := ReadAgain(a, size) + [Move(1, Goes(size))];
    LateFill(cfg, ReadAgain(a, size), size, sh0, a.key, a.namespace, a.value);
    assert e1 == Moved(ReadAgain(a, size), 1, 1, size);
    RunPush(cfg, e1, Move(1, Goes(size)));
    sh := Run(cfg, UpdateAsked(a, size)).shared;
  }

  /** A put on its own leaves its object in the file, whatever was there. */
  lemma PutStores(cfg: F.Config, events: seq<Event>, id: nat, c: PutCall, size: nat)
    requires Run(cfg, events).tasks == map[]
    requires Linked(Run(cfg, events).shared.disk) && Run(cfg, events).shared.writing == 0
    requires size >= |Encode(c.value)|
    ensures var s := Run(cfg, PutEvents(events, id, c, size));
      && s.tasks == map[] && Linked(s.shared.disk) && s.shared.writing == 0
      && Content(s.shared.disk, c.Path()) == Some(Encode(c.value))
  {
    PutRuns(cfg, events, size, Run(cfg, events).shared, map[], id, c);
    WrittenContent(Run(cfg, events).shared.disk, c);
  }

  lemma UpdateRuns(cfg: F.Config, a: PutCall, b: PutCall, meta0: Bytes, meta1: Bytes, size: nat)
    requires cfg.tiered && a.key == b.key && a.namespace == b.namespace && Encodable(a.value)
    requires size >= |Encode(a.value)| && size >= |Encode(b.value)| && size >= |Encode(Updated(a, meta0, meta1).value)|
    ensures var s := Run(cfg, UpdateOvertaken(a, b, meta0, meta1, size));
      s.tasks == map[] && Content(s.shared.disk, b.Path()) == Some(Encode(Updated(a, meta0, meta1).value))
    ensures var replies := Run(cfg, UpdateAsked(a, size)).replies;
      replies != [] && replies[|replies| - 1] == Reply(a.key, F.Found(a.value))
  {
    var sh := UpdateAsks(cfg, a, size);
    PutStores(cfg, UpdateAsked(a, size), 2, b, size);
    PutStores(cfg, PutEvents(UpdateAsked(a, size), 2, b, size), 3, Updated(a, meta0, meta1), size);
  }

  lemma WholeAnswer(o: CacheObject)
    requires Encodable(o)
    ensures F.AnswerOf(Some(Encode(o))) == F.Found(o)
  {
    DecodeEncode(o);
    HeaderWords(o);
  }

  /**
    A put that falls between the get and the put of an update is lost: the file then holds the new
    metadata over the older body, which is the body of that put exactly when the two are the same.
   */
  lemma UpdateOverwrites(cfg: F.Config, a: PutCall, b: PutCall, meta0: Bytes, meta1: Bytes)
    requires cfg.tiered && a.key == b.key && a.namespace == b.namespace
    requires Encodable(a.value) && |meta0| < U32 && |meta1| < U32
    ensures var c := Updated(a, meta0, meta1);
      var asked := Run(cfg, UpdateAsked(a, Enough(a, b) + Enough(c, c)));
      var s := Run(cfg, UpdateOvertaken(a, b, meta0, meta1, Enough(a, b) + Enough(c, c)));
      && asked.replies != [] && asked.replies[|asked.replies| - 1] == Reply(a.key, F.Found(a.value))
      && s.tasks == map[] && Content(s.shared.disk, b.Path()) == Some(Encode(c.value))
      && (F.AnswerOf(Content(s.shared.disk, b.Path())) == F.Found(CacheObject(meta0, meta1, b.value.body))
          <==> a.value.body == b.value.body)
  {
    var c := Updated(a, meta0, meta1);
    UpdateRuns(cfg, a, b, meta0, meta1, Enough(a, b) + Enough(c, c));
    WholeAnswer(c.value);
  }
}
