/**
  Two puts of one key that have both opened its file, over every order in which their writes can go
  on: what is in the file in the end, and when it must be one of the two objects.
 */
module CacheBlend {
  import opened Wrappers
  import opened CacheCodec
  import opened CacheDisk
  import F = FileCache
  import opened CacheTasks
  import opened CacheRaces

  // ---------------------------------------------------------------------------------------------
  // Texts
  // ---------------------------------------------------------------------------------------------

  /** As long as the longer text, and at each place a byte that one of the two has there. */
  predicate Blended(x: Bytes, y: Bytes, b: Bytes) {
    && |b| == Max(|x|, |y|)
    && forall k :: 0 <= k < |b| ==> (k < |x| && b[k] == x[k]) || (k < |y| && b[k] == y[k])
  }

  lemma BlendSwaps(x: Bytes, y: Bytes, b: Bytes)
    ensures Blended(x, y, b) <==> Blended(y, x, b)
  {
  }

  /** One text goes on. */
  lemma BlendGoesOn(x: Bytes, at: nat, next: nat, y: Bytes, b: Bytes)
    requires at <= next <= |x| && Blended(x[..at], y, b)
    ensures Blended(x[..next], y, Overlay(b, at, x[at..next]))
  {
    var c := Overlay(b, at, x[at..next]);
    OverlayAt(b, at, x[at..next], 0);
    forall k | 0 <= k < |c|
      ensures (k < next && c[k] == x[k]) || (k < |y| && c[k] == y[k])
    {
      OverlayAt(b, at, x[at..next], k);
      assert k < |b| ==> (k < at && b[k] == x[..at][k]) || (k < |y| && b[k] == y[k]);
    }
  }

  /** The two texts do not contradict each other in more than one place. */
  predicate Harmless(x: Bytes, y: Bytes) {
    || x <= y || y <= x
    || (|x| == |y| && forall k, l :: 0 <= k < |x| && 0 <= l < |x| && x[k] != y[k] && x[l] != y[l] ==> k == l)
  }

  lemma HarmlessBlend(x: Bytes, y: Bytes, b: Bytes)
    requires Harmless(x, y) && Blended(x, y, b)
    ensures b == x || b == y
  {
    if x <= y {
      assert b == y;
    } else if y <= x {
      assert b == x;
    } else if b != x {
      var k :| 0 <= k < |b| && b[k] != x[k];
      forall l | 0 <= l < |b|
        ensures b[l] == y[l]
      {
        assert x[k] != y[k];
      }
      assert b == y;
    }
  }

  /** The first text up to `k`, all of the second over it, and then the rest of the first. */
  function Sandwich(x: Bytes, y: Bytes, k: nat): Bytes
    requires k <= |x|
  {
    Overlay(Overlay(x[..k], 0, y), k, x[k..])
  }

  lemma SandwichAt(x: Bytes, y: Bytes, k: nat)
    requires k <= |x|
    ensures var b := Sandwich(x, y, k);
      && |b| == Max(|x|, |y|) && (forall l :: k <= l < |x| ==> b[l] == x[l])
      && (forall l :: 0 <= l < Min(k, |y|) ==> b[l] == y[l])
  {
  }

  lemma HarmfulSandwich(x: Bytes, y: Bytes) returns (k: nat)
    requires !Harmless(x, y)
    ensures k <= |x| && Sandwich(x, y, k) != x && Sandwich(x, y, k) != y
  {
    if |x| == |y| {
      var i, j :| 0 <= i < |x| && 0 <= j < |x| && x[i] != y[i] && x[j] != y[j] && i != j;
      k := Max(i, j);
      SandwichAt(x, y, k);
      assert Sandwich(x, y, k)[k] == x[k] && Sandwich(x, y, k)[Min(i, j)] == y[Min(i, j)];
    } else if |x| < |y| {
      k := 0;
      SandwichAt(x, y, 0);
      var i :| 0 <= i < |x| && x[i] != y[i];
      assert Sandwich(x, y, 0)[i] == x[i];
    } else {
      k := |x|;
      SandwichAt(x, y, k);
      var i :| 0 <= i < |y| && x[i] != y[i];
      assert Sandwich(x, y, k)[i] == y[i];
    }
  }

  // ---------------------------------------------------------------------------------------------
  // Every order of the writes
  // ---------------------------------------------------------------------------------------------

  /** What the put has written: all of it, once it does no longer write. */
  function Written(tasks: map<nat, Task>, id: nat, c: PutCall): Bytes {
    var data := Encode(c.value);
    if id in tasks && tasks[id].PutWriting? && tasks[id].at <= |data| then data[..tasks[id].at] else data
  }

  predicate Writes(tasks: map<nat, Task>, id: nat, c: PutCall, handle: nat) {
    id in tasks ==>
      && tasks[id].IsPut() && tasks[id].call == c && (tasks[id].PutWriting? || tasks[id].PutLeaving?)
      && (tasks[id].PutWriting? ==> tasks[id].handle == handle && tasks[id].at <= |Encode(c.value)|)
  }

  /** The puts `i` and `j` write to the inode, or have done so, and nobody else does. */
  predicate Blending(s: State, i: nat, a: PutCall, j: nat, b: PutCall, handle: nat) {
    && i != j && handle < |s.shared.disk.inodes|
    && Writes(s.tasks, i, a, handle) && Writes(s.tasks, j, b, handle)
    && (forall id :: id in s.tasks && id != i && id != j && s.tasks[id].PutWriting? ==> s.tasks[id].handle != handle)
    && Blended(Written(s.tasks, i, a), Written(s.tasks, j, b), BytesOf(s.shared.disk, handle))
  }

  /** One of the two fails, its number is used again, or another put opens the file. */
  predicate Interferes(s: State, e: Event, i: nat, j: nat, handle: nat) {
    match e
    case Spawn(id, _) => id == i || id == j
    case Move(id, access) =>
      if id == i || id == j then access.Fails?
      else id in s.tasks && s.tasks[id].PutOpening? && access.Goes?
           && s.tasks[id].Path() in s.shared.disk.links && s.shared.disk.links[s.tasks[id].Path()] == handle
    case _ => false
  }

  lemma BlendingSwaps(s: State, i: nat, a: PutCall, j: nat, b: PutCall, handle: nat)
    ensures Blending(s, i, a, j, b, handle) <==> Blending(s, j, b, i, a, handle)
  {
    BlendSwaps(Written(s.tasks, i, a), Written(s.tasks, j, b), BytesOf(s.shared.disk, handle));
  }

  lemma OwnWrite(cfg: F.Config, s: State, i: nat, a: PutCall, j: nat, b: PutCall, handle: nat, access: Access)
    requires Blending(s, i, a, j, b, handle) && i in s.tasks && access.Goes?
    ensures Blending(Step(cfg, s, Move(i, access)), i, a, j, b, handle)
  {
    var t, x := s.tasks[i], Encode(a.value);
    var y := Written(s.tasks, j, b);
    var s' := Step(cfg, s, Move(i, access));
    assert Written(s'.tasks, j, b) == y;
    if t.PutWriting? && t.at < |x| {
      BlendGoesOn(x, t.at, Onward(t.at, access, |x|), y, BytesOf(s.shared.disk, handle));
    } else {
      assert x[..|x|] == x;
      assert Written(s'.tasks, i, a) == Written(s.tasks, i, a);
    }
  }

  lemma OtherBytes(d: Disk, t: Task, access: Access, handle: nat)
    requires handle < |d.inodes| && (t.PutWriting? ==> t.handle != handle)
    requires t.PutOpening? && access.Goes? && t.Path() in d.links ==> d.links[t.Path()] != handle
    ensures handle < |DiskAfter(d, t, access).inodes| && BytesOf(DiskAfter(d, t, access), handle) == BytesOf(d, handle)
  {
  }

  lemma OtherWrite(cfg: F.Config, s: State, i: nat, a: PutCall, j: nat, b: PutCall, handle: nat, id: nat,
                   access: Access)
    requires Blending(s, i, a, j, b, handle) && id in s.tasks && id != i && id != j
    requires !Interferes(s, Move(id, access), i, j, handle)
    ensures Blending(Step(cfg, s, Move(id, access)), i, a, j, b, handle)
  {
    OtherBytes(s.shared.disk, s.tasks[id], access, handle);
    var s' := Step(cfg, s, Move(id, access));
    assert forall k :: k in s'.tasks && k != id ==> k in s.tasks && s'.tasks[k] == s.tasks[k];
    assert Written(s'.tasks, i, a) == Written(s.tasks, i, a) && Written(s'.tasks, j, b) == Written(s.tasks, j, b);
  }

  lemma DropOrSpawn(cfg: F.Config, s: State, i: nat, a: PutCall, j: nat, b: PutCall, handle: nat, e: Event)
    requires Blending(s, i, a, j, b, handle) && !e.Move? && !Interferes(s, e, i, j, handle)
    ensures Blending(Step(cfg, s, e), i, a, j, b, handle)
  {
    var s' := Step(cfg, s, e);
    assert s'.shared.disk.inodes == s.shared.disk.inodes;
    assert Written(s'.tasks, i, a) == Written(s.tasks, i, a) && Written(s'.tasks, j, b) == Written(s.tasks, j, b);
  }

  lemma BlendingStep(cfg: F.Config, s: State, i: nat, a: PutCall, j: nat, b: PutCall, handle: nat, e: Event)
    requires Blending(s, i, a, j, b, handle) && !Interferes(s, e, i, j, handle)
    ensures Blending(Step(cfg, s, e), i, a, j, b, handle)
  {
    if !e.Move? {
      DropOrSpawn(cfg, s, i, a, j, b, handle, e);
    } else if e.id in s.tasks {
      if e.id == i {
        OwnWrite(cfg, s, i, a, j, b, handle, e.access);
      } else if e.id == j {
        BlendingSwaps(s, i, a, j, b, handle);
        OwnWrite(cfg, s, j, b, i, a, handle, e.access);
        BlendingSwaps(Step(cfg, s, e), i, a, j, b, handle);
      } else {
        OtherWrite(cfg, s, i, a, j, b, handle, e.id, e.access);
      }
    }
  }

  /** After its first `n` events nothing in the run interferes with the two. */
  predicate LeftAlone(cfg: F.Config, events: seq<Event>, n: nat, i: nat, j: nat, handle: nat) {
    |events| > n ==>
      var rest := events[..|events| - 1];
      LeftAlone(cfg, rest, n, i, j, handle) && !Interferes(Run(cfg, rest), events[|events| - 1], i, j, handle)
  }

  lemma {:induction false} BlendingRun(cfg: F.Config, events: seq<Event>, n: nat, i: nat, a: PutCall, j: nat,
                                       b: PutCall, handle: nat)
    requires n <= |events| && LeftAlone(cfg, events, n, i, j, handle)
    requires Blending(Run(cfg, events[..n]), i, a, j, b, handle)
    ensures Blending(Run(cfg, events), i, a, j, b, handle)
  {
    if n == |events| {
      assert events[..n] == events;
    } else {
      var rest := events[..|events| - 1];
      assert rest[..n] == events[..n];
      BlendingRun(cfg, rest, n, i, a, j, b, handle);
      BlendingStep(cfg, Run(cfg, rest), i, a, j, b, handle, events[|events| - 1]);
    }
  }

  /** Both have opened the inode, which is empty, and nobody else writes to it. */
  predicate BothOpen(s: State, i: nat, a: PutCall, j: nat, b: PutCall, handle: nat) {
    && i != j && handle < |s.shared.disk.inodes| && s.shared.disk.inodes[handle].bytes == []
    && i in s.tasks && s.tasks[i].PutWriting? && s.tasks[i].call == a
    && s.tasks[i].handle == handle && s.tasks[i].at == 0
    && j in s.tasks && s.tasks[j].PutWriting? && s.tasks[j].call == b
    && s.tasks[j].handle == handle && s.tasks[j].at == 0
    && forall id :: id in s.tasks && id != i && id != j && s.tasks[id].PutWriting? ==> s.tasks[id].handle != handle
  }

  predicate IsWritten(s: State, id: nat) {
    id in s.tasks ==> s.tasks[id].PutLeaving?
  }

  /**
    In whatever order two puts that have opened one empty file write, and whatever other calls do as
    long as no third put opens it: when both have written, the file is as long as the longer of the
    two texts, and has at each place a byte that one of them has there.
   */
  lemma OverlapBlends(cfg: F.Config, events: seq<Event>, n: nat, i: nat, a: PutCall, j: nat, b: PutCall, handle: nat)
    requires n <= |events| && BothOpen(Run(cfg, events[..n]), i, a, j, b, handle)
    requires LeftAlone(cfg, events, n, i, j, handle)
    requires IsWritten(Run(cfg, events), i) && IsWritten(Run(cfg, events), j)
    ensures Blended(Encode(a.value), Encode(b.value), BytesOf(Run(cfg, events).shared.disk, handle))
  {
    OpenIsBlending(Run(cfg, events[..n]), i, a, j, b, handle);
    BlendingRun(cfg, events, n, i, a, j, b, handle);
  }

  lemma OpenIsBlending(s: State, i: nat, a: PutCall, j: nat, b: PutCall, handle: nat)
    requires BothOpen(s, i, a, j, b, handle)
    ensures Blending(s, i, a, j, b, handle)
  {
    assert Encode(a.value)[..0] == [] && Encode(b.value)[..0] == [];
  }

  // ---------------------------------------------------------------------------------------------
  // When every order leaves one of the two
  // ---------------------------------------------------------------------------------------------

  /** Only the two puts go on, without failing, to their ends. */
  predicate WritesOn(events: seq<Event>, n: nat) {
    n <= |events| && forall k :: n <= k < |events| ==> events[k].Move? && events[k].access.Goes? && events[k].id < 2
  }

  lemma {:induction false} WritesOnLeftAlone(cfg: F.Config, events: seq<Event>, n: nat, handle: nat)
    requires WritesOn(events, n)
    ensures LeftAlone(cfg, events, n, 0, 1, handle)
  {
    if |events| > n {
      WritesOnLeftAlone(cfg, events[..|events| - 1], n, handle);
    }
  }

  /** The names stay as they are. */
  lemma {:induction false} LinksStay(cfg: F.Config, events: seq<Event>, n: nat, a: PutCall, b: PutCall)
    requires WritesOn(events, n) && Blending(Run(cfg, events[..n]), 0, a, 1, b, 0)
    ensures Run(cfg, events).shared.disk.links == Run(cfg, events[..n]).shared.disk.links
  {
    if n == |events| {
      assert events[..n] == events;
    } else {
      var rest, e := events[..|events| - 1], events[|events| - 1];
      assert rest[..n] == events[..n];
      LinksStay(cfg, rest, n, a, b);
      WritesOnLeftAlone(cfg, rest, n, 0);
      BlendingRun(cfg, rest, n, 0, a, 1, b, 0);
      LinkStays(cfg, Run(cfg, rest), a, b, e);
    }
  }

  lemma LinkStays(cfg: F.Config, s: State, a: PutCall, b: PutCall, e: Event)
    requires Blending(s, 0, a, 1, b, 0) && e.Move? && e.id < 2
    ensures Step(cfg, s, e).shared.disk.links == s.shared.disk.links
  {
  }

  /** A run from an empty cache in which both puts open the file, and then write to the end in some order. */
  predicate IsSchedule(cfg: F.Config, a: PutCall, b: PutCall, events: seq<Event>) {
    var first := OpenBoth(a, b, Enough(a, b));
    first <= events && WritesOn(events, |first|) && Run(cfg, events).tasks == map[]
  }

  lemma ScheduleBlends(cfg: F.Config, a: PutCall, b: PutCall, events: seq<Event>)
    requires a.Path() == b.Path() && F.WithinQuota(cfg.writingMax, 1) && IsSchedule(cfg, a, b, events)
    ensures var content := Content(Run(cfg, events).shared.disk, a.Path());
      content.Some? && Blended(Encode(a.value), Encode(b.value), content.value)
  {
    var first := OpenBoth(a, b, Enough(a, b));
    var sh := OpenBothRuns(cfg, a, b, Enough(a, b));
    assert events[..|first|] == first;
    OpenIsBlending(Run(cfg, first), 0, a, 1, b, 0);
    WritesOnLeftAlone(cfg, events, |first|, 0);
    LinksStay(cfg, events, |first|, a, b);
    BlendingRun(cfg, events, |first|, 0, a, 1, b, 0);
    OverlapBlends(cfg, events, |first|, 0, a, 1, b, 0);
  }

  lemma WriteTo(cfg: F.Config, events: seq<Event>, sh: Shared, tasks: map<nat, Task>, id: nat, c: PutCall,
                handle: nat, at: nat, next: nat)
    requires Leads(cfg, events, sh, tasks, id, PutWriting(c, true, handle, at)) && at < next <= |Encode(c.value)|
    ensures Leads(cfg, events + [Move(id, Goes(next - at))],
                  sh.(disk := WrittenAt(sh.disk, handle, at, Encode(c.value)[at..next])), tasks, id,
                  PutWriting(c, true, handle, next))
  {
    MoveOn(cfg, events, next - at, sh, tasks, id, PutWriting(c, true, handle, at), PutWriting(c, true, handle, next));
  }

  /** The two tasks, and the one inode with these bytes under the one name. */
  predicate Holds(cfg: F.Config, events: seq<Event>, path: string, bytes: Bytes, t: Task, u: Task) {
    var d := Run(cfg, events).shared.disk;
    && Run(cfg, events).tasks == map[0 := t, 1 := u]
    && d.links == map[path := 0] && |d.inodes| == 1 && d.inodes[0].bytes == bytes
  }

  lemma FirstWrites(cfg: F.Config, events: seq<Event>, path: string, bytes: Bytes, a: PutCall, at: nat, next: nat,
                    u: Task)
    requires Holds(cfg, events, path, bytes, PutWriting(a, true, 0, at), u) && at < next <= |Encode(a.value)|
    ensures Holds(cfg, events + [Move(0, Goes(next - at))], path, Overlay(bytes, at, Encode(a.value)[at..next]),
                  PutWriting(a, true, 0, next), u)
  {
    var sh := Run(cfg, events).shared;
    SwapTasks(cfg, events, sh, PutWriting(a, true, 0, at), u);
    WriteTo(cfg, events, sh, map[1 := u], 0, a, 0, at, next);
    var more := events + [Move(0, Goes(next - at))];
    SwapTasks(cfg, more, Run(cfg, more).shared, PutWriting(a, true, 0, next), u);
  }

  lemma SecondWrites(cfg: F.Config, events: seq<Event>, path: string, bytes: Bytes, t: Task, b: PutCall)
    requires Holds(cfg, events, path, bytes, t, PutWriting(b, true, 0, 0)) && Encode(b.value) != []
    ensures Holds(cfg, events + [Move(1, Goes(|Encode(b.value)|))], path, Overlay(bytes, 0, Encode(b.value)),
                  t, PutWriting(b, true, 0, |Encode(b.value)|))
  {
    var sh, y := Run(cfg, events).shared, Encode(b.value);
    SwapTasks(cfg, events, sh, t, PutWriting(b, true, 0, 0));
    WriteTo(cfg, events, sh, map[0 := t], 1, b, 0, 0, |y|);
    assert y[0..|y|] == y;
    var more := events + [Move(1, Goes(|y|))];
    SwapTasks(cfg, more, Run(cfg, more).shared, t, PutWriting(b, true, 0, |y|));
  }

  lemma BothLeave(cfg: F.Config, events: seq<Event>, path: string, bytes: Bytes, a: PutCall, b: PutCall, size: nat)
    requires Holds(cfg, events, path, bytes, PutWriting(a, true, 0, |Encode(a.value)|),
                   PutWriting(b, true, 0, |Encode(b.value)|))
    ensures var s := Run(cfg, Moved(Moved(events, 0, 2, size), 1, 2, size));
      s.tasks == map[] && Content(s.shared.disk, path) == Some(bytes)
  {
    var t, u := PutWriting(a, true, 0, |Encode(a.value)|), PutWriting(b, true, 0, |Encode(b.value)|);
    var sh := Run(cfg, events).shared;
    SwapTasks(cfg, events, sh, t, u);
    PutLeaves(cfg, events, size, sh, map[1 := u], 0, a, 0);
    assert map[1 := u] == map[][1 := u];
    PutLeaves(cfg, Moved(events, 0, 2, size), size, sh.(writing := Decrement(sh.writing)), map[], 1, b, 0);
  }

  /** Nothing but moves of the two puts, none of which fails, comes after `first`. */
  predicate Follows(first: seq<Event>, events: seq<Event>) {
    first <= events && WritesOn(events, |first|)
  }

  lemma {:induction false} MovedFollows(first: seq<Event>, events: seq<Event>, id: nat, m: nat, size: nat)
    requires Follows(first, events) && id < 2
    ensures Follows(first, Moved(events, id, m, size))
  {
    if m > 0 {
      MovedFollows(first, events, id, m - 1, size);
    }
  }

  /** The first put writes from `at` to `next`, if that is anything. */
  lemma FirstGoesOn(cfg: F.Config, first: seq<Event>, events: seq<Event>, path: string, bytes: Bytes, a: PutCall,
                    at: nat, next: nat, u: Task)
    returns (more: seq<Event>)
    requires Follows(first, events) && Holds(cfg, events, path, bytes, PutWriting(a, true, 0, at), u)
    requires at <= next <= |Encode(a.value)| && at <= |bytes|
    ensures Follows(first, more)
    ensures Holds(cfg, more, path, Overlay(bytes, at, Encode(a.value)[at..next]), PutWriting(a, true, 0, next), u)
  {
    if at < next {
      FirstWrites(cfg, events, path, bytes, a, at, next, u);
      more := events + [Move(0, Goes(next - at))];
    } else {
      assert Overlay(bytes, at, Encode(a.value)[at..next]) == bytes;
      more := events;
    }
  }

  lemma SecondGoes(cfg: F.Config, first: seq<Event>, events: seq<Event>, path: string, bytes: Bytes, t: Task,
                   b: PutCall)
    returns (more: seq<Event>)
    requires Follows(first, events) && Holds(cfg, events, path, bytes, t, PutWriting(b, true, 0, 0))
    ensures Follows(first, more)
    ensures Holds(cfg, more, path, Overlay(bytes, 0, Encode(b.value)), t, PutWriting(b, true, 0, |Encode(b.value)|))
  {
    EncodedSize(b.value);
    SecondWrites(cfg, events, path, bytes, t, b);
    more := events + [Move(1, Goes(|Encode(b.value)|))];
  }

  lemma BothEnd(cfg: F.Config, first: seq<Event>, events: seq<Event>, path: string, bytes: Bytes, a: PutCall,
                b: PutCall)
    returns (more: seq<Event>)
    requires Follows(first, events)
    requires Holds(cfg, events, path, bytes, PutWriting(a, true, 0, |Encode(a.value)|),
                   PutWriting(b, true, 0, |Encode(b.value)|))
    ensures Follows(first, more)
    ensures Run(cfg, more).tasks == map[] && Content(Run(cfg, more).shared.disk, path) == Some(bytes)
  {
    var size := Enough(a, b);
    more := Moved(Moved(events, 0, 2, size), 1, 2, size);
    MovedFollows(first, events, 0, 2, size);
    MovedFollows(first, Moved(events, 0, 2, size), 1, 2, size);
    BothLeave(cfg, events, path, bytes, a, b, size);
  }

  lemma BothOpened(cfg: F.Config, a: PutCall, b: PutCall) returns (first: seq<Event>)
    requires a.Path() == b.Path() && F.WithinQuota(cfg.writingMax, 1)
    ensures first == OpenBoth(a, b, Enough(a, b)) && Follows(first, first)
    ensures Holds(cfg, first, a.Path(), [], PutWriting(a, true, 0, 0), PutWriting(b, true, 0, 0))
  {
    first := OpenBoth(a, b, Enough(a, b));
    var sh := OpenBothRuns(cfg, a, b, Enough(a, b));
  }

  /** The first put writes up to `k`, the second all of its text, and then the first the rest of its own. */
  lemma SandwichFollows(cfg: F.Config, first: seq<Event>, a: PutCall, b: PutCall, k: nat) returns (events: seq<Event>)
    requires Follows(first, first) && k <= |Encode(a.value)|
    requires Holds(cfg, first, a.Path(), [], PutWriting(a, true, 0, 0), PutWriting(b, true, 0, 0))
    ensures Follows(first, events) && Run(cfg, events).tasks == map[]
    ensures Content(Run(cfg, events).shared.disk, a.Path()) == Some(Sandwich(Encode(a.value), Encode(b.value), k))
  {
    var path, x, y := a.Path(), Encode(a.value), Encode(b.value);
    assert Overlay([], 0, x[0..k]) == x[..k] && x[k..|x|] == x[k..];
    events := FirstGoesOn(cfg, first, first, path, [], a, 0, k, PutWriting(b, true, 0, 0));
    events := SecondGoes(cfg, first, events, path, x[..k], PutWriting(a, true, 0, k), b);
    events := FirstGoesOn(cfg, first, events, path, Overlay(x[..k], 0, y), a, k, |x|, PutWriting(b, true, 0, |y|));
    events := BothEnd(cfg, first, events, path, Sandwich(x, y, k), a, b);
  }

  lemma SandwichIsSchedule(cfg: F.Config, a: PutCall, b: PutCall, k: nat) returns (events: seq<Event>)
    requires a.Path() == b.Path() && F.WithinQuota(cfg.writingMax, 1) && k <= |Encode(a.value)|
    ensures IsSchedule(cfg, a, b, events)
    ensures Content(Run(cfg, events).shared.disk, a.Path()) == Some(Sandwich(Encode(a.value), Encode(b.value), k))
  {
    var first := BothOpened(cfg, a, b);
    events := SandwichFollows(cfg, first, a, b, k);
  }

  ghost predicate AlwaysOneOfThem(cfg: F.Config, a: PutCall, b: PutCall) {
    forall events :: IsSchedule(cfg, a, b, events) ==>
      var content := Content(Run(cfg, events).shared.disk, a.Path());
      content == Some(Encode(a.value)) || content == Some(Encode(b.value))
  }

  /**
    Two puts of one key that both open the file before either writes leave one of the two objects in
    it, in whatever order their writes go on, exactly when one text begins with the other, or they are
    equally long and differ in one byte at most.
   */
  lemma OverlapExact(cfg: F.Config, a: PutCall, b: PutCall)
    requires a.Path() == b.Path() && F.WithinQuota(cfg.writingMax, 1)
    ensures AlwaysOneOfThem(cfg, a, b) <==> Harmless(Encode(a.value), Encode(b.value))
  {
    var x, y := Encode(a.value), Encode(b.value);
    if Harmless(x, y) {
      forall events | IsSchedule(cfg, a, b, events)
        ensures var content := Content(Run(cfg, events).shared.disk, a.Path()); content == Some(x) || content == Some(y)
      {
        ScheduleBlends(cfg, a, b, events);
        HarmlessBlend(x, y, Content(Run(cfg, events).shared.disk, a.Path()).value);
      }
    } else {
      var k := HarmfulSandwich(x, y);
      var events := SandwichIsSchedule(cfg, a, b, k);
    }
  }
}
