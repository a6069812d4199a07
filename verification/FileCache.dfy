/**
  The two-tier cache of pingap-cache/src/file.rs, one call at a time: an optional memory tier that
  may drop entries at any moment, over files named after namespace and key.

  `FileCache` is the object. The rest compares every run of calls with one plain map from path to
  object, and says exactly which steps break that comparison.
 */
module FileCache {
  import opened Wrappers
  import opened CacheCodec
  import Text

  /** `tiered` says whether there is a memory tier; a limit of 0 means no limit. */
  datatype Config = Config(tiered: bool, maxWeight: u16, readingMax: u32, writingMax: u32)

  datatype Answer = Found(value: CacheObject) | Missing | OverQuota | IoError | Panicked

  /** How a file write ended; a failed one may leave the first `n` bytes behind. */
  datatype WriteEnd = Written | Untouched | CutShort(n: nat)

  datatype PutAnswer = Stored | PutOverQuota | PutIoError

  /** A file met by `clear`: its access time if it can be read, and whether it can be removed. */
  datatype DirEntry = DirEntry(path: string, accessed: Option<nat>, removable: bool)

  datatype Tiers = Tiers(memory: map<string, CacheObject>, files: map<string, Bytes>)

  function FilePath(key: string, namespace: string): string {
    if namespace == "" then key else namespace + "/" + key
  }

  predicate WithinQuota(limit: u32, count: u32) {
    limit == 0 || count < limit
  }

  // ---------------------------------------------------------------------------------------------
  // What one call does
  // ---------------------------------------------------------------------------------------------

  /** What a file answers that was read in full. */
  function AnswerOf(content: Option<Bytes>): Answer {
    if content.None? || |content.value| < 8 then Missing
    else match Decode(content.value)
      case Object(o) => Found(o)
      case Panic => Panicked
  }

  /** A file is missing, shorter than a header, holds an object, or breaks off within its metadata. */
  lemma AnswerExact(content: Option<Bytes>, o: CacheObject)
    ensures AnswerOf(content) == Missing <==> content.None? || |content.value| < 8
    ensures AnswerOf(content) == Found(o) <==> content == Some(Encode(o)) && Encodable(o)
    ensures AnswerOf(content) == Panicked <==>
              && content.Some? && |content.value| >= 8
              && |content.value| < 8 + Word(content.value) + Word(content.value[4..])
  {
    if content.Some? && |content.value| >= 8 {
      if Decode(content.value).Object? {
        EncodeDecode(content.value);
      }
      HeaderWords(o);
      if Encodable(o) {
        DecodeEncode(o);
      }
    }
    HeaderWords(o);
  }

  /** What the files alone answer. */
  function ReadFile(files: map<string, Bytes>, path: string): Answer {
    AnswerOf(if path in files then Some(files[path]) else None)
  }

  function GetAnswer(cfg: Config, s: Tiers, key: string, namespace: string, count: u32, ioError: bool): Answer {
    if cfg.tiered && key in s.memory then Found(s.memory[key])
    else if !WithinQuota(cfg.readingMax, count) then OverQuota
    else if ioError then IoError
    else ReadFile(s.files, FilePath(key, namespace))
  }

  function AfterGet(cfg: Config, s: Tiers, key: string, answer: Answer): Tiers {
    if cfg.tiered && answer.Found? then s.(memory := s.memory[key := answer.value]) else s
  }

  function PutResult(cfg: Config, count: u32, end: WriteEnd): PutAnswer {
    if !WithinQuota(cfg.writingMax, count) then PutOverQuota
    else if end == Written then Stored
    else PutIoError
  }

  function LeftBehind(files: map<string, Bytes>, path: string, buf: Bytes, end: WriteEnd): map<string, Bytes> {
    match end
    case Written => files[path := buf]
    case Untouched => files
    case CutShort(n) => files[path := buf[..Min(n, |buf|)]]
  }

  predicate Remembers(cfg: Config, o: CacheObject) {
    cfg.tiered && Weight(o) < cfg.maxWeight
  }

  /** In bytes: an object is remembered when it is below `maxWeight` pages and below 40 MiB. */
  lemma RemembersExact(cfg: Config, o: CacheObject)
    ensures Remembers(cfg, o) <==>
            var size := |o.meta0| + |o.meta1| + |o.body|;
            cfg.tiered && cfg.maxWeight >= 2 && size < cfg.maxWeight * 4096 && size < 40 * 1024 * 1024
  {
  }

  function AfterPut(cfg: Config, s: Tiers, key: string, namespace: string, o: CacheObject, count: u32,
                    end: WriteEnd): Tiers {
    Tiers(if Remembers(cfg, o) then s.memory[key := o] else s.memory,
          if WithinQuota(cfg.writingMax, count) then LeftBehind(s.files, FilePath(key, namespace), Encode(o), end)
          else s.files)
  }

  function AfterRemove(cfg: Config, s: Tiers, key: string, namespace: string, ioError: bool): Tiers {
    Tiers(if cfg.tiered then s.memory - {key} else s.memory,
          if ioError then s.files else s.files - {FilePath(key, namespace)})
  }

  predicate IsDue(e: DirEntry, accessBefore: nat, removable: bool) {
    e.accessed.Some? && e.accessed.value <= accessBefore && e.removable == removable
  }

  function Due(entries: seq<DirEntry>, accessBefore: nat, removable: bool): set<nat> {
    set i | 0 <= i < |entries| && IsDue(entries[i], accessBefore, removable)
  }

  lemma DueSnoc(entries: seq<DirEntry>, e: DirEntry, accessBefore: nat, removable: bool)
    ensures |Due(entries + [e], accessBefore, removable)| ==
            |Due(entries, accessBefore, removable)| + if IsDue(e, accessBefore, removable) then 1 else 0
  {
    var before, all := Due(entries, accessBefore, removable), entries + [e];
    assert forall i :: 0 <= i < |entries| ==> all[i] == entries[i];
    assert Due(all, accessBefore, removable) ==
      if IsDue(e, accessBefore, removable) then before + {|entries|} else before;
  }

  /** What a walk over the entries leaves of the files. */
  ghost predicate IsLeft(entries: seq<DirEntry>, accessBefore: nat, before: map<string, Bytes>,
                         files: map<string, Bytes>) {
    && (forall p :: p in files <==>
          p in before && forall e :: e in entries && e.path == p ==> !IsDue(e, accessBefore, true))
    && (forall p :: p in files ==> files[p] == before[p])
  }

  lemma LeftSnoc(entries: seq<DirEntry>, e: DirEntry, accessBefore: nat, before: map<string, Bytes>,
                 files: map<string, Bytes>)
    requires IsLeft(entries, accessBefore, before, files)
    ensures IsLeft(entries + [e], accessBefore, before,
                   if IsDue(e, accessBefore, true) then files - {e.path} else files)
  {
    assert forall d :: d in entries + [e] <==> d in entries || d == e;
  }

  class FileCache {
    const cfg: Config
    var reading: u32
    var writing: u32
    var memory: map<string, CacheObject>
    var files: map<string, Bytes>

    constructor (cfg: Config, files: map<string, Bytes>)
      ensures this.cfg == cfg && reading == 0 && writing == 0
      ensures Contents() == Tiers(map[], files)
    {
      this.cfg, reading, writing, memory, this.files := cfg, 0, 0, map[], files;
    }

    function Contents(): Tiers
      reads this
    {
      Tiers(memory, files)
    }

    method Get(key: string, namespace: string, ioError: bool) returns (r: Answer)
      modifies this
      ensures r == GetAnswer(cfg, old(Contents()), key, namespace, old(reading), ioError)
      ensures r == OverQuota <==>
        !(cfg.tiered && key in old(memory)) && cfg.readingMax != 0 && old(reading) >= cfg.readingMax
      ensures r == IoError <==> !(cfg.tiered && key in old(memory)) && r != OverQuota && ioError
      ensures Contents() == AfterGet(cfg, old(Contents()), key, r)
      ensures reading == old(reading) && writing == old(writing)
    {
      if cfg.tiered && key in memory {
        assert memory[key := memory[key]] == memory;
        return Found(memory[key]);
      }
      var file := FilePath(key, namespace);
      var count := reading;
      reading := (reading + 1) % U32;
      if cfg.readingMax > 0 && count >= cfg.readingMax {
        reading := (reading - 1) % U32;
        return OverQuota;
      }
      if ioError {
        r := IoError;
      } else if file !in files {
        r := Missing;
      } else {
        var buf := files[file];
        if |buf| >= 8 {
          var decoded := FromBytes(buf);
          r := match decoded case Object(o) => Found(o) case Panic => Panicked;
        } else {
          r := Missing;
        }
      }
      if cfg.tiered && r.Found? {
        memory := memory[key := r.value];
      }
      reading := (reading - 1) % U32;
    }

    method Put(key: string, namespace: string, data: CacheObject, end: WriteEnd) returns (r: PutAnswer)
      modifies this
      ensures r == PutResult(cfg, old(writing), end)
      ensures r == PutOverQuota <==> cfg.writingMax != 0 && old(writing) >= cfg.writingMax
      ensures r == Stored <==> r != PutOverQuota && end == Written
      ensures r == PutOverQuota || end == Untouched ==> files == old(files)
      ensures r != PutOverQuota && end != Untouched ==>
        && FilePath(key, namespace) in files && files[FilePath(key, namespace)] <= Encode(data)
        && |files[FilePath(key, namespace)]| == if end == Written then |Encode(data)| else Min(end.n, |Encode(data)|)
      ensures forall p :: p != FilePath(key, namespace) ==>
        (p in files <==> p in old(files)) && (p in files ==> files[p] == old(files)[p])
      ensures Contents() == AfterPut(cfg, old(Contents()), key, namespace, data, old(writing), end)
      ensures reading == old(reading) && writing == old(writing)
    {
      if cfg.tiered {
        var weight := Weight(data);
        if weight < cfg.maxWeight {
          memory := memory[key := data];
        }
      }
      var buf := IntoBytes(data);
      var file := FilePath(key, namespace);
      var count := writing;
      writing := (writing + 1) % U32;
      if cfg.writingMax > 0 && count >= cfg.writingMax {
        writing := (writing - 1) % U32;
        return PutOverQuota;
      }
      match end {
        case Written =>
          files := files[file := buf];
          r := Stored;
        case Untouched =>
          r := PutIoError;
        case CutShort(n) =>
          files := files[file := buf[..Min(n, |buf|)]];
          r := PutIoError;
      }
      writing := (writing - 1) % U32;
    }

    /** The answer of the original is always `None` or an error: `ok` says which. */
    method Remove(key: string, namespace: string, ioError: bool) returns (ok: bool)
      modifies this
      ensures ok <==> !ioError && FilePath(key, namespace) in old(files)
      ensures Contents() == AfterRemove(cfg, old(Contents()), key, namespace, ioError)
      ensures files == if ok then old(files) - {FilePath(key, namespace)} else old(files)
      ensures memory == if cfg.tiered then old(memory) - {key} else old(memory)
      ensures reading == old(reading) && writing == old(writing)
    {
      if cfg.tiered {
        memory := memory - {key};
      }
      var file := FilePath(key, namespace);
      ok := !ioError && file in files;
      if !ioError {
        files := files - {file};
      }
    }

    /**
      Removes the files last read at or before `accessBefore` that can be removed, counts them and those
      that cannot; the memory tier is not looked at.
     */
    method Clear(entries: seq<DirEntry>, accessBefore: nat) returns (success: nat, fail: nat)
      modifies this`files
      ensures success == |set i | 0 <= i < |entries| && entries[i].accessed.Some? &&
                                  entries[i].accessed.value <= accessBefore && entries[i].removable|
      ensures fail == |set i | 0 <= i < |entries| && entries[i].accessed.Some? &&
                               entries[i].accessed.value <= accessBefore && !entries[i].removable|
      ensures forall p :: p in files <==>
        p in old(files) && forall e :: e in entries && e.path == p ==>
          e.accessed.None? || e.accessed.value > accessBefore || !e.removable
      ensures forall p :: p in files ==> files[p] == old(files)[p]
    {
      success, fail := 0, 0;
      for i := 0 to |entries|
        invariant success == |Due(entries[..i], accessBefore, true)| && fail == |Due(entries[..i], accessBefore, false)|
        invariant IsLeft(entries[..i], accessBefore, old(files), files)
      {
        var entry := entries[i];
        assert entries[..i + 1] == entries[..i] + [entry];
        DueSnoc(entries[..i], entry, accessBefore, true);
        DueSnoc(entries[..i], entry, accessBefore, false);
        LeftSnoc(entries[..i], entry, accessBefore, old(files), files);
        if entry.accessed.None? || entry.accessed.value > accessBefore {
          continue;
        }
        if entry.removable {
          files := files - {entry.path};
          success := success + 1;
        } else {
          fail := fail + 1;
        }
      }
      assert entries[..|entries|] == entries;
      assert Due(entries, accessBefore, true) == set i | 0 <= i < |entries| && entries[i].accessed.Some? &&
        entries[i].accessed.value <= accessBefore && entries[i].removable;
      assert Due(entries, accessBefore, false) == set i | 0 <= i < |entries| && entries[i].accessed.Some? &&
        entries[i].accessed.value <= accessBefore && !entries[i].removable;
    }
  }

  // ---------------------------------------------------------------------------------------------
  // Runs against one plain map
  // ---------------------------------------------------------------------------------------------

  /** `count` is what the counter shows: the calls of other tasks that are still under way. */
  datatype Op =
    | Get(key: string, namespace: string, count: u32, ioError: bool)
    | Put(key: string, namespace: string, value: CacheObject, count: u32, end: WriteEnd)
    | Remove(key: string, namespace: string, ioError: bool)
    | Clear(paths: set<string>)
    | Evict(key: string)

  function Apply(cfg: Config, s: Tiers, op: Op): Tiers {
    match op
    case Get(key, namespace, count, ioError) =>
      AfterGet(cfg, s, key, GetAnswer(cfg, s, key, namespace, count, ioError))
    case Put(key, namespace, value, count, end) => AfterPut(cfg, s, key, namespace, value, count, end)
    case Remove(key, namespace, ioError) => AfterRemove(cfg, s, key, namespace, ioError)
    case Clear(paths) => s.(files := s.files - paths)
    case Evict(key) => s.(memory := s.memory - {key})
  }

  /** The plain map: a put binds its path, a remove or a clear unbinds. */
  function ApplyModel(model: map<string, CacheObject>, op: Op): map<string, CacheObject> {
    match op
    case Put(key, namespace, value, _, _) => model[FilePath(key, namespace) := value]
    case Remove(key, namespace, _) => model - {FilePath(key, namespace)}
    case Clear(paths) => model - paths
    case _ => model
  }

  function Run(cfg: Config, s: Tiers, ops: seq<Op>): Tiers {
    if ops == [] then s else Apply(cfg, Run(cfg, s, ops[..|ops| - 1]), ops[|ops| - 1])
  }

  function RunModel(model: map<string, CacheObject>, ops: seq<Op>): map<string, CacheObject> {
    if ops == [] then model else ApplyModel(RunModel(model, ops[..|ops| - 1]), ops[|ops| - 1])
  }

  /** The files are the map, and the memory tier agrees with it; `home` is each key's namespace. */
  predicate Mirrors(s: Tiers, model: map<string, CacheObject>, home: string -> string) {
    && s.files.Keys == model.Keys
    && (forall p :: p in model ==> s.files[p] == Encode(model[p]) && Encodable(model[p]))
    && (forall k :: k in s.memory ==>
          '/' !in k && FilePath(k, home(k)) in model && model[FilePath(k, home(k))] == s.memory[k])
  }

  /** The file part of the operation succeeds, and it names the key's own namespace. */
  predicate Clean(cfg: Config, op: Op, home: string -> string) {
    match op
    case Get(key, namespace, _, _) => '/' !in key && namespace == home(key)
    case Put(key, namespace, value, count, end) =>
      && '/' !in key && namespace == home(key)
      && Encodable(value) && WithinQuota(cfg.writingMax, count) && end == Written
    case Remove(key, namespace, ioError) => '/' !in key && namespace == home(key) && !ioError
    case Clear(_) => true
    case Evict(_) => true
  }

  /**
    What a clean operation must not meet in the memory tier: an object that it replaces without
    being light enough to be remembered, or one whose file it clears.
   */
  predicate LeavesNothingStale(cfg: Config, s: Tiers, op: Op, home: string -> string) {
    match op
    case Put(key, _, value, _, _) => Remembers(cfg, value) || key !in s.memory || s.memory[key] == value
    case Clear(paths) => forall k :: k in s.memory ==> FilePath(k, home(k)) !in paths
    case _ => true
  }

  /** The directories and the file that a path names: empty parts and `.` do not count. */
  function Parts(parts: seq<string>): seq<string> {
    if parts == [] then []
    else
      var last := parts[|parts| - 1];
      Parts(parts[..|parts| - 1]) + if last == "" || last == "." then [] else [last]
  }

  function Components(path: string): seq<string> {
    Parts(Text.Split(path, '/'))
  }

  /** A hash: no separator, and not one of the names that stand for other directories. */
  predicate IsHash(key: string) {
    '/' !in key && key != "" && key != "." && key != ".."
  }

  lemma ComponentsOf(key: string, namespace: string)
    requires IsHash(key)
    ensures Components(FilePath(key, namespace)) == Components(namespace) + [key]
  {
    if namespace == "" {
      Text.CutAt(key, "", '/');
      assert Text.Split(key, '/') == [key] && Text.Split("", '/') == [""];
      assert Parts([key]) == Parts([key][..0]) + [key] && Parts([""]) == Parts([""][..0]);
    } else {
      Text.SplitLast(namespace, key, '/');
      assert FilePath(key, namespace) == namespace + ['/'] + key;
      var all := Text.Split(namespace, '/') + [key];
      assert all[..|all| - 1] == Text.Split(namespace, '/');
    }
  }

  /**
    Two hashes name one file exactly when they are the same and their namespaces name one directory:
    `a` and `a/` are one.
   */
  lemma SameFileExact(k: string, n: string, k': string, n': string)
    requires IsHash(k) && IsHash(k')
    ensures Components(FilePath(k, n)) == Components(FilePath(k', n')) <==> k == k' && Components(n) == Components(n')
  {
    ComponentsOf(k, n);
    ComponentsOf(k', n');
    var c, c' := Components(n) + [k], Components(n') + [k'];
    if c == c' {
      assert c[|c| - 1] == k && c'[|c'| - 1] == k';
      assert c[..|c| - 1] == Components(n) && c'[..|c'| - 1] == Components(n');
    }
  }

  /** As texts, the paths of slash-free keys differ; so they do as files where namespaces are in normal form. */
  lemma PathInjective(k: string, n: string, k': string, n': string)
    requires '/' !in k && '/' !in k' && FilePath(k, n) == FilePath(k', n')
    ensures k == k' && n == n'
  {
    var p := FilePath(k, n);
    LastSlash(k, n);
    LastSlash(k', n');
    if n != "" && n' != "" {
      assert p[..|n|] == n && p[..|n'|] == n';
    }
  }

  lemma LastSlash(k: string, n: string)
    requires '/' !in k
    ensures var p := FilePath(k, n);
            && (n == "" ==> '/' !in p)
            && (n != "" ==> |n| < |p| && p[|n|] == '/' && p[|n| + 1..] == k)
            && (n != "" ==> forall i :: |n| < i < |p| ==> p[i] != '/')
  {
    if n != "" {
      var p := FilePath(k, n);
      assert forall i :: |n| < i < |p| ==> p[i] == k[i - |n| - 1];
    }
  }

  /** The other keys of the memory tier live in other files. */
  lemma OtherPaths(s: Tiers, model: map<string, CacheObject>, key: string, home: string -> string)
    requires Mirrors(s, model, home) && '/' !in key
    ensures forall k :: k in s.memory && k != key ==> FilePath(k, home(k)) != FilePath(key, home(key))
  {
    forall k | k in s.memory && FilePath(k, home(k)) == FilePath(key, home(key))
      ensures k == key
    {
      PathInjective(k, home(k), key, home(key));
    }
  }

  lemma PutExact(cfg: Config, s: Tiers, model: map<string, CacheObject>, op: Op, home: string -> string)
    requires Mirrors(s, model, home) && Clean(cfg, op, home) && op.Put?
    requires !cfg.tiered ==> s.memory == map[]
    ensures Mirrors(Apply(cfg, s, op), ApplyModel(model, op), home) <==> LeavesNothingStale(cfg, s, op, home)
  {
    OtherPaths(s, model, op.key, home);
  }

  lemma GetKeeps(cfg: Config, s: Tiers, model: map<string, CacheObject>, op: Op, home: string -> string)
    requires Mirrors(s, model, home) && Clean(cfg, op, home) && op.Get?
    ensures Mirrors(Apply(cfg, s, op), model, home)
  {
    GetIsModel(cfg, s, model, op.key, op.count, op.ioError, home);
  }

  lemma RemoveKeeps(cfg: Config, s: Tiers, model: map<string, CacheObject>, op: Op, home: string -> string)
    requires Mirrors(s, model, home) && Clean(cfg, op, home) && op.Remove?
    requires !cfg.tiered ==> s.memory == map[]
    ensures Mirrors(Apply(cfg, s, op), ApplyModel(model, op), home)
  {
    OtherPaths(s, model, op.key, home);
  }

  lemma ClearExact(cfg: Config, s: Tiers, model: map<string, CacheObject>, op: Op, home: string -> string)
    requires Mirrors(s, model, home) && op.Clear?
    ensures Mirrors(Apply(cfg, s, op), ApplyModel(model, op), home) <==> LeavesNothingStale(cfg, s, op, home)
  {
    var t, m := Apply(cfg, s, op), ApplyModel(model, op);
    assert t.memory == s.memory;
  }

  /** A clean step keeps both tiers equal to the map exactly when it leaves nothing stale. */
  lemma StepExact(cfg: Config, s: Tiers, model: map<string, CacheObject>, op: Op, home: string -> string)
    requires Mirrors(s, model, home) && Clean(cfg, op, home)
    requires !cfg.tiered ==> s.memory == map[]
    ensures Mirrors(Apply(cfg, s, op), ApplyModel(model, op), home) <==> LeavesNothingStale(cfg, s, op, home)
  {
    if op.Get? {
      GetKeeps(cfg, s, model, op, home);
    } else if op.Put? {
      PutExact(cfg, s, model, op, home);
    } else if op.Remove? {
      RemoveKeeps(cfg, s, model, op, home);
    } else if op.Clear? {
      ClearExact(cfg, s, model, op, home);
    }
  }

  /** While the tiers mirror the map, a get that is not refused returns what the map holds. */
  lemma GetIsModel(cfg: Config, s: Tiers, model: map<string, CacheObject>, key: string, count: u32, ioError: bool,
                   home: string -> string)
    requires Mirrors(s, model, home)
    ensures var path := FilePath(key, home(key));
            match GetAnswer(cfg, s, key, home(key), count, ioError)
            case Found(o) => path in model && model[path] == o
            case Missing => path !in model
            case OverQuota => !WithinQuota(cfg.readingMax, count)
            case IoError => ioError
            case Panicked => false
  {
    var path := FilePath(key, home(key));
    if path in model {
      DecodeEncode(model[path]);
      HeaderWords(model[path]);
    }
  }

  /** Every operation of the run is clean and leaves nothing stale where it is applied. */
  predicate Sound(cfg: Config, s: Tiers, ops: seq<Op>, home: string -> string) {
    ops == [] ||
    (var rest, op := ops[..|ops| - 1], ops[|ops| - 1];
     Sound(cfg, s, rest, home) && Clean(cfg, op, home) && LeavesNothingStale(cfg, Run(cfg, s, rest), op, home))
  }

  lemma NoTierNoMemory(cfg: Config, s: Tiers, op: Op)
    requires !cfg.tiered && s.memory == map[]
    ensures Apply(cfg, s, op).memory == map[]
  {
  }

  /** Over any sound run, evictions included, the two tiers stay one plain map. */
  lemma {:induction false} RunMirrors(cfg: Config, s: Tiers, model: map<string, CacheObject>, ops: seq<Op>,
                                      home: string -> string)
    requires Mirrors(s, model, home) && Sound(cfg, s, ops, home)
    requires !cfg.tiered ==> s.memory == map[]
    ensures Mirrors(Run(cfg, s, ops), RunModel(model, ops), home)
    ensures !cfg.tiered ==> Run(cfg, s, ops).memory == map[]
  {
    if ops != [] {
      var rest, op := ops[..|ops| - 1], ops[|ops| - 1];
      RunMirrors(cfg, s, model, rest, home);
      StepExact(cfg, Run(cfg, s, rest), RunModel(model, rest), op, home);
      if !cfg.tiered {
        NoTierNoMemory(cfg, Run(cfg, s, rest), op);
      }
    }
  }

  /** So after any sound run from an empty cache, a get that is not refused answers like the map. */
  lemma RunIsMap(cfg: Config, ops: seq<Op>, home: string -> string, key: string, count: u32, ioError: bool)
    requires Sound(cfg, Tiers(map[], map[]), ops, home)
    ensures var model := RunModel(map[], ops);
            var path := FilePath(key, home(key));
            match GetAnswer(cfg, Run(cfg, Tiers(map[], map[]), ops), key, home(key), count, ioError)
            case Found(o) => path in model && model[path] == o
            case Missing => path !in model
            case OverQuota => !WithinQuota(cfg.readingMax, count)
            case IoError => ioError
            case Panicked => false
  {
    var empty := Tiers(map[], map[]);
    RunMirrors(cfg, empty, map[], ops, home);
    GetIsModel(cfg, Run(cfg, empty, ops), RunModel(map[], ops), key, count, ioError, home);
  }

  /** All that a caller has to see to: light objects, or no memory tier, and no clears while there is one. */
  predicate Light(cfg: Config, op: Op) {
    match op
    case Put(_, _, value, _, _) => !cfg.tiered || Weight(value) < cfg.maxWeight
    case Clear(_) => !cfg.tiered
    case _ => true
  }

  lemma {:induction false} LightIsSound(cfg: Config, ops: seq<Op>, home: string -> string)
    requires forall i :: 0 <= i < |ops| ==> Clean(cfg, ops[i], home) && Light(cfg, ops[i])
    ensures Sound(cfg, Tiers(map[], map[]), ops, home)
    ensures !cfg.tiered ==> Run(cfg, Tiers(map[], map[]), ops).memory == map[]
  {
    if ops != [] {
      var rest := ops[..|ops| - 1];
      LightIsSound(cfg, rest, home);
      if !cfg.tiered {
        NoTierNoMemory(cfg, Run(cfg, Tiers(map[], map[]), rest), ops[|ops| - 1]);
      }
    }
  }

  /** With light objects and no clears, the cache is the map, whatever the memory tier drops. */
  lemma LightRunIsMap(cfg: Config, ops: seq<Op>, home: string -> string, key: string, count: u32, ioError: bool)
    requires forall i :: 0 <= i < |ops| ==> Clean(cfg, ops[i], home) && Light(cfg, ops[i])
    ensures var model := RunModel(map[], ops);
            var path := FilePath(key, home(key));
            match GetAnswer(cfg, Run(cfg, Tiers(map[], map[]), ops), key, home(key), count, ioError)
            case Found(o) => path in model && model[path] == o
            case Missing => path !in model
            case OverQuota => !WithinQuota(cfg.readingMax, count)
            case IoError => ioError
            case Panicked => false
  {
    LightIsSound(cfg, ops, home);
    RunIsMap(cfg, ops, home, key, count, ioError);
  }

  // ---------------------------------------------------------------------------------------------
  // Where the comparison breaks
  // ---------------------------------------------------------------------------------------------

  /**
    Two objects too heavy to be remembered, put one after the other under a key that was read in
    between: the read fills the memory tier without looking at the weight, the second put passes
    it by, and the first object is still served.
   */
  lemma HeavyPutIsShadowed(cfg: Config, key: string, namespace: string, first: CacheObject, second: CacheObject)
    requires cfg.tiered && Encodable(first)
    requires Weight(first) >= cfg.maxWeight && Weight(second) >= cfg.maxWeight
    ensures var start := Tiers(map[], map[]);
            var s1 := Apply(cfg, start, Put(key, namespace, first, 0, Written));
            var s2 := Apply(cfg, s1, Get(key, namespace, 0, false));
            var s3 := Apply(cfg, s2, Put(key, namespace, second, 0, Written));
            && s3.files[FilePath(key, namespace)] == Encode(second)
            && GetAnswer(cfg, s3, key, namespace, 0, false) == Found(first)
  {
    DecodeEncode(first);
    HeaderWords(first);
  }

  /**
    The memory tier knows a key but not its namespace: read under another namespace, a remembered
    key answers with its own object, which is right exactly when that file holds the same object.
   */
  lemma NamespaceExact(cfg: Config, s: Tiers, model: map<string, CacheObject>, key: string, other: string,
                       home: string -> string)
    requires cfg.tiered && Mirrors(s, model, home) && key in s.memory
    ensures var answer := GetAnswer(cfg, s, key, other, 0, false);
            && answer == Found(model[FilePath(key, home(key))])
            && (answer == ReadFile(s.files, FilePath(key, other))
                <==> FilePath(key, other) in model && model[FilePath(key, other)] == model[FilePath(key, home(key))])
  {
    if FilePath(key, other) in model {
      DecodeEncode(model[FilePath(key, other)]);
      HeaderWords(model[FilePath(key, other)]);
    }
  }

  /**
    A put refused for its quota has already been remembered: it is served until the memory tier
    drops it, and gone after that.
   */
  lemma RefusedPutIsServed(cfg: Config, s: Tiers, key: string, namespace: string, o: CacheObject, count: u32,
                           end: WriteEnd)
    requires Remembers(cfg, o) && !WithinQuota(cfg.writingMax, count)
    ensures var put := Put(key, namespace, o, count, end);
            var t := Apply(cfg, s, put);
            && PutResult(cfg, count, end) == PutOverQuota
            && GetAnswer(cfg, t, key, namespace, 0, false) == Found(o)
            && GetAnswer(cfg, Apply(cfg, t, Evict(key)), key, namespace, 0, false) ==
               ReadFile(s.files, FilePath(key, namespace))
  {
  }
}
