/**
  Storing a configuration in files and loading it again, after `get_toml` of
  pingap-config/src/common.rs, `save_config` and `load_config` of pingap-config/src/file.rs, and
  `sync_config` and `read_all_toml_files` of pingap-config/src/lib.rs.

  A file holds a part of a configuration, so its content is again a `ConfText`; a part without basic
  lines has no basic table. Files are found by the text of their path below the configured one.
 */
module ConfigSync {
  import opened Wrappers
  import opened ConfigItems

  /** One TOML file; a directory with a file for each category; or one with a file for each name. */
  datatype Mode = SingleFile | ByCategory | ByName

  type Files = map<string, ConfText>

  /** The path of the single file below itself. */
  const ITSELF := ""

  /** The table of the TOML that holds the category. */
  function TableOf(c: Category): string {
    match c
    case Server => "servers"
    case Location => "locations"
    case Upstream => "upstreams"
    case Plugin => "plugins"
    case Certificate => "certificates"
    case Storage => "storages"
    case _ => "basic"
  }

  predicate Nameless(name: Option<string>) {
    name.None? || name.value == ""
  }

  function TomlPath(c: Category, name: Option<string>): string {
    if !HoldsItems(c) || Nameless(name) then "/" + TableOf(c) + ".toml"
    else "/" + TableOf(c) + "/" + name.value + ".toml"
  }

  /** The item is of the category and, if one is named, has the name. */
  predicate Selects(c: Category, name: Option<string>, e: Entry) {
    e.category == c && (Nameless(name) || e.name == name.value)
  }

  function TomlPart(conf: ConfText, c: Category, name: Option<string>): ConfText {
    if !HoldsItems(c) then ConfText(conf.basic, map[])
    else ConfText([], conf.items - (set e | e in conf.items && !Selects(c, name, e)))
  }

  predicate IsEmpty(part: ConfText) {
    part.basic == [] && part.items == map[]
  }

  /** What `save_config` makes of the name it is given. */
  function NameUsed(mode: Mode, name: Option<string>): Option<string> {
    if mode.ByName? then name else None
  }

  function PathOf(mode: Mode, c: Category, name: Option<string>): string {
    if mode.SingleFile? then ITSELF else TomlPath(c, NameUsed(mode, name))
  }

  function PartOf(mode: Mode, conf: ConfText, c: Category, name: Option<string>): ConfText {
    if mode.SingleFile? then conf else TomlPart(conf, c, NameUsed(mode, name))
  }

  /** The file at `path` says `part`; in a directory an empty part has no file. */
  predicate Stored(mode: Mode, files: Files, path: string, part: ConfText) {
    if !mode.SingleFile? && IsEmpty(part) then path !in files else path in files && files[path] == part
  }

  class FileStorage {
    const mode: Mode
    var files: Files

    constructor (mode: Mode)
      ensures this.mode == mode && files == map[]
    {
      this.mode := mode;
      files := map[];
    }

    /** Stores one part; `valid` is what `validate` says of the whole configuration. */
    method SaveConfig(conf: ConfText, valid: bool, c: Category, name: Option<string>) returns (ok: bool)
      modifies this
      ensures ok <==> valid
      ensures !ok ==> files == old(files)
      ensures ok ==> SavedOne(mode, conf, c, name, old(files), files)
    {
      if !valid {
        return false;
      }
      if mode.SingleFile? {
        Write(ITSELF, conf);
      } else {
        var used := if mode.ByName? && name.Some? then name else None;
        Write(TomlPath(c, used), TomlPart(conf, c, used));
      }
      return true;
    }

    method Write(path: string, part: ConfText)
      modifies this
      ensures Stored(mode, files, path, part)
      ensures forall p :: p != path ==> SameAt(old(files), files, p)
    {
      if !mode.SingleFile? && IsEmpty(part) {
        files := files - {path};
      } else {
        files := files[path := part];
      }
    }

    /** Reads every file of the directory, in no particular order. */
    method ReadAll() returns (data: seq<ConfText>)
      ensures exists paths :: Reads(files, paths, data)
    {
      data := [];
      ghost var paths: seq<string> := [];
      var todo := files.Keys;
      while todo != {}
        invariant todo <= files.Keys && |data| == |paths|
        invariant forall p :: p in paths <==> p in files && p !in todo
        invariant forall i, j :: 0 <= i < j < |paths| ==> paths[i] != paths[j]
        invariant forall i :: 0 <= i < |paths| ==> paths[i] in files && data[i] == files[paths[i]]
      {
        var p :| p in todo;
        data := data + [files[p]];
        paths := paths + [p];
        todo := todo - {p};
      }
      assert Reads(files, paths, data);
    }

    /** Nothing when a table is defined twice, or when the single file is missing. */
    method LoadConfig() returns (r: Option<ConfText>)
      ensures IsLoaded(mode, files, r)
    {
      if mode.SingleFile? {
        return if ITSELF in files then Some(files[ITSELF]) else None;
      }
      var data := ReadAll();
      r := Parse(data);
      ghost var paths :| Reads(files, paths, data);
      ParseMerges(files, paths, data);
    }
  }

  ghost predicate SavedOne(mode: Mode, conf: ConfText, c: Category, name: Option<string>, before: Files, after: Files) {
    && Stored(mode, after, PathOf(mode, c, name), PartOf(mode, conf, c, name))
    && forall p :: p != PathOf(mode, c, name) ==> SameAt(before, after, p)
  }

  predicate SameAt(before: Files, after: Files, p: string) {
    (p in before <==> p in after) && (p in before && p in after ==> before[p] == after[p])
  }

  // ---------------------------------------------------------------------------------------------
  // Merging files
  // ---------------------------------------------------------------------------------------------

  ghost predicate Enumerates(files: Files, paths: seq<string>) {
    && (forall p :: p in paths <==> p in files)
    && forall i, j :: 0 <= i < j < |paths| ==> paths[i] != paths[j]
  }

  /** The two parts define no table together. */
  predicate Compatible(a: ConfText, b: ConfText) {
    (a.basic == [] || b.basic == []) && a.items.Keys !! b.items.Keys
  }

  /** The TOML of all parts one after the other, parsed as one text. */
  function Parse(data: seq<ConfText>): Option<ConfText> {
    if data == [] then Some(ConfText([], map[]))
    else
      var rest, last := Parse(data[..|data| - 1]), data[|data| - 1];
      if rest.None? || !Compatible(rest.value, last) then None
      else Some(ConfText(rest.value.basic + last.basic, rest.value.items + last.items))
  }

  /** `part` says nothing that `c` does not say. */
  predicate PartIn(part: ConfText, c: ConfText) {
    && (part.basic == [] || part.basic == c.basic)
    && forall e :: e in part.items ==> e in c.items && c.items[e] == part.items[e]
  }

  /** `c` is what the parts say together. */
  ghost predicate Merges(data: seq<ConfText>, c: ConfText) {
    && (forall i :: 0 <= i < |data| ==> PartIn(data[i], c))
    && (c.basic == [] || exists i :: 0 <= i < |data| && data[i].basic != [])
    && (forall e :: e in c.items ==> exists i :: 0 <= i < |data| && e in data[i].items)
  }

  ghost predicate AllCompatible(data: seq<ConfText>) {
    forall i, j :: 0 <= i < j < |data| ==> Compatible(data[i], data[j])
  }

  lemma MergeOne(data: seq<ConfText>, last: ConfText, c: ConfText)
    requires Merges(data, c) && Compatible(c, last)
    ensures Merges(data + [last], ConfText(c.basic + last.basic, c.items + last.items))
  {
    var all, both := data + [last], ConfText(c.basic + last.basic, c.items + last.items);
    assert all[|data|] == last;
    forall i | 0 <= i < |all|
      ensures PartIn(all[i], both)
    {
      if i < |data| {
        assert PartIn(data[i], c);
      }
    }
    if c.basic != [] {
      var i :| 0 <= i < |data| && data[i].basic != [];
      assert all[i].basic != [];
    }
    forall e | e in both.items
      ensures exists i :: 0 <= i < |all| && e in all[i].items
    {
      if e !in last.items {
        var i :| 0 <= i < |data| && e in data[i].items;
        assert e in all[i].items;
      }
    }
  }

  lemma CompatibleWithAll(data: seq<ConfText>, last: ConfText, c: ConfText)
    requires Merges(data, c)
    ensures Compatible(c, last) <==> forall i :: 0 <= i < |data| ==> Compatible(data[i], last)
  {
    if Compatible(c, last) {
      forall i | 0 <= i < |data|
        ensures Compatible(data[i], last)
      {
        assert PartIn(data[i], c);
      }
    } else if c.basic != [] && last.basic != [] {
      var i :| 0 <= i < |data| && data[i].basic != [];
      assert !Compatible(data[i], last);
    } else {
      var e :| e in c.items && e in last.items;
      var i :| 0 <= i < |data| && e in data[i].items;
      assert !Compatible(data[i], last);
    }
  }

  /** Parsing succeeds exactly when no table is defined twice, and then merges the parts. */
  lemma {:induction false} ParseExact(data: seq<ConfText>)
    ensures Parse(data).Some? <==> AllCompatible(data)
    ensures Parse(data).Some? ==> Merges(data, Parse(data).value)
  {
    if data != [] {
      var rest, last := data[..|data| - 1], data[|data| - 1];
      assert data == rest + [last];
      ParseExact(rest);
      if AllCompatible(data) {
        assert AllCompatible(rest);
      }
      if Parse(rest).Some? {
        CompatibleWithAll(rest, last, Parse(rest).value);
        assert forall i :: 0 <= i < |rest| ==> rest[i] == data[i];
        if Compatible(Parse(rest).value, last) {
          MergeOne(rest, last, Parse(rest).value);
        } else {
          var i :| 0 <= i < |rest| && !Compatible(rest[i], last);
          assert !Compatible(data[i], data[|data| - 1]);
        }
      }
    }
  }

  ghost predicate FilesCompatible(files: Files) {
    forall p, q :: p in files && q in files && p != q ==> Compatible(files[p], files[q])
  }

  /** `c` is what the files say together. */
  ghost predicate FilesMerge(files: Files, c: ConfText) {
    && (forall p :: p in files ==> PartIn(files[p], c))
    && (c.basic == [] || exists p :: p in files && files[p].basic != [])
    && (forall e :: e in c.items ==> exists p :: p in files && e in files[p].items)
  }

  ghost predicate IsMerge(files: Files, r: Option<ConfText>) {
    && (r.Some? <==> FilesCompatible(files))
    && (r.Some? ==> FilesMerge(files, r.value))
  }

  /** What `load_config` gives: of a single file that file, of a directory all files together. */
  ghost predicate IsLoaded(mode: Mode, files: Files, r: Option<ConfText>) {
    if mode.SingleFile? then r == if ITSELF in files then Some(files[ITSELF]) else None
    else IsMerge(files, r)
  }

  ghost predicate Reads(files: Files, paths: seq<string>, data: seq<ConfText>) {
    && Enumerates(files, paths) && |data| == |paths|
    && forall i :: 0 <= i < |paths| ==> paths[i] in files && data[i] == files[paths[i]]
  }

  lemma ReadAt(files: Files, paths: seq<string>, data: seq<ConfText>, p: string) returns (i: nat)
    requires Reads(files, paths, data) && p in files
    ensures i < |data| && paths[i] == p && data[i] == files[p]
  {
    assert p in paths;
    i :| 0 <= i < |paths| && paths[i] == p;
  }

  lemma SameCompatibility(files: Files, paths: seq<string>, data: seq<ConfText>)
    requires Reads(files, paths, data)
    ensures AllCompatible(data) <==> FilesCompatible(files)
  {
    if AllCompatible(data) {
      forall p, q | p in files && q in files && p != q
        ensures Compatible(files[p], files[q])
      {
        var i := ReadAt(files, paths, data, p);
        var j := ReadAt(files, paths, data, q);
        assert i < j ==> Compatible(data[i], data[j]);
        assert j < i ==> Compatible(data[j], data[i]);
      }
    }
  }

  lemma PartsOfFiles(files: Files, paths: seq<string>, data: seq<ConfText>, c: ConfText, p: string)
    requires Reads(files, paths, data) && Merges(data, c) && p in files
    ensures PartIn(files[p], c)
  {
    var i := ReadAt(files, paths, data, p);
    assert PartIn(data[i], c);
  }

  lemma ItemOfFiles(files: Files, paths: seq<string>, data: seq<ConfText>, e: Entry) returns (p: string)
    requires Reads(files, paths, data) && exists i :: 0 <= i < |data| && e in data[i].items
    ensures p in files && e in files[p].items
  {
    var i :| 0 <= i < |data| && e in data[i].items;
    p := paths[i];
  }

  lemma BasicOfFiles(files: Files, paths: seq<string>, data: seq<ConfText>, c: ConfText)
    requires Reads(files, paths, data) && Merges(data, c) && c.basic != []
    ensures exists p :: p in files && files[p].basic != []
  {
    var i :| 0 <= i < |data| && data[i].basic != [];
    assert files[paths[i]].basic != [];
  }

  lemma SameMerge(files: Files, paths: seq<string>, data: seq<ConfText>, c: ConfText)
    requires Reads(files, paths, data) && Merges(data, c)
    ensures FilesMerge(files, c)
  {
    forall p | p in files {
      PartsOfFiles(files, paths, data, c, p);
    }
    if c.basic != [] {
      BasicOfFiles(files, paths, data, c);
    }
    forall e | e in c.items
      ensures exists p :: p in files && e in files[p].items
    {
      var p := ItemOfFiles(files, paths, data, e);
    }
  }

  lemma ParseMerges(files: Files, paths: seq<string>, data: seq<ConfText>)
    requires Reads(files, paths, data)
    ensures IsMerge(files, Parse(data))
  {
    ParseExact(data);
    SameCompatibility(files, paths, data);
    if Parse(data).Some? {
      SameMerge(files, paths, data, Parse(data).value);
    }
  }

  // ---------------------------------------------------------------------------------------------
  // Paths
  // ---------------------------------------------------------------------------------------------

  /** The two letters after the slash tell the tables apart. */
  lemma TablesDiffer(c: Category, d: Category, r: string, t: string)
    requires "/" + TableOf(c) + r == "/" + TableOf(d) + t
    ensures TableOf(c) == TableOf(d) && r == t
  {
    var p, q := "/" + TableOf(c) + r, "/" + TableOf(d) + t;
    assert p[1] == TableOf(c)[0] && p[2] == TableOf(c)[1];
    assert q[1] == TableOf(d)[0] && q[2] == TableOf(d)[1];
    assert p[1 + |TableOf(c)|..] == r && q[1 + |TableOf(d)|..] == t;
  }

  lemma SameTable(c: Category, d: Category)
    requires TableOf(c) == TableOf(d)
    ensures HoldsItems(c) == HoldsItems(d)
    ensures HoldsItems(c) ==> c == d
  {
    assert TableOf(c)[0] == TableOf(d)[0] && TableOf(c)[1] == TableOf(d)[1];
  }

  function PathRest(c: Category, name: Option<string>): string {
    if !HoldsItems(c) || Nameless(name) then ".toml" else "/" + name.value + ".toml"
  }

  lemma PathSplits(c: Category, name: Option<string>)
    ensures TomlPath(c, name) == "/" + TableOf(c) + PathRest(c, name)
  {
    if HoldsItems(c) && !Nameless(name) {
      assert "/" + TableOf(c) + "/" + name.value + ".toml" == "/" + TableOf(c) + ("/" + name.value + ".toml");
    }
  }

  lemma NamesDiffer(n: string, m: string)
    requires "/" + n + ".toml" == "/" + m + ".toml"
    ensures n == m
  {
    assert ("/" + n + ".toml")[1..|n| + 1] == n;
    assert ("/" + m + ".toml")[1..|m| + 1] == m;
  }

  /** A path belongs to one category and, if it is an item's, to one name. */
  lemma PathsDiffer(c: Category, n: Option<string>, d: Category, m: Option<string>)
    requires TomlPath(c, n) == TomlPath(d, m)
    ensures HoldsItems(c) == HoldsItems(d)
    ensures HoldsItems(c) ==> c == d && Nameless(n) == Nameless(m) && (!Nameless(n) ==> n == m)
  {
    PathSplits(c, n);
    PathSplits(d, m);
    TablesDiffer(c, d, PathRest(c, n), PathRest(d, m));
    SameTable(c, d);
    if HoldsItems(c) {
      assert PathRest(c, n)[0] == PathRest(d, m)[0];
      if !Nameless(n) && !Nameless(m) {
        NamesDiffer(n.value, m.value);
      }
    }
  }

  /** Writing a file twice in one run writes the same part both times. */
  lemma SamePathSamePart(mode: Mode, conf: ConfText, c: Category, n: Option<string>, d: Category, m: Option<string>)
    requires PathOf(mode, c, n) == PathOf(mode, d, m)
    ensures PartOf(mode, conf, c, n) == PartOf(mode, conf, d, m)
  {
    if !mode.SingleFile? {
      var u, v := NameUsed(mode, n), NameUsed(mode, m);
      PathsDiffer(c, u, d, v);
      assert TomlPart(conf, c, u).items == TomlPart(conf, d, v).items;
    }
  }

  // ---------------------------------------------------------------------------------------------
  // Storing everything
  // ---------------------------------------------------------------------------------------------

  datatype Job = Job(category: Category, name: Option<string>)

  predicate IsJob(conf: ConfText, j: Job) {
    j == Job(Basic, None) || (j.name.Some? && Entry(j.category, j.name.value) in conf.items)
  }

  ghost predicate IsTarget(mode: Mode, conf: ConfText, p: string) {
    exists j :: IsJob(conf, j) && PathOf(mode, j.category, j.name) == p
  }

  predicate Done(mode: Mode, conf: ConfText, j: Job, files: Files) {
    Stored(mode, files, PathOf(mode, j.category, j.name), PartOf(mode, conf, j.category, j.name))
  }

  /** Every job's file says its part, and all other files are as they were. */
  ghost predicate Synced(mode: Mode, conf: ConfText, before: Files, after: Files) {
    && (forall j :: IsJob(conf, j) ==> Done(mode, conf, j, after))
    && (forall p :: !IsTarget(mode, conf, p) ==> SameAt(before, after, p))
  }

  lemma SaveKeepsDone(mode: Mode, conf: ConfText, j: Job, k: Job, before: Files, after: Files)
    requires SavedOne(mode, conf, j.category, j.name, before, after)
    requires Done(mode, conf, k, before) || k == j
    ensures Done(mode, conf, k, after)
  {
    var p := PathOf(mode, k.category, k.name);
    if PathOf(mode, j.category, j.name) == p {
      SamePathSamePart(mode, conf, j.category, j.name, k.category, k.name);
    } else {
      assert SameAt(before, after, p);
    }
  }

  /** The basic part first, then a job for every item. */
  method WorkList(conf: ConfText) returns (jobs: seq<Job>)
    ensures forall j :: j in jobs <==> IsJob(conf, j)
  {
    jobs := [Job(Basic, None)];
    var todo := conf.items.Keys;
    while todo != {}
      invariant todo <= conf.items.Keys
      invariant forall j :: j in jobs <==>
                IsJob(conf, j) && (j == Job(Basic, None) || Entry(j.category, j.name.value) !in todo)
    {
      var e :| e in todo;
      jobs := jobs + [Job(e.category, Some(e.name))];
      todo := todo - {e};
    }
  }

  method SyncConfig(conf: ConfText, valid: bool, storage: FileStorage) returns (ok: bool)
    modifies storage
    ensures ok <==> valid
    ensures !ok ==> storage.files == old(storage.files)
    ensures ok ==> Synced(storage.mode, conf, old(storage.files), storage.files)
  {
    var mode := storage.mode;
    var jobs := WorkList(conf);
    for i := 0 to |jobs|
      invariant i > 0 ==> valid
      invariant i == 0 ==> storage.files == old(storage.files)
      invariant forall k :: 0 <= k < i ==> Done(mode, conf, jobs[k], storage.files)
      invariant forall p :: !IsTarget(mode, conf, p) ==> SameAt(old(storage.files), storage.files, p)
    {
      ghost var before := storage.files;
      var saved := storage.SaveConfig(conf, valid, jobs[i].category, jobs[i].name);
      if !saved {
        return false;
      }
      assert jobs[i] in jobs;
      forall k | 0 <= k < i + 1
        ensures Done(mode, conf, jobs[k], storage.files)
      {
        SaveKeepsDone(mode, conf, jobs[i], jobs[k], before, storage.files);
      }
      forall p | !IsTarget(mode, conf, p)
        ensures SameAt(old(storage.files), storage.files, p)
      {
        assert SameAt(before, storage.files, p);
      }
    }
    assert Job(Basic, None) in jobs;
    return true;
  }

  // ---------------------------------------------------------------------------------------------
  // Loading what was stored
  // ---------------------------------------------------------------------------------------------

  /** With a file for each name, the empty name has its category to itself: it stores all of it. */
  ghost predicate NamesFit(mode: Mode, conf: ConfText) {
    mode.ByName? ==>
      forall e, f :: e in conf.items && f in conf.items && e.category == f.category && e.name == "" ==> e == f
  }

  /** No file that the run does not touch says anything. */
  ghost predicate NoLeftover(mode: Mode, conf: ConfText, before: Files) {
    forall p :: p in before && !IsTarget(mode, conf, p) ==> IsEmpty(before[p])
  }

  /** Only of a directory are other files read. */
  ghost predicate NothingStale(mode: Mode, conf: ConfText, before: Files) {
    mode.SingleFile? || NoLeftover(mode, conf, before)
  }

  function JobOf(e: Entry): Job {
    Job(e.category, Some(e.name))
  }

  lemma JobHoldsItem(mode: Mode, conf: ConfText, e: Entry)
    requires conf.WellFormed() && e in conf.items
    ensures IsJob(conf, JobOf(e)) && e in PartOf(mode, conf, e.category, Some(e.name)).items
  {
  }

  /** An item is stored in its own file only. */
  lemma OneHome(mode: Mode, conf: ConfText, j: Job, e: Entry)
    requires conf.WellFormed() && NamesFit(mode, conf) && IsJob(conf, j)
    requires e in PartOf(mode, conf, j.category, j.name).items
    ensures e in conf.items && PathOf(mode, j.category, j.name) == PathOf(mode, e.category, Some(e.name))
  {
  }

  lemma PartsAreIn(mode: Mode, conf: ConfText, j: Job)
    ensures PartIn(PartOf(mode, conf, j.category, j.name), conf)
  {
  }

  lemma BasicHome(mode: Mode, conf: ConfText, j: Job)
    requires conf.WellFormed() && IsJob(conf, j) && PartOf(mode, conf, j.category, j.name).basic != []
    ensures PathOf(mode, j.category, j.name) == PathOf(mode, Basic, None)
  {
  }

  /** The content of a file after the run. */
  lemma FileAfter(mode: Mode, conf: ConfText, before: Files, after: Files, p: string) returns (j: Job)
    requires Synced(mode, conf, before, after) && NoLeftover(mode, conf, before)
    requires p in after && !IsEmpty(after[p])
    ensures IsJob(conf, j) && PathOf(mode, j.category, j.name) == p
    ensures after[p] == PartOf(mode, conf, j.category, j.name)
  {
    assert IsTarget(mode, conf, p) || SameAt(before, after, p);
    j :| IsJob(conf, j) && PathOf(mode, j.category, j.name) == p;
    assert Done(mode, conf, j, after);
  }

  lemma SyncedFilesCompatible(mode: Mode, conf: ConfText, before: Files, after: Files)
    requires conf.WellFormed() && Synced(mode, conf, before, after)
    requires NamesFit(mode, conf) && NoLeftover(mode, conf, before)
    ensures FilesCompatible(after)
  {
    forall p, q | p in after && q in after && p != q
      ensures Compatible(after[p], after[q])
    {
      if !IsEmpty(after[p]) && !IsEmpty(after[q]) {
        var j := FileAfter(mode, conf, before, after, p);
        var k := FileAfter(mode, conf, before, after, q);
        if after[p].basic != [] && after[q].basic != [] {
          BasicHome(mode, conf, j);
          BasicHome(mode, conf, k);
        }
        forall e | e in after[p].items
          ensures e !in after[q].items
        {
          OneHome(mode, conf, j, e);
          if e in after[q].items {
            OneHome(mode, conf, k, e);
          }
        }
      }
    }
  }

  lemma SyncedFilesMerge(mode: Mode, conf: ConfText, before: Files, after: Files)
    requires conf.WellFormed() && Synced(mode, conf, before, after) && NoLeftover(mode, conf, before)
    ensures FilesMerge(after, conf)
  {
    forall p | p in after
      ensures PartIn(after[p], conf)
    {
      if !IsEmpty(after[p]) {
        var j := FileAfter(mode, conf, before, after, p);
        PartsAreIn(mode, conf, j);
      }
    }
    assert Done(mode, conf, Job(Basic, None), after);
    if conf.basic != [] {
      assert after[PathOf(mode, Basic, None)].basic != [];
    }
    forall e | e in conf.items
      ensures exists p :: p in after && e in after[p].items
    {
      JobHoldsItem(mode, conf, e);
      assert Done(mode, conf, JobOf(e), after);
      assert e in after[PathOf(mode, e.category, Some(e.name))].items;
    }
  }

  lemma MergeItem(part: ConfText, c: ConfText, d: ConfText, e: Entry)
    requires PartIn(part, c) && PartIn(part, d) && e in part.items
    ensures e in c.items && e in d.items && d.items[e] == c.items[e]
  {
  }

  lemma MergeBasic(files: Files, c: ConfText, d: ConfText)
    requires FilesMerge(files, c) && FilesMerge(files, d) && c.basic != []
    ensures d.basic == c.basic
  {
    var p :| p in files && files[p].basic != [];
    assert PartIn(files[p], c) && PartIn(files[p], d);
  }

  lemma SameText(c: ConfText, d: ConfText)
    requires PartIn(c, d) && PartIn(d, c)
    ensures c == d
  {
    assert c.items == d.items;
  }

  lemma MergeIsUnique(files: Files, c: ConfText, d: ConfText)
    requires FilesMerge(files, c) && FilesMerge(files, d)
    ensures c == d
  {
    MergeWithin(files, c, d);
    MergeWithin(files, d, c);
    SameText(c, d);
  }

  lemma MergeWithin(files: Files, c: ConfText, d: ConfText)
    requires FilesMerge(files, c) && FilesMerge(files, d)
    ensures PartIn(c, d)
  {
    if c.basic != [] {
      MergeBasic(files, c, d);
    }
    forall e | e in c.items
      ensures e in d.items && d.items[e] == c.items[e]
    {
      var p :| p in files && e in files[p].items;
      MergeItem(files[p], c, d, e);
    }
  }

  /** A file the run does not touch that says something repeats a table, or adds one. */
  lemma StaleShows(mode: Mode, conf: ConfText, before: Files, after: Files, p: string)
    requires conf.WellFormed() && Synced(mode, conf, before, after)
    requires p in before && !IsTarget(mode, conf, p) && !IsEmpty(before[p])
    ensures FilesMerge(after, conf) ==> !FilesCompatible(after)
  {
    assert SameAt(before, after, p);
    if FilesMerge(after, conf) {
      assert PartIn(after[p], conf);
      if after[p].basic != [] {
        var j := Job(Basic, None);
        assert IsJob(conf, j) && Done(mode, conf, j, after);
        var q := PathOf(mode, Basic, None);
        assert q in after && after[q].basic != [];
        assert !Compatible(after[p], after[q]);
      } else {
        var e :| e in after[p].items;
        JobHoldsItem(mode, conf, e);
        assert Done(mode, conf, JobOf(e), after);
        var q := PathOf(mode, e.category, Some(e.name));
        assert q in after && e in after[q].items;
        assert !Compatible(after[p], after[q]);
      }
    }
  }

  /** The empty name beside another: the second item is stored twice. */
  lemma MisfitShows(conf: ConfText, before: Files, after: Files, e: Entry, f: Entry)
    requires conf.WellFormed() && Synced(ByName, conf, before, after)
    requires e in conf.items && f in conf.items && e.category == f.category && e.name == "" && e != f
    ensures !FilesCompatible(after)
  {
    JobHoldsItem(ByName, conf, e);
    JobHoldsItem(ByName, conf, f);
    assert Done(ByName, conf, JobOf(e), after) && Done(ByName, conf, JobOf(f), after);
    var p, q := PathOf(ByName, e.category, Some(e.name)), PathOf(ByName, f.category, Some(f.name));
    if p == q {
      PathsDiffer(e.category, Some(e.name), f.category, Some(f.name));
    }
    assert f in after[p].items && f in after[q].items;
    assert !Compatible(after[p], after[q]);
  }

  /**
    Whatever the directory held before, loading after a complete `sync_config` gives the same
    configuration back exactly when names fit the mode and no untouched file says anything.
   */
  lemma SyncThenLoad(mode: Mode, conf: ConfText, before: Files, after: Files, loaded: Option<ConfText>)
    requires conf.WellFormed() && Synced(mode, conf, before, after) && IsLoaded(mode, after, loaded)
    ensures loaded == Some(conf) <==> NamesFit(mode, conf) && NothingStale(mode, conf, before)
  {
    if mode.SingleFile? {
      assert Done(mode, conf, Job(Basic, None), after);
    } else if NamesFit(mode, conf) && NothingStale(mode, conf, before) {
      SyncedFilesCompatible(mode, conf, before, after);
      SyncedFilesMerge(mode, conf, before, after);
      MergeIsUnique(after, conf, loaded.value);
    }
    if loaded == Some(conf) {
      if !NothingStale(mode, conf, before) {
        var p :| p in before && !IsTarget(mode, conf, p) && !IsEmpty(before[p]);
        StaleShows(mode, conf, before, after, p);
      }
      if !NamesFit(mode, conf) {
        var e, f :| e in conf.items && f in conf.items && e.category == f.category && e.name == "" && e != f;
        MisfitShows(conf, before, after, e, f);
      }
    }
  }

  /** Into an empty directory only the names matter. */
  lemma FirstSync(mode: Mode, conf: ConfText, after: Files, loaded: Option<ConfText>)
    requires conf.WellFormed() && Synced(mode, conf, map[], after) && IsLoaded(mode, after, loaded)
    ensures loaded == Some(conf) <==> NamesFit(mode, conf)
  {
    SyncThenLoad(mode, conf, map[], after, loaded);
  }

  /** What an earlier configuration stored is stored over: by category, or by name. */
  ghost predicate Covers(mode: Mode, older: ConfText, conf: ConfText) {
    match mode
    case SingleFile => true
    case ByCategory => forall e :: e in older.items ==> exists f :: f in conf.items && f.category == e.category
    case ByName => forall e :: e in older.items ==> e in conf.items
  }

  lemma TargetsAreCovered(mode: Mode, older: ConfText, conf: ConfText)
    requires older.WellFormed() && conf.WellFormed()
    ensures Covers(mode, older, conf) <==>
            forall e :: e in older.items ==> IsTarget(mode, conf, PathOf(mode, e.category, Some(e.name)))
  {
    assert IsJob(conf, Job(Basic, None));
    forall e | e in older.items
      ensures IsTarget(mode, conf, PathOf(mode, e.category, Some(e.name))) <==>
              (mode.SingleFile?
               || (mode.ByCategory? && exists f :: f in conf.items && f.category == e.category)
               || (mode.ByName? && e in conf.items))
    {
      TargetOfItem(mode, conf, e);
    }
  }

  lemma TargetOfItem(mode: Mode, conf: ConfText, e: Entry)
    requires conf.WellFormed() && HoldsItems(e.category)
    ensures IsTarget(mode, conf, PathOf(mode, e.category, Some(e.name))) <==>
            (mode.SingleFile?
             || (mode.ByCategory? && exists f :: f in conf.items && f.category == e.category)
             || (mode.ByName? && e in conf.items))
  {
    var p := PathOf(mode, e.category, Some(e.name));
    if mode.SingleFile? {
      assert IsJob(conf, Job(Basic, None)) && PathOf(mode, Basic, None) == p;
    } else {
      if IsTarget(mode, conf, p) {
        var j :| IsJob(conf, j) && PathOf(mode, j.category, j.name) == p;
        PathsDiffer(e.category, NameUsed(mode, Some(e.name)), j.category, NameUsed(mode, j.name));
        assert Entry(j.category, j.name.value) in conf.items;
      }
      if mode.ByName? && e in conf.items {
        assert IsJob(conf, JobOf(e));
      }
      if mode.ByCategory? && exists f :: f in conf.items && f.category == e.category {
        var f :| f in conf.items && f.category == e.category;
        assert IsJob(conf, JobOf(f)) && PathOf(mode, f.category, Some(f.name)) == p;
      }
    }
  }

  /** Syncing over the files of an earlier configuration: what it no longer has must be covered. */
  lemma SecondSync(mode: Mode, older: ConfText, conf: ConfText, middle: Files, after: Files, loaded: Option<ConfText>)
    requires older.WellFormed() && conf.WellFormed()
    requires Synced(mode, older, map[], middle) && Synced(mode, conf, middle, after) && IsLoaded(mode, after, loaded)
    ensures loaded == Some(conf) <==> NamesFit(mode, conf) && Covers(mode, older, conf)
  {
    TargetsAreCovered(mode, older, conf);
    SyncThenLoad(mode, conf, middle, after, loaded);
    if mode.SingleFile? {
      assert NothingStale(mode, conf, middle);
    } else if Covers(mode, older, conf) {
      forall p | p in middle && !IsEmpty(middle[p])
        ensures IsTarget(mode, conf, p)
      {
        var j := FileAfter(mode, older, map[], middle, p);
        if j == Job(Basic, None) {
          assert IsJob(conf, j);
        } else {
          assert Entry(j.category, j.name.value) in older.items;
        }
      }
    } else {
      var e :| e in older.items && !IsTarget(mode, conf, PathOf(mode, e.category, Some(e.name)));
      JobHoldsItem(mode, older, e);
      assert Done(mode, older, JobOf(e), middle);
      assert !NothingStale(mode, conf, middle);
    }
  }

  // ---------------------------------------------------------------------------------------------
  // Editing one item
  // ---------------------------------------------------------------------------------------------

  /** The two configurations agree on everything but the item, which one of them has. */
  ghost predicate DifferAt(a: ConfText, b: ConfText, e: Entry) {
    && a.basic == b.basic && (e in a.items || e in b.items)
    && forall f :: f != e ==>
      (f in a.items <==> f in b.items) && (f in a.items && f in b.items ==> a.items[f] == b.items[f])
  }

  /** The files are those of a run into an empty directory. */
  ghost predicate InStep(mode: Mode, conf: ConfText, files: Files) {
    Synced(mode, conf, map[], files)
  }

  /** A part that does not select the item in which two configurations differ is the same in both. */
  lemma TomlPartSame(a: ConfText, b: ConfText, e: Entry, c: Category, name: Option<string>)
    requires DifferAt(a, b, e) && !Selects(c, name, e)
    ensures TomlPart(a, c, name) == TomlPart(b, c, name)
  {
    assert TomlPart(a, c, name).items == TomlPart(b, c, name).items;
  }

  lemma OtherPartsSame(mode: Mode, a: ConfText, b: ConfText, e: Entry, j: Job)
    requires a.WellFormed() && b.WellFormed() && NamesFit(mode, a) && NamesFit(mode, b) && DifferAt(a, b, e)
    requires IsJob(a, j) && PathOf(mode, j.category, j.name) != PathOf(mode, e.category, Some(e.name))
    ensures IsJob(b, j) && PartOf(mode, a, j.category, j.name) == PartOf(mode, b, j.category, j.name)
  {
    if j != Job(Basic, None) {
      assert Entry(j.category, j.name.value) != e;
    }
    if !mode.SingleFile? {
      TomlPartSame(a, b, e, j.category, NameUsed(mode, j.name));
    }
  }

  lemma TargetStays(mode: Mode, a: ConfText, b: ConfText, e: Entry, p: string)
    requires a.WellFormed() && b.WellFormed() && NamesFit(mode, a) && NamesFit(mode, b) && DifferAt(a, b, e)
    requires p != PathOf(mode, e.category, Some(e.name))
    ensures IsTarget(mode, a, p) ==> IsTarget(mode, b, p)
  {
    if IsTarget(mode, a, p) {
      var j :| IsJob(a, j) && PathOf(mode, j.category, j.name) == p;
      OtherPartsSame(mode, a, b, e, j);
    }
  }

  /** A part that is not empty is a job's, if the item was one of the two configurations'. */
  lemma EditedPart(mode: Mode, a: ConfText, b: ConfText, e: Entry)
    requires a.WellFormed() && b.WellFormed() && NamesFit(mode, a) && NamesFit(mode, b) && DifferAt(a, b, e)
    ensures (mode.SingleFile? || !IsEmpty(PartOf(mode, b, e.category, Some(e.name)))) ==>
              IsTarget(mode, b, PathOf(mode, e.category, Some(e.name)))
  {
    var part := PartOf(mode, b, e.category, Some(e.name));
    TargetOfItem(mode, b, e);
    if !mode.SingleFile? && !IsEmpty(part) {
      var f :| f in part.items;
      assert f in b.items && f.category == e.category;
      if mode.ByName? && f != e {
        assert e.name == "" && f in a.items;
      }
    }
  }

  /**
    Adding, changing or removing one item and saving that item alone keeps the files in step with the
    configuration, as a complete run into an empty directory would leave them.
   */
  lemma SaveKeepsInStep(mode: Mode, a: ConfText, b: ConfText, e: Entry, before: Files, after: Files)
    requires a.WellFormed() && b.WellFormed() && NamesFit(mode, a) && NamesFit(mode, b) && DifferAt(a, b, e)
    requires InStep(mode, a, before) && SavedOne(mode, b, e.category, Some(e.name), before, after)
    ensures InStep(mode, b, after)
  {
    var path := PathOf(mode, e.category, Some(e.name));
    assert DifferAt(b, a, e);
    forall j | IsJob(b, j)
      ensures Done(mode, b, j, after)
    {
      var p := PathOf(mode, j.category, j.name);
      if p == path {
        SamePathSamePart(mode, b, j.category, j.name, e.category, Some(e.name));
      } else {
        OtherPartsSame(mode, b, a, e, j);
        assert Done(mode, a, j, before) && SameAt(before, after, p);
      }
    }
    EditedPart(mode, a, b, e);
    forall p | !IsTarget(mode, b, p)
      ensures p !in after
    {
      if p != path {
        assert SameAt(before, after, p);
        TargetStays(mode, a, b, e, p);
        assert SameAt(map[], before, p);
      }
    }
  }

  /** An edited item and what it becomes. */
  datatype Edit = Edit(entry: Entry, conf: ConfText)

  function Before(start: ConfText, edits: seq<Edit>, i: nat): ConfText
    requires i <= |edits|
  {
    if i == 0 then start else edits[i - 1].conf
  }

  /** The edit changes one item of `a` and saves it. */
  ghost predicate IsEdit(mode: Mode, a: ConfText, edit: Edit, before: Files, after: Files) {
    && edit.conf.WellFormed() && NamesFit(mode, edit.conf) && DifferAt(a, edit.conf, edit.entry)
    && SavedOne(mode, edit.conf, edit.entry.category, Some(edit.entry.name), before, after)
  }

  ghost predicate IsEditing(mode: Mode, start: ConfText, edits: seq<Edit>, stores: seq<Files>) {
    && |stores| == |edits| + 1
    && forall i :: 0 <= i < |edits| ==> IsEdit(mode, Before(start, edits, i), edits[i], stores[i], stores[i + 1])
  }

  ghost predicate Kept(mode: Mode, conf: ConfText, files: Files) {
    conf.WellFormed() && NamesFit(mode, conf) && InStep(mode, conf, files)
  }

  lemma EditKeeps(mode: Mode, a: ConfText, edit: Edit, before: Files, after: Files)
    requires Kept(mode, a, before) && IsEdit(mode, a, edit, before, after)
    ensures Kept(mode, edit.conf, after)
  {
    SaveKeepsInStep(mode, a, edit.conf, edit.entry, before, after);
  }

  lemma {:induction false} EditingKeeps(mode: Mode, start: ConfText, edits: seq<Edit>, stores: seq<Files>, n: nat)
    requires IsEditing(mode, start, edits, stores) && n <= |edits| && Kept(mode, start, stores[0])
    ensures Kept(mode, Before(start, edits, n), stores[n])
  {
    if n > 0 {
      EditingKeeps(mode, start, edits, stores, n - 1);
      EditKeeps(mode, Before(start, edits, n - 1), edits[n - 1], stores[n - 1], stores[n]);
    }
  }

  /** After any number of edits, loading gives the configuration of the last one. */
  lemma EditingLoads(mode: Mode, start: ConfText, edits: seq<Edit>, stores: seq<Files>, loaded: Option<ConfText>)
    requires IsEditing(mode, start, edits, stores) && Kept(mode, start, stores[0])
    requires IsLoaded(mode, stores[|edits|], loaded)
    ensures loaded == Some(Before(start, edits, |edits|))
  {
    EditingKeeps(mode, start, edits, stores, |edits|);
    FirstSync(mode, Before(start, edits, |edits|), stores[|edits|], loaded);
  }
}
