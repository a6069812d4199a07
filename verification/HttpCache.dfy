/**
  The storage adapter of pingap-cache/src/http_cache.rs over the two-tier cache: bodies arrive in
  chunks and are stored whole, hits are read back whole or by range, metadata is replaced under a
  stored body, and entries are purged.
 */
module HttpCache {
  import opened Wrappers
  import opened CacheCodec
  import F = FileCache

  // ---------------------------------------------------------------------------------------------
  // Hits
  // ---------------------------------------------------------------------------------------------

  /** What one read of a hit yields; slicing with the start behind the end panics. */
  datatype Chunk = Chunk(data: Bytes) | NoMore | Abort

  datatype Hit = Hit(body: Bytes, done: bool, start: nat, end: nat)

  function NewHit(body: Bytes): Hit {
    Hit(body, false, 0, |body|)
  }

  predicate ValidHit(h: Hit) {
    h.start <= |h.body| && h.end <= |h.body|
  }

  function ReadHit(h: Hit): Chunk
    requires ValidHit(h)
  {
    if h.done then NoMore
    else if h.start <= h.end then Chunk(h.body[h.start..h.end])
    else Abort
  }

  function SeekHit(h: Hit, start: nat, end: Option<nat>): Option<Hit> {
    if start >= |h.body| then None
    else Some(Hit(h.body, false, start, if end.Some? then Min(|h.body|, end.value) else h.end))
  }

  class CompleteHit {
    const body: Bytes
    var done: bool
    var rangeStart: nat
    var rangeEnd: nat

    constructor (body: Bytes)
      ensures View() == NewHit(body)
    {
      this.body, done, rangeStart, rangeEnd := body, false, 0, |body|;
    }

    function View(): Hit
      reads this
    {
      Hit(body, done, rangeStart, rangeEnd)
    }

    method Get() returns (r: Chunk)
      requires ValidHit(View())
      modifies this
      ensures r == ReadHit(old(View()))
      ensures old(done) <==> r == NoMore
      ensures View() == old(View()).(done := true)
    {
      if done {
        r := NoMore;
      } else {
        done := true;
        if rangeStart <= rangeEnd {
          r := Chunk(body[rangeStart..rangeEnd]);
        } else {
          r := Abort;
        }
      }
    }

    method Seek(start: nat, end: Option<nat>) returns (ok: bool)
      requires ValidHit(View())
      modifies this
      ensures ok <==> start < |body|
      ensures View() == if ok then SeekHit(old(View()), start, end).value else old(View())
      ensures ValidHit(View())
    {
      if start >= |body| {
        return false;
      }
      rangeStart := start;
      if end.Some? {
        rangeEnd := Min(|body|, end.value);
      }
      done := false;
      return true;
    }
  }

  /** The part of a body that a range asks for; a range that ends before it starts asks for an abort. */
  function Range(body: Bytes, start: nat, end: Option<nat>): Chunk {
    var hi := if end.Some? then Min(|body|, end.value) else |body|;
    if start <= hi then Chunk(body[start..hi]) else Abort
  }

  /**
    A seek followed by a read yields the range asked for, except that a range without an end stops
    where the last range with one stopped.
   */
  lemma SeekExact(h: Hit, start: nat, end: Option<nat>)
    requires ValidHit(h) && start < |h.body|
    ensures ReadHit(SeekHit(h, start, end).value) == Range(h.body, start, end) <==> end.Some? || h.end == |h.body|
  {
    if end.None? && start <= h.end < |h.body| {
      assert |h.body[start..h.end]| < |h.body[start..|h.body|]|;
    }
  }

  /** A read after a seek aborts exactly when the end then in force lies before the start. */
  lemma SeekAborts(h: Hit, start: nat, end: Option<nat>)
    requires ValidHit(h) && start < |h.body|
    ensures ReadHit(SeekHit(h, start, end).value) == Abort <==> (if end.Some? then end.value else h.end) < start
    ensures Range(h.body, start, end) == Abort <==> end.Some? && end.value < start
  {
  }

  /** A fresh hit answers its first range, whatever it is; a second one need not be answered in full. */
  lemma SecondRange(body: Bytes, start: nat, end: nat, again: nat)
    requires start < |body| && again < |body|
    ensures ReadHit(NewHit(body)) == Chunk(body)
    ensures var first := SeekHit(NewHit(body), start, Some(end)).value;
            && ReadHit(first) == Range(body, start, Some(end))
            && (ReadHit(SeekHit(first, again, None).value) == Range(body, again, None) <==> |body| <= end)
  {
    var first := SeekHit(NewHit(body), start, Some(end)).value;
    SeekExact(NewHit(body), start, Some(end));
    SeekExact(first, again, None);
    assert body[0..|body|] == body;
  }

  /** The proxy reads a hit until it yields nothing more. */
  method ReadOut(hit: CompleteHit) returns (data: Bytes, aborted: bool)
    requires ValidHit(hit.View())
    modifies hit
    ensures hit.View() == old(hit.View()).(done := true)
    ensures aborted <==> !old(hit.done) && hit.rangeEnd < hit.rangeStart
    ensures data == if old(hit.done) || aborted then [] else hit.body[hit.rangeStart..hit.rangeEnd]
  {
    data, aborted := [], false;
    while true
      invariant ValidHit(hit.View()) && hit.View() == old(hit.View()).(done := hit.done)
      invariant old(hit.done) ==> hit.done && data == []
      invariant !old(hit.done) && hit.done ==>
        hit.rangeStart <= hit.rangeEnd && data == hit.body[hit.rangeStart..hit.rangeEnd]
      invariant !hit.done ==> data == []
      decreases !hit.done
    {
      var r := hit.Get();
      match r {
        case NoMore =>
          return;
        case Abort =>
          data, aborted := [], true;
          return;
        case Chunk(more) =>
          data := data + more;
      }
    }
  }

  /** Each of a fresh hit and of a seek in it is read out once: the whole body, then the part asked for. */
  method ReadTwice(body: Bytes, start: nat, end: nat) returns (whole: Bytes, part: Bytes)
    requires start < |body| && start <= end
    ensures whole == body && part == body[start..Min(|body|, end)]
  {
    var hit := new CompleteHit(body);
    var aborted;
    whole, aborted := ReadOut(hit);
    assert body[0..|body|] == body;
    var ok := hit.Seek(start, Some(end));
    part, aborted := ReadOut(hit);
  }

  // ---------------------------------------------------------------------------------------------
  // Misses
  // ---------------------------------------------------------------------------------------------

  datatype FinishAnswer = Created(size: nat) | NotCreated(reason: F.PutAnswer)

  class ObjectMissHandler {
    const meta0: Bytes
    const meta1: Bytes
    var body: Bytes
    const key: string
    const namespace: string
    const cache: F.FileCache

    constructor (meta0: Bytes, meta1: Bytes, key: string, namespace: string, cache: F.FileCache)
      ensures this.meta0 == meta0 && this.meta1 == meta1 && body == []
      ensures this.key == key && this.namespace == namespace && this.cache == cache
    {
      this.meta0, this.meta1, body := meta0, meta1, [];
      this.key, this.namespace, this.cache := key, namespace, cache;
    }

    method WriteBody(data: Bytes)
      modifies this
      ensures body == old(body) + data
    {
      body := body + data;
    }

    method Finish(end: F.WriteEnd) returns (r: FinishAnswer)
      modifies cache
      ensures cache.Contents() == F.AfterPut(cache.cfg, old(cache.Contents()), key, namespace,
                                             CacheObject(meta0, meta1, body), old(cache.writing), end)
      ensures r == var put := F.PutResult(cache.cfg, old(cache.writing), end);
                   if put == F.Stored then Created(|body|) else NotCreated(put)
    {
      var size := |body|;
      var put := cache.Put(key, namespace, CacheObject(meta0, meta1, body), end);
      r := if put == F.Stored then Created(size) else NotCreated(put);
    }
  }

  function Concat(chunks: seq<Bytes>): Bytes {
    if chunks == [] then [] else Concat(chunks[..|chunks| - 1]) + chunks[|chunks| - 1]
  }

  function TotalLength(chunks: seq<Bytes>): nat {
    if chunks == [] then 0 else |chunks[0]| + TotalLength(chunks[1..])
  }

  lemma {:induction false} TotalLengthSnoc(chunks: seq<Bytes>, c: Bytes)
    ensures TotalLength(chunks + [c]) == TotalLength(chunks) + |c|
  {
    if chunks == [] {
      assert [c][1..] == [];
    } else {
      TotalLengthSnoc(chunks[1..], c);
      assert (chunks + [c])[1..] == chunks[1..] + [c];
    }
  }

  lemma {:induction false} ConcatLength(chunks: seq<Bytes>)
    ensures |Concat(chunks)| == TotalLength(chunks)
  {
    if chunks != [] {
      var rest, c := chunks[..|chunks| - 1], chunks[|chunks| - 1];
      ConcatLength(rest);
      TotalLengthSnoc(rest, c);
      assert chunks == rest + [c];
    }
  }

  /** The chunks in their order, as the proxy hands them on. */
  method WriteChunks(handler: ObjectMissHandler, chunks: seq<Bytes>)
    modifies handler
    ensures handler.body == old(handler.body) + Concat(chunks)
  {
    for i := 0 to |chunks|
      invariant handler.body == old(handler.body) + Concat(chunks[..i])
    {
      assert chunks[..i + 1][..i] == chunks[..i];
      handler.WriteBody(chunks[i]);
    }
    assert chunks[..|chunks|] == chunks;
  }

  /** A response stored from its first chunk to its last; the answer is its length, or the put's error. */
  method Store(cache: F.FileCache, key: string, namespace: string, meta0: Bytes, meta1: Bytes, chunks: seq<Bytes>,
               end: F.WriteEnd)
    returns (r: FinishAnswer)
    modifies cache
    ensures cache.Contents() == F.AfterPut(cache.cfg, old(cache.Contents()), key, namespace,
                                           CacheObject(meta0, meta1, Concat(chunks)), old(cache.writing), end)
    ensures r == var put := F.PutResult(cache.cfg, old(cache.writing), end);
                 if put == F.Stored then Created(TotalLength(chunks)) else NotCreated(put)
  {
    var handler := new ObjectMissHandler(meta0, meta1, key, namespace, cache);
    WriteChunks(handler, chunks);
    assert handler.body == Concat(chunks);
    ConcatLength(chunks);
    r := handler.Finish(end);
  }

  /** The memory tier does not hide the object that was put. */
  predicate Surfaces(cfg: F.Config, s: F.Tiers, key: string, o: CacheObject, evicted: bool) {
    !cfg.tiered || evicted || F.Remembers(cfg, o) || key !in s.memory || s.memory[key] == o
  }

  /** An object that was stored whole is found again exactly when the memory tier does not hide it. */
  lemma StoredIsFound(cfg: F.Config, s: F.Tiers, key: string, namespace: string, o: CacheObject,
                      writing: u32, reading: u32, evicted: bool)
    requires F.PutResult(cfg, writing, F.Written) == F.Stored && F.WithinQuota(cfg.readingMax, reading) && Encodable(o)
    ensures var put := F.AfterPut(cfg, s, key, namespace, o, writing, F.Written);
            var t := if evicted then F.Apply(cfg, put, F.Evict(key)) else put;
            F.GetAnswer(cfg, t, key, namespace, reading, false) == F.Found(o) <==> Surfaces(cfg, s, key, o, evicted)
  {
    DecodeEncode(o);
    HeaderWords(o);
  }

  /**
    From a miss to a hit: what `Store` leaves of the chunks is served as one body with its metadata
    exactly when the memory tier does not hide it.
   */
  lemma MissThenHit(cfg: F.Config, s: F.Tiers, key: string, namespace: string, meta0: Bytes, meta1: Bytes,
                    chunks: seq<Bytes>,
                    writing: u32, reading: u32, evicted: bool)
    requires F.PutResult(cfg, writing, F.Written) == F.Stored && F.WithinQuota(cfg.readingMax, reading)
    requires |meta0| < U32 && |meta1| < U32
    ensures var o := CacheObject(meta0, meta1, Concat(chunks));
            var put := F.AfterPut(cfg, s, key, namespace, o, writing, F.Written);
            var t := if evicted then F.Apply(cfg, put, F.Evict(key)) else put;
            && (F.GetAnswer(cfg, t, key, namespace, reading, false) == F.Found(o) <==>
                Surfaces(cfg, s, key, o, evicted))
            && ReadHit(NewHit(o.body)) == Chunk(Concat(chunks))
            && |o.body| == TotalLength(chunks)
  {
    var o := CacheObject(meta0, meta1, Concat(chunks));
    StoredIsFound(cfg, s, key, namespace, o, writing, reading, evicted);
    ConcatLength(chunks);
    assert o.body[0..|o.body|] == o.body;
  }

  // ---------------------------------------------------------------------------------------------
  // The adapter
  // ---------------------------------------------------------------------------------------------

  datatype UpdateAnswer = Updated | NoMetaFound | UpdateFailed

  function UpdateMetaAnswer(cfg: F.Config, s: F.Tiers, key: string, namespace: string, reading: u32, writing: u32,
                            ioError: bool, end: F.WriteEnd): UpdateAnswer {
    match F.GetAnswer(cfg, s, key, namespace, reading, ioError)
    case Found(_) => if F.PutResult(cfg, writing, end) == F.Stored then Updated else UpdateFailed
    case Missing => NoMetaFound
    case _ => UpdateFailed
  }

  function AfterUpdateMeta(cfg: F.Config, s: F.Tiers, key: string, namespace: string, meta0: Bytes, meta1: Bytes,
                           reading: u32, writing: u32, ioError: bool, end: F.WriteEnd): F.Tiers {
    var answer := F.GetAnswer(cfg, s, key, namespace, reading, ioError);
    var t := F.AfterGet(cfg, s, key, answer);
    if answer.Found?
    then F.AfterPut(cfg, t, key, namespace, CacheObject(meta0, meta1, answer.value.body), writing, end)
    else t
  }

  class HttpCache {
    const cache: F.FileCache

    constructor (cache: F.FileCache)
      ensures this.cache == cache
    {
      this.cache := cache;
    }

    method UpdateMeta(key: string, namespace: string, meta0: Bytes, meta1: Bytes, ioError: bool, end: F.WriteEnd)
      returns (r: UpdateAnswer)
      modifies cache
      ensures r == UpdateMetaAnswer(cache.cfg, old(cache.Contents()), key, namespace,
                                    old(cache.reading), old(cache.writing), ioError, end)
      ensures r == NoMetaFound <==>
        F.GetAnswer(cache.cfg, old(cache.Contents()), key, namespace, old(cache.reading), ioError) == F.Missing
      ensures r == Updated <==>
        && F.GetAnswer(cache.cfg, old(cache.Contents()), key, namespace, old(cache.reading), ioError).Found?
        && end == F.Written && (cache.cfg.writingMax == 0 || old(cache.writing) < cache.cfg.writingMax)
      ensures cache.Contents() == AfterUpdateMeta(cache.cfg, old(cache.Contents()), key, namespace, meta0, meta1,
                                                  old(cache.reading), old(cache.writing), ioError, end)
    {
      var answer := cache.Get(key, namespace, ioError);
      if answer.Found? {
        var put := cache.Put(key, namespace, CacheObject(meta0, meta1, answer.value.body), end);
        r := if put == F.Stored then Updated else UpdateFailed;
      } else {
        r := if answer == F.Missing then NoMetaFound else UpdateFailed;
      }
    }

    /** Removes without a namespace and reports whether an object came back, which never happens. */
    method Purge(key: string, ioError: bool) returns (removed: bool)
      modifies cache
      ensures !removed
      ensures cache.Contents() == F.AfterRemove(cache.cfg, old(cache.Contents()), key, "", ioError)
    {
      var _ := cache.Remove(key, "", ioError);
      removed := false;
    }
  }

  /**
    An update of an object that is found keeps the body in the file, and is what a get then returns exactly
    when there is no memory tier, or the updated object is light enough for it, or nothing changed:
    the lookup before it has put the old object in the memory tier.
   */
  lemma UpdateMetaExact(cfg: F.Config, s: F.Tiers, key: string, namespace: string, o: CacheObject,
                        meta0: Bytes, meta1: Bytes, reading: u32, writing: u32)
    requires |meta0| < U32 && |meta1| < U32 && F.WithinQuota(cfg.writingMax, writing)
    requires F.GetAnswer(cfg, s, key, namespace, reading, false) == F.Found(o)
    ensures UpdateMetaAnswer(cfg, s, key, namespace, reading, writing, false, F.Written) == Updated
    ensures var t := AfterUpdateMeta(cfg, s, key, namespace, meta0, meta1, reading, writing, false, F.Written);
            var updated := CacheObject(meta0, meta1, o.body);
            && F.ReadFile(t.files, F.FilePath(key, namespace)) == F.Found(updated)
            && (F.GetAnswer(cfg, t, key, namespace, 0, false) == F.Found(updated)
                <==> !cfg.tiered || Weight(updated) < cfg.maxWeight || updated == o)
  {
    var updated := CacheObject(meta0, meta1, o.body);
    DecodeEncode(updated);
    HeaderWords(updated);
  }

  /** A purge leaves nothing to be served exactly for objects stored without a namespace. */
  lemma PurgeExact(cfg: F.Config, s: F.Tiers, model: map<string, CacheObject>, home: string -> string, key: string)
    requires F.Mirrors(s, model, home) && '/' !in key && F.FilePath(key, home(key)) in model
    requires !cfg.tiered ==> s.memory == map[]
    ensures F.GetAnswer(cfg, F.AfterRemove(cfg, s, key, "", false), key, home(key), 0, false) ==
            if home(key) == "" then F.Missing else F.Found(model[F.FilePath(key, home(key))])
  {
    var path := F.FilePath(key, home(key));
    if home(key) != "" && path == F.FilePath(key, "") {
      F.PathInjective(key, home(key), key, "");
    }
    DecodeEncode(model[path]);
    HeaderWords(model[path]);
  }
}
