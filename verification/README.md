# Verified model of pingap

A model, in Dafny 4.11, of the parts of pingap whose promises span many calls: state machines, codecs and
interpreters inside a reverse proxy. The objects of the program are classes with the program's fields and
methods; each method is proved against a function or relation on values, and what the program promises is
proved about those over whole runs. `dafny verify dfyconfig.toml` checks everything.

| file | component |
|---|---|
| `TtlLimit.dfy`, `TtlAccess.dfy`, `TtlStale.dfy` | the per-key attempt limiter with its lazily reset window, as single calls, as calls that read and write the store separately, and with stale writes |
| `CacheCodec.dfy`, `FileCache.dfy`, `HttpCache.dfy` | the HTTP cache, one call at a time: on-disk codec, memory tier over files, hit and miss handlers |
| `CacheDisk.dfy`, `CacheTasks.dfy`, `CacheProvenance.dfy`, `CacheCoherence.dfy`, `CacheRaces.dfy`, `CacheBlend.dfy` | the same calls as tasks that interleave over names, inodes and partial reads and writes: quotas, what a get can return, when it is what was put last, and the runs in which it is not |
| `LogScanner.dfy`, `AccessLog.dfy` | the access-log template scanner, compiler and formatter |
| `ConfigItems.dfy`, `ConfigRefs.dfy`, `ConfigDiff.dfy`, `ConfigSync.dfy` | configuration: reference checks and removal, comparison, storing in files and loading |
| `Location.dfy` | location reload, in-flight counters, and the path of a request through both |
| `SelfSigned.dfy`, `SelfSignedSweep.dfy` | ageing of self-signed certificates, with sweeps as one step and in steps |
| `Query.dfy`, `Csrf.dfy`, `ChunkSend.dfy` | query removal, CSRF tokens, chunked sending |
| `Text.dfy`, `Wrappers.dfy` | splitting and joining text, fixed-width integers |

## What the proofs found

Where a natural reading of the program turned out to be false, the model keeps the code, and a lemma says
exactly when the reading holds.

- The memory tier of the cache can serve an object that was replaced: after a heavy put over a remembered
  object, after `clear`, under another namespace, after an update of heavy metadata, and after a get that was
  overtaken by a put (`FileCache.StepExact`, `FileCache.NamespaceExact`, `HttpCache.UpdateMetaExact`,
  `CacheRaces.FillExact`). While calls on one key
  do not overlap and none of the former happens, it cannot (`CacheCoherence.RepliesAreTheMap`).
- Two puts of one key that overlap can leave a file that is neither's. Every order of their writes leaves one of
  the two only if one text begins with the other, or they differ in a single byte (`CacheBlend.OverlapExact`); a
  put that opens a file another call has open is all that can do this (`CacheProvenance.GetReturnsWhatWasPut`).
- A put that falls between the get and the put of a metadata update is lost (`CacheRaces.UpdateOverwrites`).
- `purge` works for objects without a namespace only (`HttpCache.PurgeExact`).
- An open-ended seek after a bounded one reuses the old bound, and aborts if it starts behind it
  (`HttpCache.SeekExact`, `HttpCache.SeekAborts`).
- The limiter counts an attempt by reading and writing back its entry. Attempts that overlap are lost, and then
  no bound holds (`TtlAccess.AttemptsAreLost`) but one that counts the stale writes (`TtlStale.EveryRun`). A
  limiter with limit 0 still lets the first attempt through (`TtlLimit.FirstVisit`), and an interval of length
  ttl can hold twice the limit less one (`TtlLimit.BoundIsAttained`).
- `processing` of a location drifts: a request refused for its size is counted down without having been
  counted up, a request that matches no location is counted up at the last one tried and never down, and a
  reload in between moves the counting down to another object. `Location.FinishBalance` says at the end of which
  requests this happens. Each wrong count admits one request more than the limit (`Location.ProcessingDrift`,
  `Location.LoneRequest`, `Location.AdmittedAtMost`, `Location.LimitIsTight`).
- A certificate that is added while a sweep is under way is lost, and so is a use of a stale one after its visit
  (`SelfSignedSweep.AdditionIsLost`, `SelfSignedSweep.SweptExactly`).
- Syncing does not remove files of items or categories that are gone, and in the mode with a file for each
  name an item with the empty name stores its whole category (`ConfigSync.SyncThenLoad`, `ConfigSync.SecondSync`).
- Removing a storage reports success and does nothing (`ConfigRefs.StorageStays`).
- Removing a query parameter drops scheme and authority of an absolute URI (`Query.RemovingNothing`).

The comments at `pingap-config/src/common.rs:652-655` promise a check of the access-log layout that the code
does not make, and those at `pingap-cache/src/file.rs:358` say entries last read before the time are cleared,
where the code also clears those read at that very time; the model follows the code in both.

## Model

| member | source | states |
|---|---|---|
| `TtlLimit.TtlLruLimit.constructor` | pingap-core/src/ttl_lru_limit.rs:40-59 | a new limiter has its time to live and limit and nothing stored |
| `TtlLimit.TtlLruLimit.Validate` | pingap-core/src/ttl_lru_limit.rs:69-104 | the answer is yes exactly for an unknown key, an expired window or a count below the limit; only an expired entry changes, to the zero marker; the age is a wrapping difference |
| `TtlLimit.TtlLruLimit.Inc` | pingap-core/src/ttl_lru_limit.rs:112-128 | the count of the key rises by one, and a marked or missing entry starts its window now |
| `TtlLimit.ExpiredExact` | pingap-core/src/ttl_lru_limit.rs:80-86 | an entry has expired exactly when more than ttl has passed since its start; when the clock is set back the difference wraps |
| `TtlLimit.WindowBound` | pingap-core/src/ttl_lru_limit.rs:69-128 | in every legal run of calls that are single steps, the count of a window plus the callers still to report into it stays within one window's share, and a zero count always carries the zero marker |
| `TtlLimit.SlidingWindow` | pingap-core/src/ttl_lru_limit.rs:69-128 | in every run of calls that are single steps, any interval of length ttl holds fewer attempts on a key than two shares plus one for each eviction of the key in it, where a share is the limit (at least 1) plus the callers that checked together, less one; with one caller at a time and no eviction that is at most 2*max - 1 |
| `TtlLimit.BoundIsAttained` | pingap-core/src/ttl_lru_limit.rs:69-128 | for every limit and ttl of at least 1 there is a legal run of single callers that reaches that bound |
| `TtlAccess.StepSimulates` | pingap-core/src/ttl_lru_limit.rs:74-127 | an access of a call that is not disturbed is one single step of the limiter, or none, for the key it is about, whatever the calls on other keys are in the middle of |
| `TtlAccess.RunSimulates` | pingap-core/src/ttl_lru_limit.rs:74-127 | with reads and writes of the store as separate accesses, a run in which no access to a key falls between the two accesses of another call on it is, for that key, a legal run of single steps with the same attempts and no further evictions |
| `TtlAccess.SlidingWindow` | pingap-core/src/ttl_lru_limit.rs:69-128 | in every such run any interval of length ttl holds fewer attempts on the key than two shares plus one for each eviction; an attempt counts at the time it reads the store |
| `TtlAccess.AttemptsAreLost` | pingap-core/src/ttl_lru_limit.rs:112-128 | without that premise no bound holds: for every limit, ttl and n there is a run of a single moment, in which at most one caller at a time waits, with n attempts, each of which reads the store before another is written back |
| `TtlStale.EveryRun` | pingap-core/src/ttl_lru_limit.rs:69-128 | in every run whatever, an interval of length ttl holds no more attempts on a key than two shares plus one for each eviction and two for each stale write of it, one that writes back what another call has overwritten or dropped since; here a share is the limit (at least 1) and the calls under way at once |
| `TtlLimit.KeysAreIndependent` | pingap-core/src/ttl_lru_limit.rs:69-128 | deleting all events of other keys from a run changes neither what is stored for a key nor any answer about it |
| `CacheCodec.IntoBytes` | pingap-cache/src/http_cache.rs:94-109 | builds the encoded buffer: two big-endian lengths cut to 32 bits, both metadata parts, the body |
| `CacheCodec.FromBytes` | pingap-cache/src/http_cache.rs:68-87 | consumes the buffer into the decoded object; fewer than 8 bytes give the empty object, a part longer than the rest aborts |
| `CacheCodec.DecodeEncode` | pingap-cache/src/http_cache.rs:68-109 | decoding what was encoded gives the object back exactly when both metadata lengths are below 2^32 |
| `CacheCodec.EncodeDecode` | pingap-cache/src/http_cache.rs:68-109 | encoding what was decoded gives the buffer back exactly when the buffer has at least the 8 bytes of the header, for every buffer that decodes |
| `CacheCodec.EncodeInjective` | pingap-cache/src/http_cache.rs:94-109 | two encodable objects never have the same bytes |
| `CacheCodec.DecodePrefix` | pingap-cache/src/http_cache.rs:68-87 | decoding a file of which only the first n bytes, at least the header, were written aborts exactly when the metadata is incomplete, and otherwise gives the same metadata and the body cut at that point |
| `FileCache.FileCache.Get` | pingap-cache/src/file.rs:215-268 | answers from the memory tier, else over quota exactly when the limit is not 0 and reached, else an I/O error or from the file; an object found in a file is remembered whatever its weight; both counters are back where they were |
| `FileCache.FileCache.Put` | pingap-cache/src/file.rs:280-315 | remembers an object only below the weight limit, and before the quota is looked at; reports success exactly when the write was admitted and went through; the file then holds the encoded object, is left alone or holds a first part of it as the write ends, and all other files stay; the counter is back where it was |
| `FileCache.FileCache.Remove` | pingap-cache/src/file.rs:325-346 | forgets the key in the memory tier and removes its file; reports an error, and then leaves the files alone, when there was none or it could not be removed |
| `FileCache.FileCache.Clear` | pingap-cache/src/file.rs:365-404 | a file goes exactly when some entry names it, was last read by the given time and can be removed; the answer counts the entries that were and those that could not; all other files keep their content, and the memory tier is not looked at |
| `FileCache.AnswerExact` | pingap-cache/src/file.rs:244-253 | a file is found as an object exactly when it is the encoding of one that fits the header, missing exactly when there is none or it is shorter than the header, and read with an abort exactly when it is shorter than its header says |
| `FileCache.RemembersExact` | pingap-cache/src/http_cache.rs:47-57 | in bytes: with a memory tier, an object is remembered exactly when its three parts together are below max_weight pages of 4096, the limit being at least 2, and below 40 MiB |
| `FileCache.PathInjective` | pingap-cache/src/file.rs:183-189 | two slash-free keys have one path text only with the same key and namespace |
| `FileCache.SameFileExact` | pingap-cache/src/file.rs:183-189 | as the file system reads paths, two keys that are hashes share a file exactly when they are the same and their namespaces name one directory, as `a` and `a/` do |
| `FileCache.StepExact` | pingap-cache/src/file.rs:215-404 | a step whose file access succeeds keeps both tiers equal to one plain map exactly when it leaves nothing stale in the memory tier: a put too heavy to be remembered over another remembered object, or a clear of a remembered file, breaks it |
| `FileCache.RunMirrors` | pingap-cache/src/file.rs:215-404 | in every run of such steps, evictions included, the two tiers stay one plain map |
| `FileCache.GetIsModel` | pingap-cache/src/file.rs:215-268 | while they do, a get answers as the map does or with its own quota or I/O error, and never aborts |
| `FileCache.RunIsMap` | pingap-cache/src/file.rs:215-404 | after every such run from an empty cache, each get returns the object of the latest put not followed by a remove or clear |
| `FileCache.LightRunIsMap` | pingap-cache/src/file.rs:215-404 | in particular after every run of puts that are light enough to be remembered, gets, removals and evictions, without clears, or of any puts and clears when there is no memory tier |
| `FileCache.HeavyPutIsShadowed` | pingap-cache/src/file.rs:256-295 | a second heavy object put under a key that was read in between is stored but the first one is served |
| `FileCache.NamespaceExact` | pingap-cache/src/file.rs:221-229 | a remembered key read under another namespace answers with its own object, which is right exactly when both files hold the same object |
| `FileCache.RefusedPutIsServed` | pingap-cache/src/file.rs:286-308 | a put refused for its quota is served from the memory tier until it is evicted; after that the file answers |
| `CacheTasks.CountersAreExact` | pingap-cache/src/file.rs:235-244 | under every interleaving of calls, dropped tasks and evictions included, each counter is the number of tasks between their fetch_add and fetch_sub, modulo 2^32, and 0 when there are none |
| `CacheTasks.QuotaHolds` | pingap-cache/src/file.rs:235-309 | with fewer than 2^32 tasks at any time, at most reading_max callers wait for a file read and at most writing_max for a file write, where the limit is not 0; a write goes on after its caller has stopped waiting, and then no longer counts |
| `CacheRaces.OvertakenGetServesOld` | pingap-cache/src/file.rs:215-315 | a run from an empty cache, in which a put starts and ends between the read and the fill of a get: the old object is served although the new one is in the file |
| `CacheRaces.FillExact` | pingap-cache/src/file.rs:244-262 | after a get has filled the memory tier its key is served as its file has it exactly when the file then holds the bytes that were read; if it held them when the read ended, exactly when nothing has changed its content since |
| `CacheRaces.OneAfterAnother` | pingap-cache/src/file.rs:298-314 | one schedule of two overlapping puts of one key, in which the second writes all its text after the first has: a get finds the second one's metadata, and its body exactly when the first text is not longer or begins with the second |
| `CacheBlend.OverlapBlends` | pingap-cache/src/file.rs:298-314 | in every run in which two puts have opened one empty file and no third opens it, whatever order they write in and whatever other calls do: when both have written, the file is as long as the longer of the two texts, and each byte is one of theirs at that place |
| `CacheBlend.OverlapExact` | pingap-cache/src/file.rs:298-314 | of two successful puts of one key that both open the file before either writes, every order of their partial writes leaves one of the two texts exactly when one begins with the other, or they are equally long and differ in one byte at most |
| `CacheRaces.UpdateOverwrites` | pingap-cache/src/http_cache.rs:447-465 | a put that starts and ends between the get and the put of a metadata update: the file then holds the new metadata over the body from before, which is the body of that put exactly when the two are equal |
| `CacheCoherence.RunCoherent` | pingap-cache/src/file.rs:215-346 | in every interleaving in which calls on one key do not overlap, write successfully and leave nothing stale in the memory tier, the file and the memory entry of that key agree with one plain map whenever no call on it is under way, whatever calls on other keys do |
| `CacheCoherence.RepliesAreTheMap` | pingap-cache/src/file.rs:215-346 | in every such interleaving each reply to a get of the key is what the plain map says at that moment, or an error of the quota or the file system |
| `CacheProvenance.GetReturnsWhatWasPut` | pingap-cache/src/file.rs:215-404 | in every interleaving in which no put opens, and so empties, a file that another call is reading or writing, with quota failures, dropped and failing calls, heavy objects, removals, evictions and clears: an object a get returns was put under that key before, with the same metadata and a prefix of the body, and it is the very same object unless some read of that key ended on a file that was not whole; only after such a read does a get abort |
| `CacheProvenance.WholeFilesDecode` | pingap-cache/src/http_cache.rs:68-87 | in every interleaving a file that is whole decodes to the object of the put that last opened it |
| `HttpCache.CompleteHit.Get` | pingap-cache/src/http_cache.rs:269-276 | the range in force once, and then nothing until the next seek; a start behind the end aborts |
| `HttpCache.CompleteHit.Seek` | pingap-cache/src/http_cache.rs:278-295 | refuses exactly a start past the body; otherwise sets the range, cuts a given end to the body and allows one more read |
| `HttpCache.ReadOut` | pingap-cache/src/http_cache.rs:269-276 | reading a hit until it yields nothing ends, and collects the range in force once, or nothing from a hit that was read |
| `HttpCache.ReadTwice` | pingap-cache/src/http_cache.rs:257-295 | a fresh hit read to its end gives the whole body, and after a seek the part asked for |
| `HttpCache.SeekExact` | pingap-cache/src/http_cache.rs:269-295 | a seek and a read answer, or abort, as the range asked for does exactly when the range has an end or the previous end was the end of the body |
| `HttpCache.SeekAborts` | pingap-cache/src/http_cache.rs:269-295 | the read aborts exactly when the end then in force, the given or else the previous one, lies before the start; the range asked for does only if its own end lies there |
| `HttpCache.SecondRange` | pingap-cache/src/http_cache.rs:257-295 | a fresh hit reads its whole body and its first range; an open range after a bounded one is answered in full exactly when the bound was not inside the body |
| `HttpCache.ObjectMissHandler.WriteBody` | pingap-cache/src/http_cache.rs:346-353 | the chunk is appended to the body |
| `HttpCache.ObjectMissHandler.Finish` | pingap-cache/src/http_cache.rs:355-370 | the metadata and the whole body are put; the answer is the body length, or the error of the put |
| `HttpCache.ConcatLength` | pingap-cache/src/http_cache.rs:346-369 | the reported size is the sum of the chunk lengths |
| `HttpCache.WriteChunks` | pingap-cache/src/http_cache.rs:346-353 | chunks handed on one by one end up in the body as their concatenation |
| `HttpCache.Store` | pingap-cache/src/http_cache.rs:346-426 | a handler that is given all chunks and finished puts one object, with their concatenation as its body, and reports the sum of their lengths |
| `HttpCache.MissThenHit` | pingap-cache/src/http_cache.rs:331-395 | what was stored that way is read back as the same metadata and the concatenation of the chunks exactly when the memory tier does not hide it behind another object |
| `HttpCache.HttpCache.UpdateMeta` | pingap-cache/src/http_cache.rs:447-465 | a get, then a put of the same body under the new metadata; it succeeds exactly when an object is found and the put is within the quota and goes through, and reports a missing object as such |
| `HttpCache.UpdateMetaExact` | pingap-cache/src/http_cache.rs:447-465 | an update of an object that is found, within the write quota, succeeds and keeps the body in the file; a get then returns the updated object exactly when there is no memory tier, or it is light enough for it, or nothing changed |
| `HttpCache.HttpCache.Purge` | pingap-cache/src/http_cache.rs:428-445 | removes under the empty namespace and always reports that nothing was removed |
| `HttpCache.PurgeExact` | pingap-cache/src/http_cache.rs:428-445 | after a purge nothing is served exactly when the object was stored without a namespace; otherwise the old object is still served |
| `LogScanner.MatchExact` | pingap-logger/src/access.rs:132-137 | a placeholder is an open brace, any number of letters and the characters `_<>-~:$`, and a closing brace |
| `LogScanner.MatchesDoNotNest` | pingap-logger/src/access.rs:132-146 | no placeholder starts inside another one |
| `LogScanner.SearchSkipsMatch` | pingap-logger/src/access.rs:137-246 | searching on from one past the start of a match finds what searching on from its end finds, so matches never overlap |
| `LogScanner.PiecesMeanTemplate` | pingap-logger/src/access.rs:132-252 | the pieces cut at the matches say what the template says when it is read one character at a time |
| `LogScanner.PiecesPartition` | pingap-logger/src/access.rs:132-252 | texts and matches partition the template: in order they give it back |
| `LogScanner.WrittenIsRead` | pingap-logger/src/access.rs:132-252 | a template written from texts without an open brace and from placeholders is read as those |
| `LogScanner.Compile` | pingap-logger/src/access.rs:137-252 | the scanning loop ends, since the rest of the template after `current` shrinks, and emits exactly the tags of the pieces in order |
| `LogScanner.CatEmitted` | pingap-logger/src/access.rs:137-252 | rendering the emitted tags one by one is spelling the pieces with what each placeholder emits, and nothing for those that emit none |
| `AccessLog.ParserFrom` | pingap-logger/src/access.rs:123-270 | compiles the predefined or given template, and records that the clock is needed exactly when a timed tag occurs |
| `AccessLog.ExtraTagMeans` | pingap-logger/src/access.rs:71-114 | a placeholder with a prefix stands for its cookie, header, context value, host name or environment variable |
| `AccessLog.NamedExact` | pingap-logger/src/access.rs:71-114 | the cookie, header, context value or environment variable of the name after the prefix, the host name for `$hostname`, and nothing when there is none |
| `AccessLog.AbsentIsEmpty` | pingap-logger/src/access.rs:296-477 | a host, query, remote address, URI or request id that the request does not have is printed as nothing |
| `AccessLog.Format` | pingap-logger/src/access.rs:296-477 | the line is all tags rendered with the clock, although the clock is read only when a timed tag needs it |
| `AccessLog.ClockUnused` | pingap-logger/src/access.rs:253-262 | without a timed tag, not reading the clock changes nothing |
| `AccessLog.FormatMeansTemplate` | pingap-logger/src/access.rs:123-477 | compiling a template and formatting is reading the template left to right and putting each placeholder's meaning in its place, unknown ones meaning nothing |
| `AccessLog.PlainAlone` | pingap-logger/src/access.rs:147-477 | each of the 22 placeholders with a name is recognised: as a template of its own it is rendered as its value |
| `AccessLog.LineOfPieces` | pingap-logger/src/access.rs:123-477 | the line for a template written from pieces is its texts as they stand and what its placeholders stand for |
| `AccessLog.TemplatePrintsBack` | pingap-logger/src/access.rs:71-252 | printing the tags gives the template back in every environment exactly when each placeholder is recognised and none is a `$` one |
| `AccessLog.TextPrintsBack` | pingap-logger/src/access.rs:116-252 | printing the tags gives the configured text back in every environment exactly when it does not name a predefined format as well |
| `ConfigRefs.PingapConf.Validate` | pingap-config/src/common.rs:1013-1051 | accepts exactly the configurations whose items are sound and parse again, each condition written out, whose references resolve and whose listen addresses are pairwise distinct, in whatever order the maps are walked |
| `ConfigRefs.LocationsOk` | pingap-config/src/common.rs:480-537 | every location names no upstream, one chosen by a variable or a configured one, and has sound headers and rewrite |
| `ConfigRefs.ServersOk` | pingap-config/src/common.rs:1024-1035 | over all servers the addresses are pairwise distinct, within a server and across, resolve, and the named locations exist |
| `ConfigRefs.ListenersExact` | pingap-config/src/common.rs:1024-1033 | where each server lists its addresses with commas in between, they are distinct exactly when no list has an address twice and no two lists share one |
| `ConfigRefs.AppendAddresses` | pingap-config/src/common.rs:1026-1033 | the inner loop goes through exactly when no address repeats, and then has appended them all |
| `ConfigRefs.PingapConf.Remove` | pingap-config/src/common.rs:1064-1115 | refuses exactly an upstream a location names, a location a server names and a plugin a location names, and then changes nothing; otherwise takes out that item alone, and nothing for a storage |
| `ConfigRefs.RunKeepsAccepted` | pingap-config/src/common.rs:1013-1115 | any sequence of removals from an accepted configuration, refused ones included, leaves it accepted, its storages untouched, and plugin references resolvable if they were |
| `ConfigRefs.GuardIsNeeded` | pingap-config/src/common.rs:1064-1091 | taking an upstream or location out keeps the configuration valid exactly when it is not in use, or is an upstream whose name is empty or begins with a dollar sign and so is never looked up |
| `ConfigDiff.NamesAreUnique` | pingap-config/src/common.rs:1119-1191 | no two items of any categories are described under one name |
| `ConfigDiff.Descriptions` | pingap-config/src/common.rs:1116-1194 | lists each item and the basic part once, with its lines |
| `ConfigDiff.Missing` | pingap-config/src/common.rs:1203-1241 | reports one category for each item that the other side does not have, and no others |
| `ConfigDiff.Changed` | pingap-config/src/common.rs:1243-1265 | reports one category for each item that both sides have with different lines, and no others |
| `ConfigDiff.Diff` | pingap-config/src/common.rs:1196-1268 | each category is returned as often as items of it were removed, added or changed, and the basic one exactly when its lines differ |
| `ConfigDiff.EmptyDiff` | pingap-config/src/common.rs:1196-1268 | nothing is reported exactly when the two descriptions agree line by line |
| `ConfigDiff.DiffIsSymmetric` | pingap-config/src/common.rs:1196-1268 | with the arguments swapped the same multiset of categories is reported |
| `ConfigSync.PathsDiffer` | pingap-config/src/common.rs:830-836 | a path determines its category and, if it is an item's, its name |
| `ConfigSync.SamePathSamePart` | pingap-config/src/common.rs:805-878 | two writes of one configuration to the same path write the same content, so repeating a whole category changes nothing |
| `ConfigSync.FileStorage.SaveConfig` | pingap-config/src/file.rs:91-169 | an invalid configuration changes nothing; otherwise the one file of the category or name holds that part, or is gone if the part is empty, and all other files are as they were |
| `ConfigSync.FileStorage.ReadAll` | pingap-config/src/lib.rs:177-196 | the contents of all files of the directory, each once |
| `ConfigSync.ParseExact` | pingap-config/src/common.rs:940-999 | the files one after the other parse exactly when no table is defined twice, and then say together what they say one by one |
| `ConfigSync.FileStorage.LoadConfig` | pingap-config/src/file.rs:58-89 | of a single file that file; of a directory the merge of all files, independent of the order they are read in, or nothing when a table is defined twice |
| `ConfigSync.SyncConfig` | pingap-config/src/lib.rs:233-260 | after a complete run every part of the configuration is in its file and every other file is untouched |
| `ConfigSync.SyncThenLoad` | pingap-config/src/lib.rs:177-260 | whatever was stored before, loading after a sync gives the same configuration back exactly when, in a directory, no untouched file says anything and, with a file for each name, the empty name has its category to itself; a single file always gives it back |
| `ConfigSync.FirstSync` | pingap-config/src/lib.rs:177-260 | into an empty directory, only the condition on the empty name remains |
| `ConfigSync.SecondSync` | pingap-config/src/lib.rs:233-260 | syncing over an earlier configuration and loading gives the new one exactly when, besides, every item (by name) or every category (by category) the earlier one had is still there |
| `ConfigSync.SaveKeepsInStep` | pingap-config/src/file.rs:91-169 | adding, changing or removing one item and saving it alone leaves the files as a complete sync into an empty directory would |
| `ConfigSync.EditingLoads` | pingap-config/src/file.rs:58-169 | after any number of such edits, loading gives the last configuration |
| `Location.LocationObject.AddProcessing` | pingap-location/src/location.rs:409-418 | both counters rise by one, wrapping, also when the request is refused; refused exactly when the limit is not 0 and the new count exceeds it |
| `Location.LocationObject.SubProcessing` | pingap-location/src/location.rs:425-427 | the count of requests in flight drops by one, wrapping |
| `Location.Locations.Get` | pingap-location/src/location.rs:577-582 | the empty name stands for no location |
| `Location.Locations.TryInit` | pingap-location/src/location.rs:604-622 | succeeds exactly when every changed or new location builds; then exactly the configured names are live, each with a location of its configured hash; names that were live with that hash keep the identical object and its counters, all others are new objects with zero counters, and exactly those are reported, once each; on failure nothing live changes |
| `Location.ReloadConfigures` | pingap-location/src/location.rs:604-622 | the same for the reload of a run: it goes through exactly when every configured name is not empty and builds or was live with its hash, and a location is new exactly when its name was not live or had another hash |
| `Location.PickOrder` | src/proxy/server.rs:824-841 | the first lookup that finds a match decides; without one no name is recorded, and the last location found is held |
| `Location.PickExact` | src/proxy/server.rs:824-841 | with each name looked up on its own, so that reloads can fall in between: a name is recorded exactly when a location that was found matches, and then that one is held; but a location is held whenever one was found |
| `Location.RunExact` | pingap-location/src/location.rs:409-427 | in every run of requests and reloads, `processing` is the additions minus the subtractions made to that location, and `accepted` the additions, each in its width |
| `Location.ProcessingDrift` | src/proxy/server.rs:849-867 | `processing` is the requests in flight plus those counted up but not down, minus those counted down but not up; it is the number in flight exactly when the two balance |
| `Location.AdmittedExactly` | pingap-location/src/location.rs:409-418 | a request is let through exactly when its body fits and the limit is 0 or above that drifted count |
| `Location.SettledCounters` | pingap-location/src/location.rs:409-427 | in every run in which each ending request was counted where its name leads, or neither counted nor named, `processing` is the number in flight and so never negative |
| `Location.LoneRequest` | src/proxy/server.rs:824-867 | a request that no reload overtakes and nothing else touches returns the count of its location to where it was, except one lower for a matched body too large, and one higher for a request that matches nothing |
| `Location.AdmittedAtMost` | pingap-location/src/location.rs:409-418 | in every run at most max_processing admitted requests of a location are in flight at once, and one more for each request that counted it down without having been counted there |
| `Location.OverLimitExactly` | pingap-location/src/location.rs:409-418 | a request takes the admitted requests over the limit exactly when its body fits, the location is full, and more was counted down by others than is lost, or refused and still in flight |
| `Location.LimitIsTight` | src/proxy/server.rs:824-867 | that bound is tight: for every limit and every number of requests with a body too large there is a run that admits that many more than the limit |
| `Location.StaysSame` | pingap-location/src/location.rs:604-622 | through any number of reloads that keep the hash of a name, the name stands for the same location and its additions go on |
| `SelfSigned.TwoDaysAgo` | pingap-certificate/src/self_signed.rs:72-73 | the expiry bound is two days before now for every clock below 2^63 seconds, and otherwise that modulo 2^64 in the range of an i64 |
| `SelfSigned.Certificates.Get` | pingap-certificate/src/self_signed.rs:134-141 | the certificate of the name, whose use count rises by one, wrapping |
| `SelfSigned.Certificates.Add` | pingap-certificate/src/self_signed.rs:158-175 | a new, fresh certificate under the name; all others stay |
| `SelfSigned.Certificates.Check` | pingap-certificate/src/self_signed.rs:65-100 | exactly every 1440th call sweeps: expired certificates and stale unused ones go, unused ones become stale, used ones start afresh |
| `SelfSigned.FieldsInRun` | pingap-certificate/src/self_signed.rs:65-175 | in every run the two fields of a certificate hold the uses since its latest sweep or addition and whether the interval before that sweep had none |
| `SelfSigned.DroppedExactly` | pingap-certificate/src/self_signed.rs:79-95 | with each sweep as one step, an unexpired certificate is dropped at a sweep exactly when it was there at the sweep before and the uses since then, and those in the interval before that, are 0 modulo 2^32 |
| `SelfSigned.ExpiredIsGone` | pingap-certificate/src/self_signed.rs:72-79 | after a sweep no certificate is left that ended more than two days before it, used or not |
| `SelfSigned.UsedIsKept` | pingap-certificate/src/self_signed.rs:79-95 | with each sweep as one step and fewer than 2^32 uses in an interval, any use keeps a certificate for the next two sweeps |
| `SelfSigned.NewIsKept` | pingap-certificate/src/self_signed.rs:79-95 | with each sweep as one step, a certificate added since the latest one survives the next, used or not |
| `SelfSignedSweep.SweptExactly` | pingap-certificate/src/self_signed.rs:65-100 | with a sweep as a load, one visit for each certificate and a store, and uses and additions anywhere in between: after it exactly those names are live that it had loaded and whose certificate was, at its visit, unexpired, and used or not stale; so a use after the visit saves nothing |
| `SelfSignedSweep.AdditionIsLost` | pingap-certificate/src/self_signed.rs:65-100 | a certificate added between the load and the store of a sweep is live under no name after it |
| `SelfSignedSweep.LoneGet` | pingap-certificate/src/self_signed.rs:134-141 | a use of a certificate is that of the pool of single steps |
| `SelfSignedSweep.LoneSweep` | pingap-certificate/src/self_signed.rs:65-100 | a sweep that nothing overlaps, over certificates that each have one name, is the single step |
| `SelfSigned.UnusedIsGone` | pingap-certificate/src/self_signed.rs:65-100 | from any state, a certificate neither used nor added again is gone after three sweeps |
| `Query.RequestHeader.GetQueryValue` | pingap-core/src/http_header.rs:399-413 | the trimmed value of the first item with that key and a value |
| `Query.WrittenQuery` | pingap-core/src/http_header.rs:399-413 | in a query written from keys and values, the value of a key is that of the first pair with it, trimmed |
| `Query.TrimExact` | pingap-core/src/http_header.rs:408-411 | trimming takes away white space at both ends, and all that is there |
| `Query.RequestHeader.RemoveQuery` | pingap-core/src/http_header.rs:423-449 | the URI becomes the path and the other items in their order and text; scheme and authority are dropped |
| `Query.RemainingItems` | pingap-core/src/http_header.rs:427-446 | the items of the new query are the other items, in order and text, unless only one empty item is left |
| `Query.ValuesAfter` | pingap-core/src/http_header.rs:399-449 | afterwards no item has the key, and every other name has the value it had |
| `Query.RemovingTwice` | pingap-core/src/http_header.rs:423-449 | removing a key twice is removing it once |
| `Query.RemovingNothing` | pingap-core/src/http_header.rs:423-449 | the URI is unchanged exactly when it has no query, or is a path with a query that is not empty and lacks the key |
| `Csrf.HexInverse` | pingap-plugin/src/csrf.rs:150-190 | reading a number in hexadecimal gives back what was printed, for every u64 |
| `Csrf.HexReading` | pingap-plugin/src/csrf.rs:186-191 | a plus sign in front and the case of the digits do not matter; an empty text and other characters are not read |
| `Csrf.UnreadableStamp` | pingap-plugin/src/csrf.rs:186-193 | a signed token whose time cannot be read counts as issued at time 0 |
| `Csrf.TokenValidates` | pingap-plugin/src/csrf.rs:146-206 | a token generated earlier validates exactly when there is no ttl or its age is at most the ttl |
| `Csrf.FutureTokenFails` | pingap-plugin/src/csrf.rs:187-193 | before its own time a token is valid exactly when there is no ttl or the wrapped age fits it |
| `Csrf.OnlySigned` | pingap-plugin/src/csrf.rs:179-206 | a text validates exactly when it is two dot-free texts and the signature of the two, and its time has not passed |
| `ChunkSend.SendChunk` | pingap-core/src/http_response.rs:289-303 | one turn of the loop: what was read is written, ending the body exactly when the buffer was not filled |
| `ChunkSend.Send` | pingap-core/src/http_response.rs:276-308 | the loop ends; what was written is what was read, in order; one last write that is not full alone ends the body; the result is the number of bytes; a reader that fills the buffer is read to its end; after a failed read the body is not ended |
| `ChunkSend.CompleteShape` | pingap-core/src/http_response.rs:286-304 | a complete body has one write more than there are full chunks in the content, and its last write is empty exactly when the content is a multiple of the chunk size |

## Left out

Premises that stand in theorem statements or types, and why:

- TtlAccess.SlidingWindow: the count field is an unbounded number, since wrapping a `usize` takes 2^64 attempts in one window; the clock is assumed not to go back. Runs in which another access falls between the two of a call are excluded, as the bound does not hold there; TtlStale.EveryRun bounds them.
- TtlStale.EveryRun: counts the calls under way where TtlAccess.SlidingWindow counts those that wait, and so has a larger share; the clock is assumed not to go back.
- TtlLimit.SlidingWindow: takes each call as one step; TtlAccess.SlidingWindow says when the calls of several threads are.
- CacheTasks.QuotaHolds: needs fewer than 2^32 tasks at once, the width of the counters. It counts the callers that wait: reads and writes of callers that have stopped waiting are beyond the quota in the program too; a dropped read is left out of the model, as nothing depends on it any more.
- CacheProvenance.GetReturnsWhatWasPut: one read or write of some bytes at one offset is a single step; keys have no slash, as the hashes the program uses have none.
- CacheCoherence.RepliesAreTheMap: needs that the writes and unlinks of the key succeed and are within the quota; what a refused put leaves is FileCache.RefusedPutIsServed.
- FileCache.PathInjective: wherever files are looked up, the model compares paths as texts, so namespaces are taken to be in normal form; FileCache.SameFileExact says which texts name one file. Namespaces with `..` are not modelled, nor an absolute one, which leaves the directory of the cache.
- CacheBlend.OverlapExact: the run up to the two opens is one, from an empty cache; CacheBlend.OverlapBlends takes any. Each write of some bytes at one offset is a single step.
- FileCache.RunIsMap: the memory tier is a map that may drop entries at any moment; its own replacement policy is a library's. A key has one namespace, as the memory tier assumes.
- AccessLog.FormatMeansTemplate: templates are ASCII, where byte and character offsets agree; output that is not UTF-8, which the program replaces by an empty line, and the capacity estimate are not modelled; number, size, duration and date formats are parameters.
- ConfigRefs.PingapConf.Validate: checks of one item by itself (addresses that resolve, headers, patterns, certificates), and whether an item written out parses again with the includes of the storages, are outcomes in the model; error messages are not modelled.
- ConfigDiff.Diff: certificates, keys and secrets are compared by checksum in the program, so equal checksums count as equal lines; the diff text and its sort order are not modelled.
- ConfigSync.SyncThenLoad: printing an item as TOML and parsing it back is assumed to give the item; include replacement, the etcd backend, I/O errors half-way through a run, and names that leave their directory by `..` or a slash at either end are not modelled.
- Location.RunExact: whether a host and path match is an input of a step; configurations are compared by their hash, as in the program.
- SelfSigned.DroppedExactly: get, add and sweep are single steps; SelfSignedSweep has the sweeps that others overlap.
- SelfSignedSweep.SweptExactly: a visit reads and resets the two fields in one step, a get finds and counts in one, and an addition loads and stores the map in one; one sweep runs at a time, as the program has one task for it.
- Query.RequestHeader.RemoveQuery: the new path and query are taken to parse as a URI, as parts of a parsed one do.
- Query.TrimExact: white space is that of ASCII, of which a URI consists.
- Csrf.TokenValidates: hash and encoding are one function whose texts have no dot; the random identifier is a parameter without a dot.
- ChunkSend.Send: response headers and write failures of the session are not modelled.

Parts of the program not modelled:

- Matching of host and path, rewriting and capture variables: the substance is the regular expression library.
- Metadata serialisation of cached responses, which belongs to the proxy library.
- Parsing of cache and storage parameters, weights of locations, formatting helpers, estimates of capacity: they would add easy members.
- TLS, ACME, service discovery, health checks, metrics, tracing, log writers, image optimisation, the web interface and the command line: foreign calls and plumbing.
- The other plugins, which decide on a single request.
