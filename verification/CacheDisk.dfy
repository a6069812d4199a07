/**
  The files under the cache as the operating system keeps them: names that link to inodes, and
  handles that stay on their inode when the name is taken away. `fs::write` opens with truncation and
  then writes at a growing offset; `fs::read` opens and then reads up to where the file ends.
 */
module CacheDisk {
  import opened Wrappers
  import opened CacheCodec
  import F = FileCache

  /** One call of put. */
  datatype PutCall = PutCall(key: string, namespace: string, value: CacheObject) {
    function Path(): string {
      F.FilePath(key, namespace)
    }
  }

  /** `path` and `owner` record the name it was made under and the put that last opened it. */
  datatype Inode = Inode(path: string, owner: PutCall, bytes: Bytes)

  datatype Disk = Disk(links: map<string, nat>, inodes: seq<Inode>)

  const EMPTY_DISK := Disk(map[], [])

  /** Links lead to inodes made under their own name. */
  predicate Linked(d: Disk) {
    forall p :: p in d.links ==> d.links[p] < |d.inodes| && d.inodes[d.links[p]].path == p
  }

  function Content(d: Disk, path: string): Option<Bytes> {
    if path in d.links && d.links[path] < |d.inodes| then Some(d.inodes[d.links[path]].bytes) else None
  }

  /** The inode that opening the path for writing ends up with. */
  function HandleFor(d: Disk, path: string): nat {
    if path in d.links then d.links[path] else |d.inodes|
  }

  /** The disk after a put has opened its file: an old file is now empty, a missing one is made. */
  function Opened(d: Disk, call: PutCall): Disk {
    var path, inode := call.Path(), Inode(call.Path(), call, []);
    if path in d.links && d.links[path] < |d.inodes| then d.(inodes := d.inodes[d.links[path] := inode])
    else Disk(d.links[path := |d.inodes|], d.inodes + [inode])
  }

  /** What a file holds after `data` is written at offset `at`; a gap is filled with zeros. */
  function Overlay(old': Bytes, at: nat, data: Bytes): Bytes {
    var start := if at <= |old'| then old'[..at] else old' + seq(at - |old'|, _ => 0);
    start + data + if at + |data| < |old'| then old'[at + |data|..] else []
  }

  /** Byte by byte. */
  lemma OverlayAt(old': Bytes, at: nat, data: Bytes, k: nat)
    ensures |Overlay(old', at, data)| == Max(|old'|, at + |data|)
    ensures k < |Overlay(old', at, data)| ==>
              Overlay(old', at, data)[k] ==
              if at <= k < at + |data| then data[k - at] else if k < |old'| then old'[k] else 0
  {
  }

  function WrittenAt(d: Disk, handle: nat, at: nat, data: Bytes): Disk {
    if handle < |d.inodes|
    then d.(inodes := d.inodes[handle := d.inodes[handle].(bytes := Overlay(d.inodes[handle].bytes, at, data))])
    else d
  }

  function Unlinked(d: Disk, paths: set<string>): Disk {
    d.(links := d.links - paths)
  }

  /** Appending the next bytes of a text to its beginning. */
  lemma AppendNext(whole: Bytes, at: nat, next: nat)
    requires at <= next <= |whole|
    ensures Overlay(whole[..at], at, whole[at..next]) == whole[..next]
  {
  }
}
