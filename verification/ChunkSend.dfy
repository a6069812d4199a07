/** Sending a reader's content in chunks, after `HttpChunkResponse::send` of pingap-core/src/http_response.rs. */
module ChunkSend {
  import opened Wrappers

  const SMALLEST_CHUNK: nat := 512

  /** One write to the body of the response. */
  datatype Write = Write(data: seq<byte>, end: bool)

  /** `fills`: a read fills the buffer unless the content ends. */
  class Reader {
    const fills: bool
    var rest: seq<byte>

    constructor (fills: bool, content: seq<byte>)
      ensures this.fills == fills && rest == content
    {
      this.fills := fills;
      rest := content;
    }

    /** Some of the next bytes, at least one while there are any, or a failure. */
    method Read(size: nat) returns (r: Option<seq<byte>>)
      requires size > 0
      modifies this
      ensures r.None? ==> rest == old(rest)
      ensures r.Some? ==> old(rest) == r.value + rest && |r.value| <= size
      ensures r.Some? && r.value == [] ==> rest == []
      ensures r.Some? && fills && |r.value| < size ==> rest == []
    {
      var fails: bool := *;
      if fails {
        return None;
      }
      var most := Min(size, |rest|);
      var n: nat :| n <= most && (rest != [] ==> n > 0) && (fills ==> n == most);
      r := Some(rest[..n]);
      rest := rest[n..];
    }
  }

  class Session {
    var body: seq<Write>

    constructor ()
      ensures body == []
    {
      body := [];
    }

    method WriteBody(data: seq<byte>, end: bool)
      modifies this
      ensures body == old(body) + [Write(data, end)]
    {
      body := body + [Write(data, end)];
    }
  }

  function Data(body: seq<Write>): seq<byte> {
    if body == [] then [] else Data(body[..|body| - 1]) + body[|body| - 1].data
  }

  lemma DataPush(body: seq<Write>, w: Write)
    ensures Data(body + [w]) == Data(body) + w.data
  {
    assert (body + [w])[..|body|] == body;
  }

  /** Full chunks, none of which ends the body. */
  predicate AllFull(body: seq<Write>, size: nat) {
    forall i :: 0 <= i < |body| ==> |body[i].data| == size && !body[i].end
  }

  /** Full chunks and then one that is not full, which alone ends the body. */
  predicate Complete(body: seq<Write>, size: nat) {
    && body != [] && AllFull(body[..|body| - 1], size)
    && |body[|body| - 1].data| < size && body[|body| - 1].end
  }

  lemma PushFull(body: seq<Write>, w: Write, size: nat)
    requires AllFull(body, size) && |w.data| <= size && w.end == (|w.data| < size)
    ensures if w.end then Complete(body + [w], size) else AllFull(body + [w], size)
  {
    assert (body + [w])[..|body|] == body;
  }

  /** One turn of the loop: the number of bytes read and sent, or nothing when the read failed. */
  method SendChunk(reader: Reader, size: nat, session: Session) returns (r: Option<nat>)
    requires size > 0 && AllFull(session.body, size)
    modifies reader, session
    ensures Data(session.body) + reader.rest == old(Data(session.body) + reader.rest)
    ensures r.None? ==> session.body == old(session.body) && reader.rest == old(reader.rest)
    ensures r.Some? ==> r.value <= size && |Data(session.body)| == |old(Data(session.body))| + r.value
    ensures r.Some? && r.value == size ==> AllFull(session.body, size) && |reader.rest| < old(|reader.rest|)
    ensures r.Some? && r.value < size ==> Complete(session.body, size)
    ensures r.Some? && r.value < size && reader.fills ==> reader.rest == []
  {
    var read := reader.Read(size);
    if read.None? {
      return None;
    }
    ghost var w := Write(read.value, |read.value| < size);
    DataPush(session.body, w);
    PushFull(session.body, w, size);
    session.WriteBody(read.value, |read.value| < size);
    return Some(|read.value|);
  }

  /** The number of bytes sent, or nothing when a read failed. */
  method Send(reader: Reader, chunkSize: nat, session: Session) returns (sent: Option<nat>)
    requires session.body == []
    modifies reader, session
    ensures Data(session.body) + reader.rest == old(reader.rest)
    ensures sent.Some? ==> Complete(session.body, Max(chunkSize, 512)) && sent.value == |Data(session.body)|
    ensures sent.None? ==> AllFull(session.body, Max(chunkSize, 512))
    ensures sent.Some? && reader.fills ==> reader.rest == []
  {
    var size, total := Max(chunkSize, SMALLEST_CHUNK), 0;
    while true
      invariant Data(session.body) + reader.rest == old(reader.rest)
      invariant AllFull(session.body, size) && total == |Data(session.body)|
      decreases |reader.rest|
    {
      var read := SendChunk(reader, size, session);
      if read.None? {
        return None;
      }
      total := total + read.value;
      if read.value < size {
        return Some(total);
      }
    }
  }

  // ---------------------------------------------------------------------------------------------
  // What a complete body looks like
  // ---------------------------------------------------------------------------------------------

  lemma {:induction false} FullLength(body: seq<Write>, size: nat)
    requires AllFull(body, size)
    ensures |Data(body)| == |body| * size
  {
    if body == [] {
      assert 0 * size == 0;
    } else {
      FullLength(body[..|body| - 1], size);
      assert (|body| - 1) * size + size == |body| * size;
    }
  }

  lemma Multiple(d: int, size: nat)
    ensures d >= 1 ==> d * size >= size
    ensures d <= -1 ==> d * size + size <= 0
  {
  }

  lemma OneQuotient(q: int, m: nat, k: int, r: nat, size: nat)
    requires q * size + m == k * size + r && m < size && r < size
    ensures q == k && m == r
  {
    Multiple(q - k, size);
    assert (q - k) * size == q * size - k * size;
  }

  lemma Quotient(n: nat, k: nat, size: nat, r: nat)
    requires n == k * size + r && r < size
    ensures n / size == k && n % size == r
  {
    OneQuotient(n / size, n % size, k, r, size);
  }

  /**
    A complete body has one write more than there are full chunks in its content; the last write is
    empty exactly when the content is a multiple of the chunk size.
   */
  lemma CompleteShape(body: seq<Write>, size: nat)
    requires size > 0 && Complete(body, size)
    ensures |body| == |Data(body)| / size + 1
    ensures body[|body| - 1].data == [] <==> |Data(body)| % size == 0
    ensures forall i :: 0 <= i < |body| ==> (body[i].end <==> i == |body| - 1)
  {
    var n := |body| - 1;
    FullLength(body[..n], size);
    Quotient(|Data(body)|, n, size, |body[n].data|);
    assert forall i :: 0 <= i < n ==> body[i] == body[..n][i];
  }
}
