/**
  Cache objects and their on-disk form, after pingap-cache/src/http_cache.rs: two big-endian 32-bit
  metadata lengths, the two metadata parts, and the body up to the end of the buffer.
 */
module CacheCodec {
  import opened Wrappers

  type Bytes = seq<byte>

  datatype CacheObject = CacheObject(meta0: Bytes, meta1: Bytes, body: Bytes)

  /** Decoding splits the buffer where the header says; past its end that panics. */
  datatype Decoded = Object(value: CacheObject) | Panic

  const PAGE_SIZE: nat := 4096
  const MAX_OBJECT_CACHE_SIZE: nat := 10 * 1024 * PAGE_SIZE
  const META_SIZE_LENGTH: nat := 8

  function Weight(o: CacheObject): u16 {
    var size := |o.body| + |o.meta0| + |o.meta1|;
    if size <= PAGE_SIZE then 1
    else if size >= MAX_OBJECT_CACHE_SIZE then U16 - 1
    else (size / PAGE_SIZE) % U16
  }

  // ---------------------------------------------------------------------------------------------
  // The header words
  // ---------------------------------------------------------------------------------------------

  function BigEndian(n: u32): Bytes {
    var n1 := n / 0x100;
    var n2 := n1 / 0x100;
    [(n2 / 0x100) as byte, (n2 % 0x100) as byte, (n1 % 0x100) as byte, (n % 0x100) as byte]
  }

  function Word(b: Bytes): u32
    requires |b| >= 4
  {
    ((b[0] as int * 0x100 + b[1] as int) * 0x100 + b[2] as int) * 0x100 + b[3] as int
  }

  lemma WordOfBigEndian(n: u32, rest: Bytes)
    ensures Word(BigEndian(n) + rest) == n
  {
    var b := BigEndian(n) + rest;
    assert b[0] as int == n / 0x100 / 0x100 / 0x100 && b[1] as int == n / 0x100 / 0x100 % 0x100
        && b[2] as int == n / 0x100 % 0x100 && b[3] as int == n % 0x100;
  }

  lemma Digit(high: int, low: byte)
    ensures (high * 0x100 + low as int) / 0x100 == high && (high * 0x100 + low as int) % 0x100 == low as int
  {
  }

  lemma BigEndianOfWord(b: Bytes)
    requires |b| >= 4
    ensures BigEndian(Word(b)) == b[..4]
  {
    var n3 := b[0] as int;
    var n2 := n3 * 0x100 + b[1] as int;
    Digit(n3, b[1]);
    Digit(n2, b[2]);
    Digit(n2 * 0x100 + b[2] as int, b[3]);
  }

  // ---------------------------------------------------------------------------------------------
  // The two conversions
  // ---------------------------------------------------------------------------------------------

  function Header(o: CacheObject): Bytes {
    BigEndian(|o.meta0| % U32) + BigEndian(|o.meta1| % U32)
  }

  function Encode(o: CacheObject): Bytes {
    Header(o) + o.meta0 + o.meta1 + o.body
  }

  function Split(n0: nat, n1: nat, data: Bytes): Decoded {
    if |data| < n0 + n1 then Panic
    else Object(CacheObject(data[..n0], data[n0..][..n1], data[n0..][n1..]))
  }

  function Decode(b: Bytes): Decoded {
    if |b| < META_SIZE_LENGTH then Object(CacheObject([], [], []))
    else Split(Word(b), Word(b[4..]), b[8..])
  }

  method IntoBytes(value: CacheObject) returns (buf: Bytes)
    ensures buf == Encode(value)
  {
    buf := [];
    buf := buf + BigEndian(|value.meta0| % U32);
    buf := buf + BigEndian(|value.meta1| % U32);
    buf := buf + value.meta0;
    buf := buf + value.meta1;
    buf := buf + value.body;
  }

  method FromBytes(value: Bytes) returns (r: Decoded)
    ensures r == Decode(value)
  {
    if |value| < META_SIZE_LENGTH {
      return Object(CacheObject([], [], []));
    }
    var data := value;
    var meta0Size := Word(data);
    data := data[4..];
    var meta1Size := Word(data);
    data := data[4..];
    assert data == value[8..];
    if |data| < meta0Size {
      return Panic;
    }
    var meta0 := data[..meta0Size];
    data := data[meta0Size..];
    if |data| < meta1Size {
      return Panic;
    }
    var meta1 := data[..meta1Size];
    data := data[meta1Size..];
    return Object(CacheObject(meta0, meta1, data));
  }

  // ---------------------------------------------------------------------------------------------
  // Round trips
  // ---------------------------------------------------------------------------------------------

  /** The lengths that fit their header word. */
  predicate Encodable(o: CacheObject) {
    |o.meta0| < U32 && |o.meta1| < U32
  }

  lemma HeaderWords(o: CacheObject)
    ensures |Header(o)| == 8
    ensures Word(Encode(o)) == |o.meta0| % U32 && Word(Encode(o)[4..]) == |o.meta1| % U32
    ensures Encode(o)[8..] == o.meta0 + o.meta1 + o.body
  {
    var w0, w1 := BigEndian(|o.meta0| % U32), BigEndian(|o.meta1| % U32);
    var data := o.meta0 + o.meta1 + o.body;
    WordOfBigEndian(|o.meta0| % U32, w1 + data);
    WordOfBigEndian(|o.meta1| % U32, data);
    assert Encode(o) == w0 + (w1 + data);
    assert Encode(o)[4..] == w1 + data;
  }

  lemma SplitJoin(n0: nat, n1: nat, data: Bytes)
    requires Split(n0, n1, data).Object?
    ensures var o := Split(n0, n1, data).value;
            |o.meta0| == n0 && |o.meta1| == n1 && o.meta0 + o.meta1 + o.body == data
  {
    assert data == data[..n0] + data[n0..];
    assert data[n0..] == data[n0..][..n1] + data[n0..][n1..];
  }

  lemma SplitPrefix(m0: Bytes, m1: Bytes, body: Bytes, n: nat)
    requires n <= |m0 + m1 + body|
    ensures Split(|m0|, |m1|, (m0 + m1 + body)[..n]) ==
            if n < |m0| + |m1| then Panic else Object(CacheObject(m0, m1, body[..n - |m0| - |m1|]))
  {
    var data := (m0 + m1 + body)[..n];
    if |m0| + |m1| <= n {
      assert data[..|m0|] == m0;
      assert data[|m0|..] == m1 + body[..n - |m0| - |m1|];
    }
  }

  lemma DecodeCut(b: Bytes, m0: Bytes, m1: Bytes, body: Bytes, n: nat)
    requires META_SIZE_LENGTH <= n <= |b|
    requires Word(b) == |m0| && Word(b[4..]) == |m1| && b[8..] == m0 + m1 + body
    ensures Decode(b[..n]) == if n - 8 < |m0| + |m1| then Panic
                              else Object(CacheObject(m0, m1, body[..n - 8 - |m0| - |m1|]))
  {
    assert b[..n][8..] == (m0 + m1 + body)[..n - 8];
    SplitPrefix(m0, m1, body, n - 8);
  }

  /** A length that does not fit is read back as another one. */
  lemma DecodedLengths(o: CacheObject)
    requires Decode(Encode(o)) == Object(o)
    ensures Encodable(o)
  {
    HeaderWords(o);
    var data := Encode(o)[8..];
    SplitJoin(|o.meta0| % U32, |o.meta1| % U32, data);
  }

  lemma ComesBack(o: CacheObject)
    requires Encodable(o)
    ensures Decode(Encode(o)) == Object(o)
  {
    var b := Encode(o);
    HeaderWords(o);
    DecodeCut(b, o.meta0, o.meta1, o.body, |b|);
    assert b[..|b|] == b && o.body[..|o.body|] == o.body;
  }

  /** What was stored comes back exactly when both metadata lengths fit 32 bits. */
  lemma DecodeEncode(o: CacheObject)
    ensures Decode(Encode(o)) == Object(o) <==> Encodable(o)
  {
    if Decode(Encode(o)) == Object(o) {
      DecodedLengths(o);
    }
    if Encodable(o) {
      ComesBack(o);
    }
  }

  lemma FourParts(h: Bytes, a: Bytes, b: Bytes, c: Bytes)
    ensures h + a + b + c == h + (a + b + c)
  {
  }

  lemma Rebuild(b: Bytes, n0: nat, n1: nat)
    requires |b| >= 8 && Split(n0, n1, b[8..]).Object?
    ensures var o := Split(n0, n1, b[8..]).value;
            && |o.meta0| == n0 && |o.meta1| == n1
            && b[..4] + b[4..][..4] + o.meta0 + o.meta1 + o.body == b
  {
    var o := Split(n0, n1, b[8..]).value;
    SplitJoin(n0, n1, b[8..]);
    FourParts(b[..4] + b[4..][..4], o.meta0, o.meta1, o.body);
    assert b[..4] + b[4..][..4] == b[..8];
  }

  lemma HeaderOf(o: CacheObject, n0: u32, n1: u32)
    requires |o.meta0| == n0 && |o.meta1| == n1
    ensures Header(o) == BigEndian(n0) + BigEndian(n1)
  {
    assert n0 % U32 == n0 && n1 % U32 == n1;
  }

  lemma EncodeDecodeLong(b: Bytes)
    requires Decode(b).Object? && |b| >= META_SIZE_LENGTH
    ensures Encode(Decode(b).value) == b && Encodable(Decode(b).value)
  {
    var n0, n1, o := Word(b), Word(b[4..]), Decode(b).value;
    Rebuild(b, n0, n1);
    BigEndianOfWord(b);
    BigEndianOfWord(b[4..]);
    HeaderOf(o, n0, n1);
  }

  /** Any file that decodes is the encoding of what it decodes to, unless it is shorter than a header. */
  lemma EncodeDecode(b: Bytes)
    requires Decode(b).Object?
    ensures Encode(Decode(b).value) == b <==> |b| >= META_SIZE_LENGTH
    ensures Encodable(Decode(b).value)
  {
    if |b| >= META_SIZE_LENGTH {
      EncodeDecodeLong(b);
    } else {
      HeaderWords(Decode(b).value);
    }
  }

  /** No two storable objects share an encoding. */
  lemma EncodeInjective(o: CacheObject, p: CacheObject)
    requires Encodable(o) && Encodable(p) && Encode(o) == Encode(p)
    ensures o == p
  {
    DecodeEncode(o);
    DecodeEncode(p);
  }

  /** `o` cut short: the same metadata and a first part of the body. */
  predicate CutFrom(o: CacheObject, whole: CacheObject) {
    o.meta0 == whole.meta0 && o.meta1 == whole.meta1 && o.body <= whole.body
  }

  /**
    A file of which only the first `n` bytes were written: the reader panics, or the object comes
    back with its body cut at that point; nothing else.
   */
  lemma DecodePrefix(o: CacheObject, n: nat)
    requires Encodable(o) && META_SIZE_LENGTH <= n <= |Encode(o)|
    ensures var start := 8 + |o.meta0| + |o.meta1|;
            Decode(Encode(o)[..n]) == if n < start then Panic
                                      else Object(o.(body := o.body[..n - start]))
  {
    HeaderWords(o);
    DecodeCut(Encode(o), o.meta0, o.meta1, o.body, n);
  }
}
