/** Splitting text at a separator and joining it again. */
module Text {

  /** The position of the first separator, or the length. */
  function Cut(s: string, sep: char): (i: nat)
    ensures i <= |s|
    ensures i < |s| ==> s[i] == sep
  {
    if s == "" || s[0] == sep then 0 else 1 + Cut(s[1..], sep)
  }

  /** The parts between separators; a text without one is its own single part. */
  function Split(s: string, sep: char): (parts: seq<string>)
    ensures parts != []
    decreases |s|
  {
    var i := Cut(s, sep);
    if i == |s| then [s] else [s[..i]] + Split(s[i + 1..], sep)
  }

  function Join(parts: seq<string>, sep: char): string {
    if parts == [] then ""
    else if |parts| == 1 then parts[0]
    else parts[0] + [sep] + Join(parts[1..], sep)
  }

  lemma {:induction false} CutIsFree(s: string, sep: char)
    ensures sep !in s[..Cut(s, sep)]
  {
    if s != "" && s[0] != sep {
      CutIsFree(s[1..], sep);
      assert s[..Cut(s, sep)] == [s[0]] + s[1..][..Cut(s[1..], sep)];
    }
  }

  lemma {:induction false} CutAt(a: string, b: string, sep: char)
    requires sep !in a
    ensures Cut(a + [sep] + b, sep) == |a|
    ensures Cut(a, sep) == |a|
  {
    if a == "" {
      assert a + [sep] + b == [sep] + b;
    } else {
      CutAt(a[1..], b, sep);
      assert (a + [sep] + b)[1..] == a[1..] + [sep] + b;
    }
  }

  lemma JoinCons(first: string, rest: seq<string>, sep: char)
    requires rest != []
    ensures Join([first] + rest, sep) == first + [sep] + Join(rest, sep)
  {
    assert ([first] + rest)[1..] == rest;
  }

  lemma {:induction false} JoinSplit(s: string, sep: char)
    ensures Join(Split(s, sep), sep) == s
    decreases |s|
  {
    var i := Cut(s, sep);
    if i < |s| {
      JoinSplit(s[i + 1..], sep);
      JoinCons(s[..i], Split(s[i + 1..], sep), sep);
      assert s == s[..i] + [sep] + s[i + 1..];
    }
  }

  lemma {:induction false} SplitJoin(parts: seq<string>, sep: char)
    requires parts != [] && forall i :: 0 <= i < |parts| ==> sep !in parts[i]
    ensures Split(Join(parts, sep), sep) == parts
  {
    var first := parts[0];
    if |parts| == 1 {
      CutAt(first, "", sep);
    } else {
      var rest := Join(parts[1..], sep);
      SplitJoin(parts[1..], sep);
      CutAt(first, rest, sep);
      assert (first + [sep] + rest)[..|first|] == first;
      assert (first + [sep] + rest)[|first| + 1..] == rest;
    }
  }

  lemma {:induction false} PartsAreFree(s: string, sep: char)
    ensures forall i :: 0 <= i < |Split(s, sep)| ==> sep !in Split(s, sep)[i]
    decreases |s|
  {
    CutIsFree(s, sep);
    var i := Cut(s, sep);
    if i < |s| {
      PartsAreFree(s[i + 1..], sep);
    } else {
      assert s[..i] == s;
    }
  }

  /** The last separator ends all parts but the last. */
  lemma {:induction false} SplitLast(s: string, last: string, sep: char)
    requires sep !in last
    ensures Split(s + [sep] + last, sep) == Split(s, sep) + [last]
    decreases |s|
  {
    var i, all := Cut(s, sep), s + [sep] + last;
    CutIsFree(s, sep);
    CutAt(last, "", sep);
    if i == |s| {
      assert s[..i] == s;
      CutAt(s, last, sep);
      assert all[..i] == s && all[i + 1..] == last;
    } else {
      var head, tail := s[..i], s[i + 1..];
      assert s == head + [sep] + tail;
      assert all == head + [sep] + (tail + [sep] + last);
      CutAt(head, tail + [sep] + last, sep);
      CutAt(head, tail, sep);
      assert all[..i] == head && all[i + 1..] == tail + [sep] + last;
      SplitLast(tail, last, sep);
      assert [head] + (Split(tail, sep) + [last]) == [head] + Split(tail, sep) + [last];
    }
  }
}
