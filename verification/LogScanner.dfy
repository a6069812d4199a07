/**
  The placeholder scanner of pingap-logger/src/access.rs, and the two readings of a template it has
  to reconcile: the pieces between its matches, and the text read character by character.

  What a placeholder stands for is a parameter here.
 */
module LogScanner {
  import opened Wrappers

  predicate NameChar(c: char) {
    || 'a' <= c <= 'z' || 'A' <= c <= 'Z'
    || c == '_' || c == '<' || c == '>' || c == '-' || c == '~' || c == ':' || c == '$'
  }

  /** The first position from `i` on that does not hold a name character. */
  function NameEnd(s: string, i: nat): (j: nat)
    requires i <= |s|
    ensures i <= j <= |s|
    decreases |s| - i
  {
    if i < |s| && NameChar(s[i]) then NameEnd(s, i + 1) else i
  }

  lemma {:induction false} NameEndPasses(s: string, i: nat, k: nat)
    requires i <= |s| && i <= k < NameEnd(s, i)
    ensures NameChar(s[k])
    decreases |s| - i
  {
    if i < k {
      NameEndPasses(s, i + 1, k);
    }
  }

  /** The end of the placeholder that starts at `i`: an open brace, name characters, a closing brace. */
  function MatchAt(s: string, i: nat): (end: Option<nat>)
    ensures end.Some? ==> i + 2 <= end.value <= |s|
  {
    if i < |s| && s[i] == '{' then
      var j := NameEnd(s, i + 1);
      if j < |s| && s[j] == '}' then Some(j + 1) else None
    else None
  }

  lemma {:induction false} NameEndIs(s: string, i: nat, j: nat)
    requires i <= j < |s| && !NameChar(s[j])
    requires forall k :: i <= k < j ==> NameChar(s[k])
    ensures NameEnd(s, i) == j
    decreases j - i
  {
    if i < j {
      NameEndIs(s, i + 1, j);
    }
  }

  /** What the pattern of the program matches. */
  lemma MatchExact(s: string, i: nat, end: nat)
    ensures MatchAt(s, i) == Some(end) <==>
            && i + 2 <= end <= |s| && s[i] == '{' && s[end - 1] == '}'
            && forall k :: i < k < end - 1 ==>
                 'a' <= s[k] <= 'z' || 'A' <= s[k] <= 'Z' || s[k] in {'_', '<', '>', '-', '~', ':', '$'}
  {
    if MatchAt(s, i) == Some(end) {
      forall k | i < k < end - 1
        ensures NameChar(s[k])
      {
        NameEndPasses(s, i + 1, k);
      }
    } else if i + 2 <= end <= |s| && s[end - 1] == '}' && forall k :: i < k < end - 1 ==> NameChar(s[k]) {
      NameEndIs(s, i + 1, end - 1);
    }
  }

  datatype Span = Span(start: nat, end: nat)

  /** The leftmost placeholder from `i` on. */
  function FindAt(s: string, i: nat): (r: Option<Span>)
    ensures r.Some? ==> i <= r.value.start && MatchAt(s, r.value.start) == Some(r.value.end)
    decreases |s| - i
  {
    if i >= |s| then None
    else if MatchAt(s, i).Some? then Some(Span(i, MatchAt(s, i).value))
    else FindAt(s, i + 1)
  }

  /** No placeholder starts inside another one. */
  lemma MatchesDoNotNest(s: string, start: nat, from: nat)
    requires MatchAt(s, start).Some? && start < from < MatchAt(s, start).value
    ensures MatchAt(s, from).None?
  {
    if from < MatchAt(s, start).value - 1 {
      NameEndPasses(s, start + 1, from);
    }
  }

  /** Searching on right behind the start of a placeholder is searching on behind its end. */
  lemma {:induction false} SearchSkipsMatch(s: string, start: nat, from: nat)
    requires MatchAt(s, start).Some? && start < from <= MatchAt(s, start).value
    ensures FindAt(s, from) == FindAt(s, MatchAt(s, start).value)
    decreases MatchAt(s, start).value - from
  {
    if from < MatchAt(s, start).value {
      MatchesDoNotNest(s, start, from);
      SearchSkipsMatch(s, start, from + 1);
    }
  }

  // ---------------------------------------------------------------------------------------------
  // Pieces
  // ---------------------------------------------------------------------------------------------

  datatype Piece = Text(text: string) | Placeholder(key: string)

  function WithText(text: string, rest: seq<Piece>): seq<Piece> {
    if text == "" then rest else [Text(text)] + rest
  }

  /** The template from position `i` on, cut at its placeholders. */
  function Pieces(s: string, i: nat): seq<Piece>
    requires i <= |s|
    decreases |s| - i
  {
    var found := FindAt(s, i);
    if found.None? then WithText(s[i..], [])
    else
      var span := found.value;
      WithText(s[i..span.start], [Placeholder(s[span.start..span.end])] + Pieces(s, span.end))
  }

  predicate Braced(key: string) {
    |key| >= 2 && key[0] == '{' && key[|key| - 1] == '}'
  }

  lemma {:induction false} PiecesAreBraced(s: string, i: nat)
    requires i <= |s|
    ensures forall p :: p in Pieces(s, i) && p.Placeholder? ==> Braced(p.key)
    decreases |s| - i
  {
    if FindAt(s, i).Some? {
      PiecesAreBraced(s, FindAt(s, i).value.end);
    }
  }

  function SpellPiece(p: Piece, show: string -> string): string {
    match p
    case Text(text) => text
    case Placeholder(key) => show(key)
  }

  /** The pieces one after the other, each placeholder as `show` has it. */
  function Spell(pieces: seq<Piece>, show: string -> string): string {
    if pieces == [] then "" else SpellPiece(pieces[0], show) + Spell(pieces[1..], show)
  }

  lemma SpellCons(p: Piece, rest: seq<Piece>, show: string -> string)
    ensures Spell([p] + rest, show) == SpellPiece(p, show) + Spell(rest, show)
  {
    assert ([p] + rest)[1..] == rest;
  }

  lemma SpellWithText(text: string, rest: seq<Piece>, show: string -> string)
    ensures Spell(WithText(text, rest), show) == text + Spell(rest, show)
  {
    if text != "" {
      SpellCons(Text(text), rest, show);
    }
  }

  /** The template read directly, one character after the other. */
  function Interpret(s: string, i: nat, show: string -> string): string
    requires i <= |s|
    decreases |s| - i
  {
    if i == |s| then ""
    else
      var end := MatchAt(s, i);
      if end.Some? then show(s[i..end.value]) + Interpret(s, end.value, show)
      else [s[i]] + Interpret(s, i + 1, show)
  }

  /** Where the search ends: the next placeholder, or the end of the template. */
  function FoundAt(s: string, i: nat): (j: nat)
    requires i <= |s|
    ensures i <= j <= |s|
  {
    var found := FindAt(s, i);
    if found.Some? then found.value.start else |s|
  }

  /** Up to the next placeholder the direct reading copies. */
  lemma {:induction false} InterpretCopies(s: string, i: nat, show: string -> string)
    requires i <= |s|
    ensures Interpret(s, i, show) == s[i..FoundAt(s, i)] + Interpret(s, FoundAt(s, i), show)
    decreases |s| - i
  {
    if i < |s| && MatchAt(s, i).None? {
      var j := FoundAt(s, i);
      InterpretCopies(s, i + 1, show);
      assert j == FoundAt(s, i + 1) && i < j;
      CopyOne(s, i, j, Interpret(s, j, show));
    }
  }

  lemma CopyOne(s: string, i: nat, j: nat, rest: string)
    requires i < j <= |s|
    ensures [s[i]] + (s[i + 1..j] + rest) == s[i..j] + rest
  {
    assert s[i..j] == [s[i]] + s[i + 1..j];
  }

  /** Cutting at the matches and reading character by character say the same. */
  lemma {:induction false} PiecesMeanTemplate(s: string, i: nat, show: string -> string)
    requires i <= |s|
    ensures Spell(Pieces(s, i), show) == Interpret(s, i, show)
    decreases |s| - i
  {
    InterpretCopies(s, i, show);
    var found := FindAt(s, i);
    if found.None? {
      SpellWithText(s[i..], [], show);
      assert s[i..|s|] == s[i..];
    } else {
      var span := found.value;
      var key, rest := s[span.start..span.end], Pieces(s, span.end);
      PiecesMeanTemplate(s, span.end, show);
      SpellWithText(s[i..span.start], [Placeholder(key)] + rest, show);
      SpellCons(Placeholder(key), rest, show);
    }
  }

  lemma {:induction false} InterpretVerbatim(s: string, i: nat)
    requires i <= |s|
    ensures Interpret(s, i, key => key) == s[i..]
    decreases |s| - i
  {
    if i < |s| {
      var end := MatchAt(s, i);
      var next := if end.Some? then end.value else i + 1;
      InterpretVerbatim(s, next);
      assert s[i..] == s[i..next] + s[next..];
    }
  }

  /** The pieces partition the template: spelled as they stand, they give it back. */
  lemma PiecesPartition(s: string)
    ensures Spell(Pieces(s, 0), key => key) == s
  {
    PiecesMeanTemplate(s, 0, key => key);
    InterpretVerbatim(s, 0);
  }

  // ---------------------------------------------------------------------------------------------
  // Writing templates
  // ---------------------------------------------------------------------------------------------

  /** The template that these pieces make. */
  function Written(pieces: seq<Piece>): string {
    Spell(pieces, key => key)
  }

  /** A text without an open brace, or a placeholder that the scanner matches in full. */
  predicate ProperPiece(p: Piece) {
    match p
    case Text(text) => '{' !in text
    case Placeholder(key) => MatchAt(key, 0) == Some(|key|)
  }

  predicate Proper(pieces: seq<Piece>) {
    forall i :: 0 <= i < |pieces| ==> ProperPiece(pieces[i])
  }

  lemma {:induction false} InterpretUntil(s: string, i: nat, j: nat, show: string -> string)
    requires i <= j <= |s| && forall k :: i <= k < j ==> s[k] != '{'
    ensures Interpret(s, i, show) == s[i..j] + Interpret(s, j, show)
    decreases j - i
  {
    if i < j {
      InterpretUntil(s, i + 1, j, show);
      CopyOne(s, i, j, Interpret(s, j, show));
    }
  }

  /** A placeholder is matched wherever it stands. */
  lemma MatchMoves(key: string, s: string, i: nat)
    requires MatchAt(key, 0) == Some(|key|) && i + |key| <= |s| && s[i..i + |key|] == key
    ensures MatchAt(s, i) == Some(i + |key|)
  {
    MatchExact(key, 0, |key|);
    forall k | 0 <= k < |key|
      ensures s[i + k] == key[k]
    {
      assert s[i..i + |key|][k] == s[i + k];
    }
    forall k | i < k < i + |key| - 1
      ensures s[k] == key[k - i]
    {
      assert s[i + (k - i)] == key[k - i];
    }
    MatchExact(s, i, i + |key|);
  }

  lemma Follows(s: string, i: nat, first: string, rest: string)
    requires i <= |s| && s[i..] == first + rest
    ensures i + |first| <= |s| && s[i..i + |first|] == first && s[i + |first|..] == rest
  {
    assert s[i..][..|first|] == first && s[i..][|first|..] == rest;
  }

  /** One piece, and then the rest of the template. */
  lemma ReadPiece(s: string, i: nat, p: Piece, rest: string, show: string -> string) returns (j: nat)
    requires ProperPiece(p) && i <= |s| && s[i..] == SpellPiece(p, key => key) + rest
    ensures j <= |s| && s[j..] == rest
    ensures Interpret(s, i, show) == SpellPiece(p, show) + Interpret(s, j, show)
  {
    match p
    case Text(text) =>
      Follows(s, i, text, rest);
      j := i + |text|;
      assert forall k :: i <= k < j ==> s[k] == s[i..j][k - i];
      InterpretUntil(s, i, j, show);
    case Placeholder(key) =>
      Follows(s, i, key, rest);
      j := i + |key|;
      MatchMoves(key, s, i);
  }

  lemma {:induction false} ReadFrom(s: string, i: nat, pieces: seq<Piece>, show: string -> string)
    requires Proper(pieces) && i <= |s| && s[i..] == Written(pieces)
    ensures Interpret(s, i, show) == Spell(pieces, show)
    decreases |pieces|
  {
    if pieces != [] {
      assert ProperPiece(pieces[0]);
      var j := ReadPiece(s, i, pieces[0], Written(pieces[1..]), show);
      ReadFrom(s, j, pieces[1..], show);
    }
  }

  /** A template written from pieces is read as those pieces. */
  lemma WrittenIsRead(pieces: seq<Piece>, show: string -> string)
    requires Proper(pieces)
    ensures Interpret(Written(pieces), 0, show) == Spell(pieces, show)
  {
    assert Written(pieces)[0..] == Written(pieces);
    ReadFrom(Written(pieces), 0, pieces, show);
  }

  // ---------------------------------------------------------------------------------------------
  // The compiling loop
  // ---------------------------------------------------------------------------------------------

  /** What the loop emits for a piece; a placeholder may emit nothing. */
  function Emit<T>(p: Piece, text: string -> T, tag: string -> Option<T>): seq<T> {
    match p
    case Text(t) => [text(t)]
    case Placeholder(key) => if tag(key).Some? then [tag(key).value] else []
  }

  function EmitAll<T>(pieces: seq<Piece>, text: string -> T, tag: string -> Option<T>): seq<T> {
    if pieces == [] then [] else Emit(pieces[0], text, tag) + EmitAll(pieces[1..], text, tag)
  }

  function CatAll<T>(tags: seq<T>, show: T -> string): string {
    if tags == [] then "" else show(tags[0]) + CatAll(tags[1..], show)
  }

  lemma CatCons<T>(t: T, rest: seq<T>, show: T -> string)
    ensures CatAll([t] + rest, show) == show(t) + CatAll(rest, show)
  {
    assert ([t] + rest)[1..] == rest;
  }

  /** What is emitted for a piece, in front of the rest. */
  lemma CatFront<T>(p: Piece, rest: seq<T>, text: string -> T, tag: string -> Option<T>, show: T -> string)
    ensures CatAll(Emit(p, text, tag) + rest, show) ==
            (match p
             case Text(t) => show(text(t))
             case Placeholder(key) => if tag(key).Some? then show(tag(key).value) else "") + CatAll(rest, show)
  {
    match p
    case Text(t) => CatCons(text(t), rest, show);
    case Placeholder(key) =>
      if tag(key).Some? {
        CatCons(tag(key).value, rest, show);
      } else {
        assert Emit(p, text, tag) + rest == rest;
      }
  }

  /** What is emitted, shown tag by tag, is the pieces spelled with what each placeholder emits. */
  lemma {:induction false} CatEmitted<T(!new)>(pieces: seq<Piece>, text: string -> T, tag: string -> Option<T>,
                                               show: T -> string, showKey: string -> string)
    requires forall t :: show(text(t)) == t
    requires forall key :: showKey(key) == if tag(key).Some? then show(tag(key).value) else ""
    ensures CatAll(EmitAll(pieces, text, tag), show) == Spell(pieces, showKey)
  {
    if pieces != [] {
      CatEmitted(pieces[1..], text, tag, show, showKey);
      CatFront(pieces[0], EmitAll(pieces[1..], text, tag), text, tag, show);
    }
  }

  lemma EmitCons<T>(p: Piece, rest: seq<Piece>, text: string -> T, tag: string -> Option<T>)
    ensures EmitAll([p] + rest, text, tag) == Emit(p, text, tag) + EmitAll(rest, text, tag)
  {
    assert ([p] + rest)[1..] == rest;
  }

  function TextTag<T>(t: string, text: string -> T): seq<T> {
    if t == "" then [] else [text(t)]
  }

  lemma EmitWithText<T>(t: string, rest: seq<Piece>, text: string -> T, tag: string -> Option<T>)
    ensures EmitAll(WithText(t, rest), text, tag) == TextTag(t, text) + EmitAll(rest, text, tag)
  {
    if t != "" {
      EmitCons(Text(t), rest, text, tag);
    }
  }

  /** One turn of the loop below. */
  lemma EmitNext<T>(s: string, end: nat, next: Span, tags: seq<T>, text: string -> T, tag: string -> Option<T>)
    requires end <= |s| && FindAt(s, end) == Some(next)
    ensures tags + EmitAll(Pieces(s, end), text, tag) ==
            tags + TextTag(s[end..next.start], text) + Emit(Placeholder(s[next.start..next.end]), text, tag)
            + EmitAll(Pieces(s, next.end), text, tag)
  {
    var key, rest := s[next.start..next.end], Pieces(s, next.end);
    EmitWithText(s[end..next.start], [Placeholder(key)] + rest, text, tag);
    EmitCons(Placeholder(key), rest, text, tag);
  }

  lemma EmitLast<T>(s: string, end: nat, tags: seq<T>, text: string -> T, tag: string -> Option<T>)
    requires end <= |s| && FindAt(s, end).None?
    ensures tags + EmitAll(Pieces(s, end), text, tag) == tags + TextTag(s[end..], text)
  {
    EmitWithText(s[end..], [], text, tag);
    assert TextTag(s[end..], text) + EmitAll([], text, tag) == TextTag(s[end..], text);
  }

  method PushText<T>(tags: seq<T>, t: string, text: string -> T) returns (pushed: seq<T>)
    ensures pushed == tags + TextTag(t, text)
  {
    pushed := tags;
    if t != "" {
      pushed := pushed + [text(t)];
    }
  }

  method PushTag<T>(tags: seq<T>, key: string, text: string -> T, tag: string -> Option<T>) returns (pushed: seq<T>)
    ensures pushed == tags + Emit(Placeholder(key), text, tag)
  {
    pushed := tags;
    var found := tag(key);
    if found.Some? {
      pushed := pushed + [found.value];
    }
  }

  method Compile<T>(value: string, text: string -> T, tag: string -> Option<T>) returns (tags: seq<T>)
    ensures tags == EmitAll(Pieces(value, 0), text, tag)
  {
    ghost var all := EmitAll(Pieces(value, 0), text, tag);
    var current: nat, end: nat := 0, 0;
    tags := [];
    while FindAt(value, current).Some?
      invariant end <= |value|
      invariant FindAt(value, current) == FindAt(value, end)
      invariant all == tags + EmitAll(Pieces(value, end), text, tag)
      decreases |value| - current
    {
      var result := FindAt(value, current).value;
      EmitNext(value, end, result, tags, text, tag);
      tags := PushText(tags, value[end..result.start], text);
      tags := PushTag(tags, value[result.start..result.end], text, tag);
      SearchSkipsMatch(value, result.start, result.start + 1);
      end := result.end;
      current := result.start + 1;
    }
    EmitLast(value, end, tags, text, tag);
    tags := PushText(tags, value[end..], text);
  }
}
