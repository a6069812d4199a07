/**
  The query of a request, after `get_query_value` and `remove_query_from_header` of
  pingap-core/src/http_header.rs.
 */
module Query {
  import opened Wrappers
  import opened Text

  /** `origin` is the scheme and authority of an absolute URI. */
  datatype Uri = Uri(origin: Option<string>, path: string, query: Option<string>)

  predicate HasValue(item: string) {
    Cut(item, '=') < |item|
  }

  function KeyOf(item: string): string {
    item[..Cut(item, '=')]
  }

  function ValueOf(item: string): string
    requires HasValue(item)
  {
    item[Cut(item, '=') + 1..]
  }

  function TrimStart(s: string): string {
    if s != "" && (s[0] == ' ' || '\t' <= s[0] <= '\r') then TrimStart(s[1..]) else s
  }

  function Trim(s: string): string {
    if s != "" && (s[|s| - 1] == ' ' || '\t' <= s[|s| - 1] <= '\r') then Trim(s[..|s| - 1]) else TrimStart(s)
  }

  predicate Blank(c: char) {
    c in {' ', '\t', '\n', '\r', 11 as char, 12 as char}
  }

  lemma {:induction false} TrimStartExact(s: string) returns (before: string)
    ensures s == before + TrimStart(s) && forall c :: c in before ==> Blank(c)
    ensures TrimStart(s) == "" || !Blank(TrimStart(s)[0])
  {
    if s == "" || !Blank(s[0]) {
      before := "";
    } else {
      var rest := TrimStartExact(s[1..]);
      before := [s[0]] + rest;
    }
  }

  /** Trimming takes away white space at both ends, and all that is there. */
  lemma {:induction false} TrimExact(s: string) returns (before: string, after: string)
    ensures s == before + Trim(s) + after
    ensures forall c :: c in before + after ==> Blank(c)
    ensures Trim(s) == "" || (!Blank(Trim(s)[0]) && !Blank(Trim(s)[|Trim(s)| - 1]))
  {
    if s == "" {
      before, after := "", "";
    } else if Blank(s[|s| - 1]) {
      var rest := s[..|s| - 1];
      before, after := TrimExact(rest);
      assert s == rest + [s[|s| - 1]];
      after := after + [s[|s| - 1]];
    } else {
      before := TrimStartExact(s);
      after := "";
      if TrimStart(s) != "" {
        assert (before + TrimStart(s))[|s| - 1] == TrimStart(s)[|TrimStart(s)| - 1];
      }
      assert s == before + TrimStart(s) + "";
    }
  }

  function ItemsOf(query: Option<string>): seq<string> {
    if query.None? then [] else Split(query.value, '&')
  }

  /** The value of the first item that has this key and a value. */
  function FirstValue(items: seq<string>, name: string): Option<string> {
    if items == [] then None
    else if HasValue(items[0]) && KeyOf(items[0]) == name then Some(Trim(ValueOf(items[0])))
    else FirstValue(items[1..], name)
  }

  /** The items with other keys, in their order. */
  function Others(items: seq<string>, name: string): seq<string> {
    if items == [] then []
    else (if KeyOf(items[0]) == name then [] else [items[0]]) + Others(items[1..], name)
  }

  /** A key with its value, as an item of a query. */
  datatype Pair = Pair(key: string, value: string)

  function ItemOf(p: Pair): string {
    p.key + "=" + p.value
  }

  function Items(pairs: seq<Pair>): seq<string> {
    if pairs == [] then [] else [ItemOf(pairs[0])] + Items(pairs[1..])
  }

  predicate Sendable(pairs: seq<Pair>) {
    forall i :: 0 <= i < |pairs| ==>
      '=' !in pairs[i].key && '&' !in pairs[i].key && '&' !in pairs[i].value
  }

  lemma ItemReads(p: Pair)
    requires '=' !in p.key
    ensures HasValue(ItemOf(p)) && KeyOf(ItemOf(p)) == p.key && ValueOf(ItemOf(p)) == p.value
  {
    CutAt(p.key, p.value, '=');
    assert ItemOf(p) == p.key + ['='] + p.value;
  }

  lemma {:induction false} ItemsAreFree(pairs: seq<Pair>)
    requires Sendable(pairs)
    ensures |Items(pairs)| == |pairs| && forall i :: 0 <= i < |pairs| ==> '&' !in Items(pairs)[i]
  {
    if pairs != [] {
      ItemsAreFree(pairs[1..]);
      assert "=" == ['='];
    }
  }

  /** The value of a key is that of the first pair with it. */
  lemma {:induction false} FirstOfItems(pairs: seq<Pair>, name: string) returns (i: nat)
    requires Sendable(pairs)
    ensures i <= |pairs| && forall j :: 0 <= j < i ==> pairs[j].key != name
    ensures i < |pairs| ==> pairs[i].key == name && FirstValue(Items(pairs), name) == Some(Trim(pairs[i].value))
    ensures i == |pairs| ==> FirstValue(Items(pairs), name) == None
  {
    if pairs == [] {
      i := 0;
    } else {
      ItemReads(pairs[0]);
      if pairs[0].key == name {
        i := 0;
      } else {
        i := FirstOfItems(pairs[1..], name);
        assert Items(pairs)[1..] == Items(pairs[1..]);
        i := i + 1;
        assert forall j :: 0 < j < |pairs| ==> pairs[1..][j - 1] == pairs[j];
      }
    }
  }

  /** So it is when the query is written from the pairs. */
  lemma WrittenQuery(pairs: seq<Pair>, name: string) returns (i: nat)
    requires pairs != [] && Sendable(pairs)
    ensures i <= |pairs| && forall j :: 0 <= j < i ==> pairs[j].key != name
    ensures FirstValue(ItemsOf(Some(Join(Items(pairs), '&'))), name) ==
            if i < |pairs| then Some(Trim(pairs[i].value)) else None
    ensures i < |pairs| ==> pairs[i].key == name
  {
    ItemsAreFree(pairs);
    SplitJoin(Items(pairs), '&');
    i := FirstOfItems(pairs, name);
  }

  class RequestHeader {
    var uri: Uri

    constructor (uri: Uri)
      ensures this.uri == uri
    {
      this.uri := uri;
    }

    method GetQueryValue(name: string) returns (r: Option<string>)
      ensures r == FirstValue(ItemsOf(uri.query), name)
    {
      if uri.query.None? {
        return None;
      }
      var items := Split(uri.query.value, '&');
      for i := 0 to |items|
        invariant FirstValue(items, name) == FirstValue(items[i..], name)
      {
        if HasValue(items[i]) && KeyOf(items[i]) == name {
          return Some(Trim(ValueOf(items[i])));
        }
      }
      return None;
    }

    /** The new URI consists of the path and the remaining query only. */
    method RemoveQuery(name: string)
      modifies this
      ensures uri == Without(old(uri), name)
    {
      if uri.query.Some? {
        var kept := KeepOthers(Split(uri.query.value, '&'), name);
        var rest := Join(kept, '&');
        uri := Uri(None, uri.path, if rest == "" then None else Some(rest));
      }
    }
  }

  /** The item again, unless it has the key. */
  method Keep(item: string, name: string) returns (keeps: seq<string>)
    ensures keeps == if KeyOf(item) == name then [] else [item]
  {
    if HasValue(item) {
      var key, value := KeyOf(item), ValueOf(item);
      if key == name {
        return [];
      }
      assert key + "=" + value == item;
      return [key + "=" + value];
    }
    assert KeyOf(item) == item;
    return if item == name then [] else [item];
  }

  method KeepOthers(items: seq<string>, name: string) returns (kept: seq<string>)
    ensures kept == Others(items, name)
  {
    kept := [];
    assert items[0..] == items;
    for i := 0 to |items|
      invariant kept + Others(items[i..], name) == Others(items, name)
    {
      var keeps := Keep(items[i], name);
      OthersFrom(items, i, name);
      kept := kept + keeps;
    }
    assert items[|items|..] == [];
  }

  lemma OthersFrom(items: seq<string>, i: nat, name: string)
    requires i < |items|
    ensures Others(items[i..], name) ==
            (if KeyOf(items[i]) == name then [] else [items[i]]) + Others(items[i + 1..], name)
  {
    assert items[i..][1..] == items[i + 1..];
  }

  function Without(uri: Uri, name: string): Uri {
    if uri.query.None? then uri
    else
      var rest := Join(Others(Split(uri.query.value, '&'), name), '&');
      Uri(None, uri.path, if rest == "" then None else Some(rest))
  }

  // ---------------------------------------------------------------------------------------------
  // What removing a key keeps
  // ---------------------------------------------------------------------------------------------

  predicate Free(items: seq<string>) {
    forall i :: 0 <= i < |items| ==> '&' !in items[i]
  }

  lemma {:induction false} OthersAreFree(items: seq<string>, name: string)
    requires Free(items)
    ensures Free(Others(items, name))
    ensures Lacks(Others(items, name), name)
  {
    if items != [] {
      OthersAreFree(items[1..], name);
    }
  }

  lemma {:induction false} OthersTwice(items: seq<string>, name: string)
    ensures Others(Others(items, name), name) == Others(items, name)
  {
    if items != [] {
      OthersTwice(items[1..], name);
      var all, rest := Others(items, name), Others(items[1..], name);
      if KeyOf(items[0]) == name {
        assert all == rest;
      } else {
        assert all[0] == items[0] && all[1..] == rest;
        assert all == [items[0]] + rest;
      }
    }
  }

  predicate Lacks(items: seq<string>, name: string) {
    forall i :: 0 <= i < |items| ==> KeyOf(items[i]) != name
  }

  lemma {:induction false} OthersKeepAll(items: seq<string>, name: string)
    ensures |Others(items, name)| <= |items|
    ensures Others(items, name) == items <==> Lacks(items, name)
  {
    if items != [] {
      OthersKeepAll(items[1..], name);
      var all, rest := Others(items, name), Others(items[1..], name);
      assert items == [items[0]] + items[1..];
      assert Lacks(items, name) <==> KeyOf(items[0]) != name && Lacks(items[1..], name) by {
        assert forall i :: 1 <= i < |items| ==> items[i] == items[1..][i - 1];
      }
      if KeyOf(items[0]) == name {
        assert all == rest;
      } else {
        assert all == [items[0]] + rest && all[1..] == rest;
      }
    }
  }

  lemma {:induction false} OthersKeepValues(items: seq<string>, name: string, other: string)
    ensures FirstValue(Others(items, name), other) == if other == name then None else FirstValue(items, other)
  {
    if items != [] {
      OthersKeepValues(items[1..], name, other);
      var rest := Others(items[1..], name);
      assert ([items[0]] + rest)[1..] == rest;
      assert [] + rest == rest;
    }
  }

  lemma JoinEmpty(items: seq<string>)
    ensures Join(items, '&') == "" <==> items == [] || items == [""]
  {
  }

  /** The items of the new query are the other items, unless only an empty one is left. */
  lemma RemainingItems(uri: Uri, name: string)
    ensures var others := Others(ItemsOf(uri.query), name);
      ItemsOf(Without(uri, name).query) == if others == [""] && uri.query.Some? then [] else others
  {
    if uri.query.Some? {
      PartsAreFree(uri.query.value, '&');
      var items := Split(uri.query.value, '&');
      OthersAreFree(items, name);
      JoinEmpty(Others(items, name));
      if Join(Others(items, name), '&') != "" {
        SplitJoin(Others(items, name), '&');
      }
    }
  }

  /** The key is gone, and no other key has changed its value. */
  lemma ValuesAfter(uri: Uri, name: string, other: string)
    ensures FirstValue(ItemsOf(Without(uri, name).query), other) ==
            if other == name then None else FirstValue(ItemsOf(uri.query), other)
    ensures Lacks(ItemsOf(Without(uri, name).query), name)
  {
    var items := ItemsOf(uri.query);
    RemainingItems(uri, name);
    OthersKeepValues(items, name, other);
    if uri.query.Some? {
      PartsAreFree(uri.query.value, '&');
    }
    OthersAreFree(items, name);
    assert FirstValue([""], other) == FirstValue([""][1..], other);
  }

  lemma RemovingTwice(uri: Uri, name: string)
    ensures Without(Without(uri, name), name) == Without(uri, name)
  {
    var once := Without(uri, name);
    if once.query.Some? {
      RemainingItems(uri, name);
      OthersTwice(ItemsOf(uri.query), name);
      JoinSplit(once.query.value, '&');
    }
  }

  /**
    The URI stays as it is exactly when it has no query, or is a path with a query that is not empty
    and does not have the key.
   */
  lemma RemovingNothing(uri: Uri, name: string)
    ensures Without(uri, name) == uri <==>
      || uri.query.None?
      || (uri.origin.None? && uri.query.value != "" && Lacks(ItemsOf(uri.query), name))
  {
    if uri.query.Some? {
      var items := ItemsOf(uri.query);
      OthersKeepAll(items, name);
      JoinSplit(uri.query.value, '&');
      if Without(uri, name) == uri {
        RemainingItems(uri, name);
      }
    }
  }
}
