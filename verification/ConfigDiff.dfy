/**
  Comparing two configurations, after `descriptions` and `diff` of pingap-config/src/common.rs.

  A configuration is its described text: the lines of each item's TOML, with certificates, keys and
  secrets already replaced by their checksums.
 */
module ConfigDiff {
  import opened Wrappers
  import opened ConfigItems

  /** What is described: the basic part, or an item. */
  datatype Key = BasicKey | ItemKey(entry: Entry)

  datatype Description = Description(category: Category, name: string, data: Lines)

  function CategoryOf(k: Key): Category {
    if k.BasicKey? then Basic else k.entry.category
  }

  function Prefix(c: Category): string {
    match c
    case Server => "server:"
    case Location => "location:"
    case Upstream => "upstream:"
    case Plugin => "plugin:"
    case Certificate => "certificate:"
    case Storage => "storage:"
    case _ => "basic"
  }

  /** The name under which an item is compared. */
  function NameOf(k: Key): string {
    if k.BasicKey? then "basic" else Prefix(k.entry.category) + k.entry.name
  }

  predicate ProperKey(k: Key) {
    k.ItemKey? ==> HoldsItems(k.entry.category)
  }

  predicate Describes(c: ConfText, k: Key) {
    k.ItemKey? ==> k.entry in c.items
  }

  function DataOf(c: ConfText, k: Key): Lines
    requires Describes(c, k)
  {
    if k.BasicKey? then c.basic else c.items[k.entry]
  }

  function Describe(c: ConfText, k: Key): Description
    requires Describes(c, k)
  {
    Description(CategoryOf(k), NameOf(k), DataOf(c, k))
  }

  lemma PrefixesDiffer(c: Category, d: Category, r: string, t: string)
    requires HoldsItems(c) && HoldsItems(d) && Prefix(c) + r == Prefix(d) + t
    ensures c == d && r == t
  {
    var p := Prefix(c) + r;
    assert p[0] == Prefix(c)[0] && p[1] == Prefix(c)[1];
    assert p[0] == Prefix(d)[0] && p[1] == Prefix(d)[1];
    assert c == d;
    assert p[|Prefix(c)|..] == r && p[|Prefix(d)|..] == t;
  }

  /** No two items are compared under one name. */
  lemma NamesAreUnique(k: Key, l: Key)
    requires ProperKey(k) && ProperKey(l) && NameOf(k) == NameOf(l)
    ensures k == l
  {
    if k.ItemKey? && l.ItemKey? {
      PrefixesDiffer(k.entry.category, l.entry.category, k.entry.name, l.entry.name);
    }
  }

  lemma DistinctSnoc<T>(s: seq<T>, x: T)
    requires Distinct(s) && x !in s
    ensures Distinct(s + [x])
  {
  }

  /** `list` describes the whole configuration, in the order of `keys`. */
  ghost predicate Lists(c: ConfText, list: seq<Description>, keys: seq<Key>) {
    && Distinct(keys)
    && (forall k :: k in keys <==> Describes(c, k) && ProperKey(k))
    && |list| == |keys|
    && forall i :: 0 <= i < |keys| ==> list[i] == Describe(c, keys[i])
  }

  ghost predicate DescribesAll(c: ConfText, list: seq<Description>) {
    exists keys :: Lists(c, list, keys)
  }

  /** The descriptions of one configuration; the original sorts them, any order will do. */
  method Descriptions(c: ConfText) returns (list: seq<Description>)
    requires c.WellFormed()
    ensures DescribesAll(c, list)
  {
    list := [];
    ghost var keys: seq<Key> := [];
    var todo := c.items.Keys;
    while todo != {}
      invariant todo <= c.items.Keys
      invariant Distinct(keys) && |list| == |keys|
      invariant forall k :: k in keys <==> k.ItemKey? && k.entry in c.items && k.entry !in todo
      invariant forall i :: 0 <= i < |keys| ==> list[i] == Describe(c, keys[i])
    {
      var e :| e in todo;
      list := list + [Description(e.category, Prefix(e.category) + e.name, c.items[e])];
      keys := keys + [ItemKey(e)];
      todo := todo - {e};
    }
    DistinctSnoc(keys, BasicKey);
    list := list + [Description(Basic, "basic", c.basic)];
    keys := keys + [BasicKey];
    assert Lists(c, list, keys);
  }

  // ---------------------------------------------------------------------------------------------
  // The comparison
  // ---------------------------------------------------------------------------------------------

  /** Removed, added or changed. */
  predicate Differs(a: ConfText, b: ConfText, k: Key) {
    || Describes(a, k) != Describes(b, k)
    || (Describes(a, k) && Describes(b, k) && DataOf(a, k) != DataOf(b, k))
  }

  function Categories(keys: seq<Key>): seq<Category> {
    seq(|keys|, i requires 0 <= i < |keys| => CategoryOf(keys[i]))
  }

  /** One category for each item of `touched`. */
  ghost predicate Reports(categories: seq<Category>, touched: seq<Key>) {
    categories == Categories(touched) && Distinct(touched)
  }

  ghost predicate ReportsMissing(a: ConfText, b: ConfText, categories: seq<Category>, touched: seq<Key>) {
    && Reports(categories, touched)
    && forall k :: k in touched <==> ProperKey(k) && Describes(a, k) && !Describes(b, k)
  }

  ghost predicate ReportsChanged(a: ConfText, b: ConfText, categories: seq<Category>, touched: seq<Key>) {
    && Reports(categories, touched)
    && forall k :: k in touched <==> ProperKey(k) && Describes(a, k) && Describes(b, k) && DataOf(a, k) != DataOf(b, k)
  }

  method HasName(list: seq<Description>, name: string) returns (found: bool)
    ensures found <==> exists i :: 0 <= i < |list| && list[i].name == name
  {
    found := false;
    for i := 0 to |list|
      invariant found <==> exists j :: 0 <= j < i && list[j].name == name
    {
      if list[i].name == name {
        found := true;
      }
    }
  }

  lemma NameFound(b: ConfText, list: seq<Description>, keys: seq<Key>, k: Key)
    requires Lists(b, list, keys) && ProperKey(k)
    ensures (exists i :: 0 <= i < |list| && list[i].name == NameOf(k)) <==> Describes(b, k)
  {
    if Describes(b, k) {
      assert k in keys;
      var i :| 0 <= i < |keys| && keys[i] == k;
      assert list[i].name == NameOf(k);
    }
    if i :| 0 <= i < |list| && list[i].name == NameOf(k) {
      assert keys[i] in keys;
      NamesAreUnique(keys[i], k);
    }
  }

  ghost predicate IsMissing(b: ConfText, keys: seq<Key>, touched: seq<Key>) {
    forall k :: k in touched <==> k in keys && !Describes(b, k)
  }

  lemma MissingGrows(b: ConfText, keys: seq<Key>, i: nat, touched: seq<Key>)
    requires i < |keys| && Distinct(keys) && IsMissing(b, keys[..i], touched)
    ensures keys[i] !in touched
    ensures IsMissing(b, keys[..i + 1], if Describes(b, keys[i]) then touched else touched + [keys[i]])
  {
    assert keys[..i + 1] == keys[..i] + [keys[i]];
  }

  lemma ReportsGrow(categories: seq<Category>, touched: seq<Key>, k: Key)
    requires Reports(categories, touched) && k !in touched
    ensures Reports(categories + [CategoryOf(k)], touched + [k])
  {
    DistinctSnoc(touched, k);
  }

  /** The item at `i` is found in the other list exactly when the other configuration describes it. */
  lemma FoundAt(a: ConfText, from: seq<Description>, keysA: seq<Key>,
                b: ConfText, list: seq<Description>, keysB: seq<Key>, i: nat)
    requires Lists(a, from, keysA) && Lists(b, list, keysB) && i < |from|
    ensures from[i].category == CategoryOf(keysA[i])
    ensures (exists j :: 0 <= j < |list| && list[j].name == from[i].name) <==> Describes(b, keysA[i])
  {
    assert keysA[i] in keysA;
    NameFound(b, list, keysB, keysA[i]);
  }

  /** The items of `a` that `b` does not have; the second loop of `diff` is this one, turned around. */
  method Missing(ghost a: ConfText, from: seq<Description>, ghost b: ConfText, list: seq<Description>)
    returns (categories: seq<Category>)
    requires DescribesAll(a, from) && DescribesAll(b, list)
    ensures exists touched :: ReportsMissing(a, b, categories, touched)
  {
    ghost var keysA :| Lists(a, from, keysA);
    ghost var keysB :| Lists(b, list, keysB);
    ghost var touched: seq<Key> := [];
    categories := [];
    for i := 0 to |from|
      invariant Reports(categories, touched)
      invariant IsMissing(b, keysA[..i], touched)
    {
      var found := HasName(list, from[i].name);
      FoundAt(a, from, keysA, b, list, keysB, i);
      MissingGrows(b, keysA, i, touched);
      if !found {
        ReportsGrow(categories, touched, keysA[i]);
        categories := categories + [from[i].category];
        touched := touched + [keysA[i]];
      }
    }
    assert keysA[..|from|] == keysA;
    assert ReportsMissing(a, b, categories, touched);
  }

  ghost predicate IsChanged(a: ConfText, b: ConfText, keys: seq<Key>, touched: seq<Key>) {
    forall k :: k in touched <==> k in keys && Describes(a, k) && Describes(b, k) && DataOf(a, k) != DataOf(b, k)
  }

  lemma ChangedGrows(a: ConfText, b: ConfText, keys: seq<Key>, i: nat, touched: seq<Key>)
    requires i < |keys| && Distinct(keys) && IsChanged(a, b, keys[..i], touched) && Describes(a, keys[i])
    ensures keys[i] !in touched
    ensures IsChanged(a, b, keys[..i + 1],
              if Describes(b, keys[i]) && DataOf(a, keys[i]) != DataOf(b, keys[i])
              then touched + [keys[i]] else touched)
  {
    assert keys[..i + 1] == keys[..i] + [keys[i]];
  }

  /** The items that both have, with different lines. */
  method Changed(ghost a: ConfText, from: seq<Description>, ghost b: ConfText, list: seq<Description>)
    returns (categories: seq<Category>)
    requires DescribesAll(a, from) && DescribesAll(b, list)
    ensures exists touched :: ReportsChanged(a, b, categories, touched)
  {
    ghost var keysA :| Lists(a, from, keysA);
    ghost var keysB :| Lists(b, list, keysB);
    ghost var touched: seq<Key> := [];
    categories := [];
    for i := 0 to |from|
      invariant Reports(categories, touched)
      invariant IsChanged(a, b, keysA[..i], touched)
    {
      assert keysA[i] in keysA;
      var hits := Compare(a, from[i], keysA[i], b, list, keysB);
      ChangedGrows(a, b, keysA, i, touched);
      if hits == 1 {
        ReportsGrow(categories, touched, keysA[i]);
        categories := categories + [from[i].category];
        touched := touched + [keysA[i]];
      }
    }
    assert keysA[..|from|] == keysA;
    assert ReportsChanged(a, b, categories, touched);
  }

  /** How often the inner loop finds the item's name with other lines. */
  method Compare(ghost a: ConfText, item: Description, ghost k: Key,
                 ghost b: ConfText, list: seq<Description>, ghost keysB: seq<Key>)
    returns (hits: nat)
    requires Describes(a, k) && ProperKey(k) && item == Describe(a, k) && Lists(b, list, keysB)
    ensures hits == if Describes(b, k) && DataOf(a, k) != DataOf(b, k) then 1 else 0
  {
    hits := 0;
    for j := 0 to |list|
      invariant hits == if k in keysB[..j] && DataOf(a, k) != DataOf(b, k) then 1 else 0
    {
      assert keysB[j] in keysB && keysB[j] !in keysB[..j];
      assert keysB[..j + 1] == keysB[..j] + [keysB[j]];
      if item.name == list[j].name {
        NamesAreUnique(k, keysB[j]);
        if item.data != list[j].data {
          hits := hits + 1;
        }
      }
    }
    assert keysB[..|list|] == keysB;
  }

  lemma DistinctConcat<T>(s: seq<T>, t: seq<T>)
    requires Distinct(s) && Distinct(t) && forall x :: x in s ==> x !in t
    ensures Distinct(s + t)
  {
    forall i, j | 0 <= i < j < |s + t|
      ensures (s + t)[i] != (s + t)[j]
    {
      if i < |s| <= j {
        assert s[i] in s && t[j - |s|] in t;
      }
    }
  }

  /** `touched` are exactly the items that were removed, added or changed. */
  ghost predicate ReportsDifferences(a: ConfText, b: ConfText, categories: seq<Category>, touched: seq<Key>) {
    && Reports(categories, touched)
    && forall k :: k in touched <==> ProperKey(k) && Differs(a, b, k)
  }

  /** The categories that `diff` reports: one for each item that differs, and no others. */
  ghost predicate IsDiff(a: ConfText, b: ConfText, categories: seq<Category>) {
    exists touched :: ReportsDifferences(a, b, categories, touched)
  }

  lemma AllDifferences(a: ConfText, b: ConfText, removed: seq<Category>, goneKeys: seq<Key>,
                       added: seq<Category>, newKeys: seq<Key>, changed: seq<Category>, changedKeys: seq<Key>)
    requires ReportsMissing(a, b, removed, goneKeys) && ReportsMissing(b, a, added, newKeys)
    requires ReportsChanged(a, b, changed, changedKeys)
    ensures ReportsDifferences(a, b, removed + added + changed, goneKeys + newKeys + changedKeys)
  {
    DistinctConcat(goneKeys, newKeys);
    DistinctConcat(goneKeys + newKeys, changedKeys);
  }

  function Touched(touched: seq<Key>, c: Category): set<Entry> {
    set k | k in touched && k.ItemKey? && k.entry.category == c :: k.entry
  }

  lemma TouchedHas(touched: seq<Key>, c: Category, e: Entry)
    ensures e in Touched(touched, c) <==> ItemKey(e) in touched && e.category == c
  {
    if e in Touched(touched, c) {
      var k :| k in touched && k.ItemKey? && k.entry.category == c && k.entry == e;
      assert k == ItemKey(e);
    }
    if ItemKey(e) in touched && e.category == c {
      assert ItemKey(e).entry == e;
    }
  }

  lemma TouchedSnoc(rest: seq<Key>, k: Key, c: Category)
    requires k !in rest
    ensures |Touched(rest + [k], c)| ==
            |Touched(rest, c)| + if k.ItemKey? && k.entry.category == c then 1 else 0
  {
    var more := if k.ItemKey? && k.entry.category == c then {k.entry} else {};
    forall e
      ensures e in Touched(rest + [k], c) <==> e in Touched(rest, c) + more
      ensures e in more ==> e !in Touched(rest, c)
    {
      TouchedHas(rest + [k], c, e);
      TouchedHas(rest, c, e);
    }
    assert Touched(rest + [k], c) == Touched(rest, c) + more;
  }

  lemma CategorySnoc(rest: seq<Key>, k: Key, c: Category)
    ensures multiset(Categories(rest + [k]))[c] == multiset(Categories(rest))[c] + if CategoryOf(k) == c then 1 else 0
  {
    assert Categories(rest + [k]) == Categories(rest) + [CategoryOf(k)];
  }

  lemma {:induction false} CategoryCount(touched: seq<Key>, c: Category)
    requires Distinct(touched) && forall i :: 0 <= i < |touched| ==> ProperKey(touched[i])
    ensures HoldsItems(c) ==> multiset(Categories(touched))[c] == |Touched(touched, c)|
    ensures multiset(Categories(touched))[Basic] == if BasicKey in touched then 1 else 0
  {
    if touched == [] {
      assert Touched(touched, c) == {} && Categories(touched) == [];
      assert multiset(Categories(touched)) == multiset{};
    } else {
      var rest, k := touched[..|touched| - 1], touched[|touched| - 1];
      CategoryCount(rest, c);
      assert touched == rest + [k] && k !in rest;
      CategorySnoc(rest, k, c);
      CategorySnoc(rest, k, Basic);
      TouchedSnoc(rest, k, c);
      assert ProperKey(k);
      assert BasicKey in touched <==> BasicKey in rest || k == BasicKey;
    }
  }

  lemma DiffCounts(a: ConfText, b: ConfText, categories: seq<Category>, c: Category)
    requires a.WellFormed() && b.WellFormed() && IsDiff(a, b, categories)
    ensures multiset(categories)[Basic] == if a.basic != b.basic then 1 else 0
    ensures HoldsItems(c) ==>
              multiset(categories)[c] ==
              |set e | e in a.items.Keys + b.items.Keys && e.category == c &&
                       (e !in a.items || e !in b.items || a.items[e] != b.items[e])|
  {
    var touched :| ReportsDifferences(a, b, categories, touched);
    CategoryCount(touched, c);
    assert Differs(a, b, BasicKey) <==> a.basic != b.basic;
    if HoldsItems(c) {
      var different := set e | e in a.items.Keys + b.items.Keys && e.category == c &&
                               (e !in a.items || e !in b.items || a.items[e] != b.items[e]);
      forall e
        ensures e in Touched(touched, c) <==> e in different
      {
        TouchedHas(touched, c, e);
        assert ItemKey(e) in touched <==> HoldsItems(e.category) && Differs(a, b, ItemKey(e));
      }
      assert Touched(touched, c) == different;
    }
  }

  /** Each category is reported as often as items of it were added, removed or changed. */
  method Diff(a: ConfText, b: ConfText) returns (categories: seq<Category>)
    requires a.WellFormed() && b.WellFormed()
    ensures IsDiff(a, b, categories)
    ensures multiset(categories)[Basic] == if a.basic != b.basic then 1 else 0
    ensures forall c :: HoldsItems(c) ==>
              multiset(categories)[c] ==
              |set e | e in a.items.Keys + b.items.Keys && e.category == c &&
                       (e !in a.items || e !in b.items || a.items[e] != b.items[e])|
  {
    var current := Descriptions(a);
    var renewed := Descriptions(b);
    var removed := Missing(a, current, b, renewed);
    var added := Missing(b, renewed, a, current);
    var changed := Changed(a, current, b, renewed);
    categories := removed + added + changed;
    ghost var goneKeys :| ReportsMissing(a, b, removed, goneKeys);
    ghost var newKeys :| ReportsMissing(b, a, added, newKeys);
    ghost var changedKeys :| ReportsChanged(a, b, changed, changedKeys);
    AllDifferences(a, b, removed, goneKeys, added, newKeys, changed, changedKeys);
    forall c
      ensures multiset(categories)[Basic] == if a.basic != b.basic then 1 else 0
      ensures HoldsItems(c) ==>
                multiset(categories)[c] ==
                |set e | e in a.items.Keys + b.items.Keys && e.category == c &&
                         (e !in a.items || e !in b.items || a.items[e] != b.items[e])|
    {
      DiffCounts(a, b, categories, c);
    }
  }

  // ---------------------------------------------------------------------------------------------
  // What follows for any answer of `Diff`
  // ---------------------------------------------------------------------------------------------

  /** Nothing is reported exactly when the two described texts are the same. */
  lemma EmptyDiff(a: ConfText, b: ConfText, categories: seq<Category>)
    requires a.WellFormed() && b.WellFormed() && IsDiff(a, b, categories)
    ensures categories == [] <==> a == b
  {
    var touched :| ReportsDifferences(a, b, categories, touched);
    if categories == [] {
      assert !Differs(a, b, BasicKey) by {
        assert BasicKey !in touched;
      }
      forall e: Entry | HoldsItems(e.category)
        ensures (e in a.items <==> e in b.items) && (e in a.items ==> a.items[e] == b.items[e])
      {
        assert ItemKey(e) !in touched;
      }
      assert a.items == b.items;
    } else {
      assert touched[0] in touched;
    }
  }

  lemma {:induction false} SameMembersSameBag<T>(s: seq<T>, t: seq<T>)
    requires Distinct(s) && Distinct(t) && forall x :: x in s <==> x in t
    ensures multiset(s) == multiset(t)
  {
    DistinctBag(s);
    DistinctBag(t);
    forall x
      ensures multiset(s)[x] == multiset(t)[x]
    {
      assert x in multiset(s) <==> x in s;
      assert x in multiset(t) <==> x in t;
    }
  }

  lemma {:induction false} DistinctBag<T>(s: seq<T>)
    requires Distinct(s)
    ensures forall x :: multiset(s)[x] <= 1
  {
    if s != [] {
      var rest, last := s[..|s| - 1], s[|s| - 1];
      DistinctBag(rest);
      assert s == rest + [last];
      assert last !in rest;
      assert last !in multiset(rest);
    }
  }

  lemma BagWithout<T>(t: seq<T>, i: nat)
    requires i < |t|
    ensures multiset(t) == multiset{t[i]} + multiset(t[..i] + t[i + 1..])
    ensures multiset(t[..i] + t[i + 1..]) == multiset(t) - multiset{t[i]}
  {
    assert t == t[..i] + [t[i]] + t[i + 1..];
  }

  lemma CategoriesWithout(t: seq<Key>, i: nat)
    requires i < |t|
    ensures multiset(Categories(t)) == multiset{CategoryOf(t[i])} + multiset(Categories(t[..i] + t[i + 1..]))
  {
    BagWithout(Categories(t), i);
    assert Categories(t)[..i] + Categories(t)[i + 1..] == Categories(t[..i] + t[i + 1..]);
  }

  lemma SharedMember<T>(s: seq<T>, t: seq<T>) returns (i: nat)
    requires s != [] && multiset(s) == multiset(t)
    ensures i < |t| && t[i] == s[0]
    ensures multiset(s[..0] + s[1..]) == multiset(t[..i] + t[i + 1..])
  {
    assert s[0] in multiset(t);
    i :| 0 <= i < |t| && t[i] == s[0];
    BagWithout(s, 0);
    BagWithout(t, i);
  }

  lemma {:induction false} CategoriesOfBag(s: seq<Key>, t: seq<Key>)
    requires multiset(s) == multiset(t)
    ensures multiset(Categories(s)) == multiset(Categories(t))
  {
    if s == [] {
      assert |multiset(t)| == 0;
    } else {
      var i := SharedMember(s, t);
      CategoriesOfBag(s[..0] + s[1..], t[..i] + t[i + 1..]);
      CategoriesWithout(s, 0);
      CategoriesWithout(t, i);
    }
  }

  /** Compared the other way round, the same categories are reported equally often. */
  lemma DiffIsSymmetric(a: ConfText, b: ConfText, there: seq<Category>, back: seq<Category>)
    requires IsDiff(a, b, there) && IsDiff(b, a, back)
    ensures multiset(there) == multiset(back)
  {
    var touchedThere :| ReportsDifferences(a, b, there, touchedThere);
    var touchedBack :| ReportsDifferences(b, a, back, touchedBack);
    forall k
      ensures k in touchedThere <==> k in touchedBack
    {
      assert Differs(a, b, k) <==> Differs(b, a, k);
    }
    SameMembersSameBag(touchedThere, touchedBack);
    CategoriesOfBag(touchedThere, touchedBack);
  }
}
