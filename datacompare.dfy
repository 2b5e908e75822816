/**
  DataCompare: two JSON or two XML documents are turned into dictionaries
  from names to values, and the dictionaries are compared entry by entry.
  The JSON and XML parsers are parameters; an XML document is an element
  tree, and the text form of a nested dictionary (its ToString) is a
  parameter too.
*/
module Compare {
  import opened Wrappers
  import opened Text

  /** The key comparer a dictionary was built with. */
  datatype KeyComparer = Ordinal | OrdinalIgnoreCase

  /** A dictionary value: null, a string, or a nested dictionary. */
  datatype Value = Null | Leaf(text: string) | Nested(dict: Dict)

  datatype Entry = Entry(key: string, value: Value)

  /** A Dictionary<string, object>: its comparer and its entries in enumeration order. */
  datatype Dict = Dict(comparer: KeyComparer, entries: seq<Entry>)

  /** An XML element: its local name, its text value, and its child elements. */
  datatype Element = Element(name: string, text: string, children: seq<Element>)

  /** What JsonSerializer.Deserialize gives: an exception, a null dictionary (the document `null`), or a dictionary. */
  datatype JsonOutcome = Malformed | NullDocument | Parsed(dict: Dict)

  // ---------------------------------------------------------------------------
  // Dictionaries

  predicate SameKey(c: KeyComparer, a: string, b: string) {
    match c
    case Ordinal => a == b
    case OrdinalIgnoreCase => EqualsIgnoreCase(a, b)
  }

  /** No two entries have keys the comparer treats as equal, as every Dictionary guarantees. */
  predicate Valid(d: Dict) {
    forall i, j :: 0 <= i < j < |d.entries| ==> !SameKey(d.comparer, d.entries[i].key, d.entries[j].key)
  }

  /** The position of the last entry whose key matches `k` under the comparer. */
  function Find(c: KeyComparer, entries: seq<Entry>, k: string): (r: Option<nat>)
    ensures r.Some? ==> r.value < |entries| && SameKey(c, entries[r.value].key, k)
    ensures r.Some? ==> forall j :: r.value < j < |entries| ==> !SameKey(c, entries[j].key, k)
    ensures r.None? <==> forall j :: 0 <= j < |entries| ==> !SameKey(c, entries[j].key, k)
  {
    if entries == [] then None
    else if SameKey(c, entries[|entries| - 1].key, k) then Some(|entries| - 1)
    else Find(c, entries[..|entries| - 1], k)
  }

  /** Dictionary.ContainsKey. */
  predicate ContainsKey(d: Dict, k: string) {
    Find(d.comparer, d.entries, k).Some?
  }

  /** The dictionary indexer's get. */
  function Get(d: Dict, k: string): Value
    requires ContainsKey(d, k)
  {
    d.entries[Find(d.comparer, d.entries, k).value].value
  }

  /** The dictionary indexer's set: an existing key keeps its place and its spelling and takes the new value; a new key goes at the end. */
  function Set(d: Dict, k: string, v: Value): Dict {
    match Find(d.comparer, d.entries, k)
    case Some(i) => Dict(d.comparer, d.entries[i := Entry(d.entries[i].key, v)])
    case None => Dict(d.comparer, d.entries + [Entry(k, v)])
  }

  /** In a valid dictionary, the entry an entry's own key finds is that entry. */
  lemma FindOwnKey(d: Dict, i: int)
    requires Valid(d) && 0 <= i < |d.entries|
    ensures Find(d.comparer, d.entries, d.entries[i].key) == Some(i)
  {
    assert SameKey(d.comparer, d.entries[i].key, d.entries[i].key);
  }

  /** Setting keeps a dictionary valid. */
  lemma SetValid(d: Dict, k: string, v: Value)
    requires Valid(d)
    ensures Valid(Set(d, k, v)) && Set(d, k, v).comparer == d.comparer
  {
    var s := Set(d, k, v);
    match Find(d.comparer, d.entries, k)
    case Some(i) =>
      forall a, b | 0 <= a < b < |s.entries| ensures !SameKey(s.comparer, s.entries[a].key, s.entries[b].key) {
        assert s.entries[a].key == d.entries[a].key && s.entries[b].key == d.entries[b].key;
      }
    case None =>
      forall a, b | 0 <= a < b < |s.entries| ensures !SameKey(s.comparer, s.entries[a].key, s.entries[b].key) {
        if b == |d.entries| {
          assert s.entries[b].key == k && s.entries[a] == d.entries[a];
        } else {
          assert s.entries[a] == d.entries[a] && s.entries[b] == d.entries[b];
        }
      }
  }

  /** After setting `k`, a key is present when it was or when it matches `k`, and it reads `v` exactly when it matches `k`. */
  lemma SetLookup(d: Dict, k: string, v: Value, q: string)
    requires Valid(d)
    ensures ContainsKey(Set(d, k, v), q) <==> ContainsKey(d, q) || SameKey(d.comparer, k, q)
    ensures SameKey(d.comparer, k, q) ==> Get(Set(d, k, v), q) == v
    ensures !SameKey(d.comparer, k, q) && ContainsKey(d, q) ==> Get(Set(d, k, v), q) == Get(d, q)
  {
    var s := Set(d, k, v);
    SetValid(d, k, v);
    var c := d.comparer;
    match Find(c, d.entries, k)
    case Some(i) =>
      assert |s.entries| == |d.entries|;
      forall j | 0 <= j < |s.entries| ensures s.entries[j].key == d.entries[j].key {
      }
      if SameKey(c, k, q) {
        assert SameKey(c, s.entries[i].key, q);
        FindOwnKey(s, i);
        assert Find(c, s.entries, q) == Find(c, s.entries, s.entries[i].key) by {
          FindSameKey(c, s.entries, q, s.entries[i].key);
        }
      } else if ContainsKey(d, q) {
        var j := Find(c, d.entries, q).value;
        assert j != i;
        FindOwnKey(d, j);
        FindOwnKey(s, j);
        FindSameKey(c, d.entries, q, d.entries[j].key);
        FindSameKey(c, s.entries, q, s.entries[j].key);
      } else {
        KeysUnchangedFind(c, d.entries, s.entries, q);
      }
    case None =>
      var n := |d.entries|;
      assert s.entries[n].key == k;
      if SameKey(c, k, q) {
        FindOwnKey(s, n);
        FindSameKey(c, s.entries, q, k);
      } else {
        assert s.entries[..n] == d.entries;
        assert Find(c, s.entries, q) == Find(c, d.entries, q);
      }
  }

  /** Keys the comparer treats alike find the same entry. */
  lemma {:induction false} FindSameKey(c: KeyComparer, entries: seq<Entry>, a: string, b: string)
    requires SameKey(c, a, b)
    ensures Find(c, entries, a) == Find(c, entries, b)
    decreases |entries|
  {
    if entries != [] {
      FindSameKey(c, entries[..|entries| - 1], a, b);
    }
  }

  /** Changing only values leaves every lookup's position as it was. */
  lemma {:induction false} KeysUnchangedFind(c: KeyComparer, xs: seq<Entry>, ys: seq<Entry>, q: string)
    requires |xs| == |ys| && forall j :: 0 <= j < |xs| ==> xs[j].key == ys[j].key
    ensures Find(c, xs, q) == Find(c, ys, q)
    decreases |xs|
  {
    if xs != [] {
      KeysUnchangedFind(c, xs[..|xs| - 1], ys[..|ys| - 1], q);
    }
  }

  // ---------------------------------------------------------------------------
  // CompareDictionaries

  /** `kv.Value?.ToString()?.Trim()`: null stays null; a nested dictionary shows as `render` gives it. */
  function Shown(v: Value, render: Dict -> string): Option<string> {
    match v
    case Null => None
    case Leaf(s) => Some(Trim(s))
    case Nested(d) => Some(Trim(render(d)))
  }

  /** string.Equals(a, b, StringComparison.OrdinalIgnoreCase), where two nulls are equal and a null equals nothing else. */
  predicate SameShown(a: Option<string>, b: Option<string>) {
    if a.None? || b.None? then a.None? && b.None? else EqualsIgnoreCase(a.value, b.value)
  }

  /** Entry `i` of `d1` has a key that `d2` holds, with a value that shows alike. */
  predicate EntryMatches(d1: Dict, d2: Dict, i: int, render: Dict -> string)
    requires 0 <= i < |d1.entries|
  {
    var e := d1.entries[i];
    ContainsKey(d2, e.key) && SameShown(Shown(e.value, render), Shown(Get(d2, e.key), render))
  }

  /** What CompareDictionaries decides: the counts agree and every entry of `d1` matches in `d2`. */
  predicate Matches(d1: Dict, d2: Dict, render: Dict -> string) {
    |d1.entries| == |d2.entries| && forall i :: 0 <= i < |d1.entries| ==> EntryMatches(d1, d2, i, render)
  }

  /** CompareDictionaries: false on different counts, then false at the first entry that is missing or differs. */
  method CompareDictionaries(d1: Dict, d2: Dict, render: Dict -> string) returns (equal: bool)
    ensures equal == Matches(d1, d2, render)
  {
    if |d1.entries| != |d2.entries| {
      return false;
    }
    var i := 0;
    while i < |d1.entries|
      invariant 0 <= i <= |d1.entries|
      invariant forall j :: 0 <= j < i ==> EntryMatches(d1, d2, j, render)
    {
      var kv := d1.entries[i];
      if !ContainsKey(d2, kv.key) {
        assert !EntryMatches(d1, d2, i, render);
        return false;
      }
      var v1 := Shown(kv.value, render);
      var v2 := Shown(Get(d2, kv.key), render);
      if !SameShown(v1, v2) {
        assert !EntryMatches(d1, d2, i, render);
        return false;
      }
      i := i + 1;
    }
    return true;
  }

  /** Dictionaries of different sizes never match. */
  lemma CountsDiffer(d1: Dict, d2: Dict, render: Dict -> string)
    requires |d1.entries| != |d2.entries|
    ensures !Matches(d1, d2, render)
  {
  }

  /** A key of `d1` that `d2` lacks makes the comparison fail. */
  lemma MissingKey(d1: Dict, d2: Dict, i: int, render: Dict -> string)
    requires 0 <= i < |d1.entries| && !ContainsKey(d2, d1.entries[i].key)
    ensures !Matches(d1, d2, render)
  {
    assert !EntryMatches(d1, d2, i, render);
  }

  /** A value that shows differently, ignoring case and surrounding white space, makes the comparison fail. */
  lemma DifferentValue(d1: Dict, d2: Dict, i: int, render: Dict -> string)
    requires 0 <= i < |d1.entries| && ContainsKey(d2, d1.entries[i].key)
    requires !SameShown(Shown(d1.entries[i].value, render), Shown(Get(d2, d1.entries[i].key), render))
    ensures !Matches(d1, d2, render)
  {
    assert !EntryMatches(d1, d2, i, render);
  }

  /** Leaf values compare by their trimmed text, ignoring ASCII case. */
  lemma LeavesCompareTrimmed(a: string, b: string, render: Dict -> string)
    ensures SameShown(Shown(Leaf(a), render), Shown(Leaf(b), render)) <==> Lower(Trim(a)) == Lower(Trim(b))
    ensures SameShown(Shown(Null, render), Shown(Leaf(b), render)) == false
  {
  }

  /** Every dictionary matches itself. */
  lemma MatchesReflexive(d: Dict, render: Dict -> string)
    requires Valid(d)
    ensures Matches(d, d, render)
  {
    forall i | 0 <= i < |d.entries| ensures EntryMatches(d, d, i, render) {
      FindOwnKey(d, i);
    }
  }

  // ---------------------------------------------------------------------------
  // XmlToDictionary

  /** XmlToDictionary: a case-insensitive dictionary filled child by child. */
  function XmlDict(e: Element): Dict
    decreases e, |e.children| + 1
  {
    ChildrenDict(e, |e.children|)
  }

  /** The dictionary after the first `n` children of `e`. */
  function ChildrenDict(e: Element, n: nat): Dict
    requires n <= |e.children|
    decreases e, n
  {
    if n == 0 then Dict(OrdinalIgnoreCase, [])
    else
      var child := e.children[n - 1];
      Set(ChildrenDict(e, n - 1), child.name, ChildValue(child))
  }

  /** A child without child elements gives its trimmed text; any other child gives its own dictionary. */
  function ChildValue(child: Element): Value
    decreases child, |child.children| + 2
  {
    if child.children == [] then Leaf(Trim(child.text)) else Nested(XmlDict(child))
  }

  /** The loop over the children, recursing into those that have children of their own. */
  method XmlToDictionary(e: Element) returns (d: Dict)
    ensures d == XmlDict(e)
    decreases e, 1
  {
    d := Dict(OrdinalIgnoreCase, []);
    for i := 0 to |e.children|
      invariant d == ChildrenDict(e, i)
    {
      d := AddChild(e, i, d);
    }
  }

  /** One turn of that loop: the child's trimmed text, or its own dictionary, stored under its name. */
  method AddChild(e: Element, i: nat, d: Dict) returns (r: Dict)
    requires i < |e.children|
    ensures r == Set(d, e.children[i].name, ChildValue(e.children[i]))
    decreases e, 0
  {
    var child := e.children[i];
    var value: Value;
    if child.children == [] {
      value := Leaf(Trim(child.text));
    } else {
      var nested := XmlToDictionary(child);
      value := Nested(nested);
    }
    r := Set(d, child.name, value);
  }

  /** The position of the last of the first `n` children whose name matches `k`, ignoring case. */
  function LastNamed(children: seq<Element>, n: nat, k: string): (r: Option<nat>)
    requires n <= |children|
    ensures r.Some? ==> r.value < n && EqualsIgnoreCase(children[r.value].name, k)
    ensures r.Some? ==> forall j :: r.value < j < n ==> !EqualsIgnoreCase(children[j].name, k)
    ensures r.None? <==> forall j :: 0 <= j < n ==> !EqualsIgnoreCase(children[j].name, k)
  {
    if n == 0 then None
    else if EqualsIgnoreCase(children[n - 1].name, k) then Some(n - 1)
    else LastNamed(children, n - 1, k)
  }

  /** What the first `n` children of `e` leave in the dictionary under the name `k`. */
  predicate LookupAfter(e: Element, n: nat, k: string)
    requires n <= |e.children|
  {
    var d := ChildrenDict(e, n);
    && d.comparer == OrdinalIgnoreCase && Valid(d)
    && (ContainsKey(d, k) <==> LastNamed(e.children, n, k).Some?)
    && (ContainsKey(d, k) ==> Get(d, k) == ChildValue(e.children[LastNamed(e.children, n, k).value]))
  }

  /**
    The dictionary of an element is valid and case-insensitive; it holds a
    name exactly when some child carries it in any case, and then the value
    of the last such child.
  */
  lemma {:induction false} ChildrenDictLookup(e: Element, n: nat, k: string)
    requires n <= |e.children|
    ensures LookupAfter(e, n, k)
    decreases n
  {
    if n == 0 {
      assert ChildrenDict(e, 0) == Dict(OrdinalIgnoreCase, []);
    } else {
      ChildrenDictLookup(e, n - 1, k);
      ChildrenDictStep(e, n, k);
    }
  }

  /** The inductive step of ChildrenDictLookup: one more child. */
  lemma ChildrenDictStep(e: Element, n: nat, k: string)
    requires 0 < n <= |e.children| && LookupAfter(e, n - 1, k)
    ensures LookupAfter(e, n, k)
  {
    var child := e.children[n - 1];
    var before := ChildrenDict(e, n - 1);
    assert ChildrenDict(e, n) == Set(before, child.name, ChildValue(child));
    SetLookup(before, child.name, ChildValue(child), k);
    SetValid(before, child.name, ChildValue(child));
    if EqualsIgnoreCase(child.name, k) {
      assert LastNamed(e.children, n, k) == Some(n - 1);
    } else {
      assert LastNamed(e.children, n, k) == LastNamed(e.children, n - 1, k);
    }
  }

  /** XmlToDictionary's result: case-insensitive keys, one per name, the last child of a name winning. */
  lemma XmlDictLookup(e: Element, k: string)
    ensures var d := XmlDict(e);
      && d.comparer == OrdinalIgnoreCase && Valid(d)
      && (ContainsKey(d, k) <==> exists j :: 0 <= j < |e.children| && EqualsIgnoreCase(e.children[j].name, k))
      && (ContainsKey(d, k) ==> Get(d, k) == ChildValue(e.children[LastNamed(e.children, |e.children|, k).value]))
  {
    ChildrenDictLookup(e, |e.children|, k);
  }

  // ---------------------------------------------------------------------------
  // CompareJson and CompareXml

  /** What CompareJson decides: false for a null argument, a parse exception or a null dictionary. */
  predicate JsonMatches(json1: Option<string>, json2: Option<string>, parse: string -> JsonOutcome, render: Dict -> string) {
    && json1.Some? && json2.Some?
    && parse(json1.value).Parsed? && parse(json2.value).Parsed?
    && Matches(parse(json1.value).dict, parse(json2.value).dict, render)
  }

  /**
    CompareJson. A null argument gives false; a parse exception is caught and
    gives false; a document that deserializes to a null dictionary makes the
    comparison throw, which is caught too.
  */
  method CompareJson(json1: Option<string>, json2: Option<string>, parse: string -> JsonOutcome, render: Dict -> string)
    returns (equal: bool)
    ensures equal == JsonMatches(json1, json2, parse, render)
    ensures json1.None? || json2.None? ==> !equal
  {
    if json1.None? || json2.None? {
      return false;
    }
    var dict1 := parse(json1.value);
    var dict2 := parse(json2.value);
    if dict1.Malformed? || dict2.Malformed? {
      return false;
    }
    if dict1.NullDocument? || dict2.NullDocument? {
      return false;
    }
    equal := CompareDictionaries(dict1.dict, dict2.dict, render);
  }

  /** What CompareXml decides: false for a null argument or a parse exception. */
  predicate XmlMatches(xml1: Option<string>, xml2: Option<string>, parse: string -> Option<Element>, render: Dict -> string) {
    && xml1.Some? && xml2.Some?
    && parse(xml1.value).Some? && parse(xml2.value).Some?
    && Matches(XmlDict(parse(xml1.value).value), XmlDict(parse(xml2.value).value), render)
  }

  /** CompareXml: both documents' root elements turned into dictionaries and compared. */
  method CompareXml(xml1: Option<string>, xml2: Option<string>, parse: string -> Option<Element>, render: Dict -> string)
    returns (equal: bool)
    ensures equal == XmlMatches(xml1, xml2, parse, render)
    ensures xml1.None? || xml2.None? ==> !equal
  {
    if xml1.None? || xml2.None? {
      return false;
    }
    var root1 := parse(xml1.value);
    var root2 := parse(xml2.value);
    if root1.None? || root2.None? {
      return false;
    }
    var dict1 := XmlToDictionary(root1.value);
    var dict2 := XmlToDictionary(root2.value);
    equal := CompareDictionaries(dict1, dict2, render);
  }

  /** A JSON document that parses to a dictionary compares equal to itself. */
  lemma JsonReflexive(json: string, parse: string -> JsonOutcome, render: Dict -> string)
    requires parse(json).Parsed? && Valid(parse(json).dict)
    ensures JsonMatches(Some(json), Some(json), parse, render)
  {
    MatchesReflexive(parse(json).dict, render);
  }

  /** An XML document that parses compares equal to itself. */
  lemma XmlReflexive(xml: string, parse: string -> Option<Element>, render: Dict -> string)
    requires parse(xml).Some?
    ensures XmlMatches(Some(xml), Some(xml), parse, render)
  {
    var root := parse(xml).value;
    ChildrenDictLookup(root, |root.children|, "");
    MatchesReflexive(XmlDict(root), render);
  }

  /**
    When every nested dictionary shows the same text (a Dictionary's
    ToString is its type name), two roots whose only child has the same name
    and children of its own compare equal, whatever those children hold.
  */
  lemma NestedContentsUnseen(root1: Element, root2: Element, render: Dict -> string)
    requires |root1.children| == 1 && |root2.children| == 1
    requires root1.children[0].name == root2.children[0].name
    requires root1.children[0].children != [] && root2.children[0].children != []
    requires forall a: Dict, b: Dict :: render(a) == render(b)
    ensures Matches(XmlDict(root1), XmlDict(root2), render)
  {
    var k := root1.children[0].name;
    var d1 := XmlDict(root1);
    var d2 := XmlDict(root2);
    assert EqualsIgnoreCase(k, k);
    OnlyChild(root1);
    OnlyChild(root2);
    assert d2.entries[0].key == k;
    assert EntryMatches(d1, d2, 0, render);
  }

  /** The dictionary of an element with one child holds one entry, for that child. */
  lemma OnlyChild(root: Element)
    requires |root.children| == 1
    ensures XmlDict(root).entries == [Entry(root.children[0].name, ChildValue(root.children[0]))]
  {
    assert ChildrenDict(root, 0) == Dict(OrdinalIgnoreCase, []);
  }
}
