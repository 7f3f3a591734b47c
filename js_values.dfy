/**
 * JSON-like values and JavaScript objects whose key order matters. A stored record (the user kept
 * in local storage) is a `map`; an object whose entries are listed in order (a permissions object
 * read with `Object.entries`) is a sequence of entries with distinct keys.
 */
module JsValues {
  import opened Wrappers
  import Sequences
  import Sorting

  datatype Json = JString(s: string) | JNumber(n: real) | JBool(b: bool) | JNull

  /** JavaScript truthiness (NaN, which is also falsy, is not a value here) */
  predicate Truthy(v: Json) {
    match v
    case JString(s) => s != ""
    case JNumber(n) => n != 0.0
    case JBool(b) => b
    case JNull => false
  }

  datatype Entry = Entry(key: string, value: Json)

  /** an object: no key occurs twice */
  ghost predicate UniqueKeys(entries: seq<Entry>) {
    forall i, j :: 0 <= i < j < |entries| ==> entries[i].key != entries[j].key
  }

  /** `obj[key]`, None when the key is absent (`undefined`) */
  function Lookup(entries: seq<Entry>, key: string): Option<Json> {
    if entries == [] then None
    else if entries[0].key == key then Some(entries[0].value)
    else Lookup(entries[1..], key)
  }

  function Keys(entries: seq<Entry>): set<string> {
    set e | e in entries :: e.key
  }

  /**
   * `{ ...obj, [key]: value }`: an existing key keeps its position and takes the new value; a new
   * key is appended after the others.
   */
  function Assign(entries: seq<Entry>, key: string, value: Json): (r: seq<Entry>)
    ensures |r| == if key in Keys(entries) then |entries| else |entries| + 1
  {
    if entries == [] then [Entry(key, value)]
    else if entries[0].key == key then [Entry(key, value)] + entries[1..]
    else
      assert key in Keys(entries) <==> key in Keys(entries[1..]) by {
        assert entries == [entries[0]] + entries[1..];
      }
      [entries[0]] + Assign(entries[1..], key, value)
  }

  lemma {:induction false} KeysCons(e: Entry, rest: seq<Entry>)
    ensures Keys([e] + rest) == {e.key} + Keys(rest)
  {
    var s := [e] + rest;
    forall k | k in Keys(s) ensures k in {e.key} + Keys(rest) {
      var x :| x in s && x.key == k;
      if x != e { assert x in rest; }
    }
    forall k | k in Keys(rest) ensures k in Keys(s) {
      var x :| x in rest && x.key == k;
      assert x in s;
    }
  }

  /** the first entry's key does not occur again in an object */
  lemma HeadKeyNotInTail(entries: seq<Entry>)
    requires entries != [] && UniqueKeys(entries)
    ensures entries[0].key !in Keys(entries[1..])
  {
    forall x | x in entries[1..]
      ensures x.key != entries[0].key
    {
      var j :| 0 <= j < |entries[1..]| && entries[1..][j] == x;
      assert entries[j + 1] == x;
    }
  }

  /** Assigning one key sets that key and leaves every other key's value alone. */
  lemma {:induction false} AssignLookup(entries: seq<Entry>, key: string, value: Json)
    ensures Lookup(Assign(entries, key, value), key) == Some(value)
    ensures forall k :: k != key ==> Lookup(Assign(entries, key, value), k) == Lookup(entries, k)
  {
    if entries != [] && entries[0].key != key {
      AssignLookup(entries[1..], key, value);
    }
  }

  /** Assigning adds exactly the assigned key to the key set and keeps keys distinct. */
  lemma AssignKeys(entries: seq<Entry>, key: string, value: Json)
    requires UniqueKeys(entries)
    ensures Keys(Assign(entries, key, value)) == Keys(entries) + {key}
    ensures UniqueKeys(Assign(entries, key, value))
  {
    AssignKeySet(entries, key, value);
    AssignUnique(entries, key, value);
  }

  lemma {:induction false} AssignKeySet(entries: seq<Entry>, key: string, value: Json)
    ensures Keys(Assign(entries, key, value)) == Keys(entries) + {key}
  {
    if entries == [] {
      KeysCons(Entry(key, value), []);
    } else {
      assert entries == [entries[0]] + entries[1..];
      KeysCons(entries[0], entries[1..]);
      if entries[0].key == key {
        KeysCons(Entry(key, value), entries[1..]);
      } else {
        AssignKeySet(entries[1..], key, value);
        KeysCons(entries[0], Assign(entries[1..], key, value));
      }
    }
  }

  lemma {:induction false} AssignUnique(entries: seq<Entry>, key: string, value: Json)
    requires UniqueKeys(entries)
    ensures UniqueKeys(Assign(entries, key, value))
  {
    if entries != [] {
      HeadKeyNotInTail(entries);
      var rest := entries[1..];
      assert UniqueKeys(rest) by {
        forall i, j | 0 <= i < j < |rest|
          ensures rest[i].key != rest[j].key
        {
          assert rest[i] == entries[i + 1] && rest[j] == entries[j + 1];
        }
      }
      if entries[0].key == key {
        UniqueCons(Entry(key, value), rest);
      } else {
        AssignUnique(rest, key, value);
        AssignKeySet(rest, key, value);
        UniqueCons(entries[0], Assign(rest, key, value));
      }
    }
  }

  /** an entry whose key the object lacks can be put in front of it */
  lemma UniqueCons(e: Entry, rest: seq<Entry>)
    requires UniqueKeys(rest) && e.key !in Keys(rest)
    ensures UniqueKeys([e] + rest)
  {
    forall j | 0 <= j < |rest|
      ensures rest[j].key != e.key
    {
      assert rest[j] in rest;
    }
  }

  // ---------------------------------------------------------------------------------------------
  // Property order

  function DigitValue(c: char): nat {
    if '0' <= c <= '9' then c as int - '0' as int else 0
  }

  /** the number a string of decimal digits denotes */
  function DigitsValue(k: string): nat {
    if k == [] then 0 else DigitsValue(k[..|k| - 1]) * 10 + DigitValue(k[|k| - 1])
  }

  /**
   * A key an object treats as an array index: the canonical decimal form ("0", or digits without a
   * leading zero) of an integer from 0 to 2^32 - 2.
   */
  predicate IsArrayIndex(k: string) {
    && |k| > 0
    && (forall i :: 0 <= i < |k| ==> '0' <= k[i] <= '9')
    && (k[0] != '0' || |k| == 1)
    && DigitsValue(k) <= 0xFFFF_FFFE
  }

  predicate IsNamedKey(k: string) {
    !IsArrayIndex(k)
  }

  /** array indexes in ascending numeric order */
  predicate IndexLe(a: string, b: string) {
    DigitsValue(a) <= DigitsValue(b)
  }

  lemma IndexLeIsPreorder()
    ensures Sorting.TotalPreorder(IndexLe)
  {
  }

  /**
   * The order in which `Object.keys` and `Object.entries` list an object's own string keys, given
   * the order in which the keys were created: the array-index keys first, in ascending numeric
   * order, then the other keys in creation order.
   */
  function PropertyOrder(created: seq<string>): (r: seq<string>)
    ensures multiset(r) == multiset(created)
  {
    Sequences.FilterSplit(created, IsArrayIndex, IsNamedKey);
    Sorting.Sort(Sequences.Filter(created, IsArrayIndex), IndexLe) + Sequences.Filter(created, IsNamedKey)
  }

  /**
   * The listing holds the created keys, each as often as it was created; the first `n` of them,
   * where `n` is the number of array-index keys, are those keys in ascending numeric order; the
   * rest are the other keys in creation order; and keys that were created once are listed once.
   */
  lemma PropertyOrderFacts(created: seq<string>)
    ensures var r := PropertyOrder(created);
            |r| == |created| && forall k :: k in r <==> k in created
    ensures var r := PropertyOrder(created);
            var n := |Sequences.Filter(created, IsArrayIndex)|;
            && n <= |r|
            && (forall i :: 0 <= i < n ==> IsArrayIndex(r[i]))
            && (forall i, j :: 0 <= i < j < n ==> DigitsValue(r[i]) <= DigitsValue(r[j]))
            && r[n..] == Sequences.Filter(created, IsNamedKey)
    ensures Sequences.Distinct(created) ==> Sequences.Distinct(PropertyOrder(created))
  {
    var r := PropertyOrder(created);
    var indexes := Sequences.Filter(created, IsArrayIndex);
    var named := Sequences.Filter(created, IsNamedKey);
    var sorted := Sorting.Sort(indexes, IndexLe);
    assert r == sorted + named;
    PropertyOrderMembers(created);
    Sequences.FilterContents(created, IsArrayIndex);
    Sequences.FilterContents(created, IsNamedKey);
    IndexLeIsPreorder();
    Sorting.SortSorted(indexes, IndexLe);
    Sorting.SortSameMembers(indexes, IndexLe);
    forall i | 0 <= i < |sorted|
      ensures IsArrayIndex(r[i])
    {
      assert r[i] == sorted[i] && sorted[i] in sorted;
    }
    forall i, j | 0 <= i < j < |sorted|
      ensures DigitsValue(r[i]) <= DigitsValue(r[j])
    {
      assert r[i] == sorted[i] && r[j] == sorted[j];
      assert IndexLe(sorted[i], sorted[j]);
    }
    assert r[|sorted|..] == named;
    if Sequences.Distinct(created) {
      DistinctListing(created);
    }
  }

  /** the listing holds exactly the created keys */
  lemma PropertyOrderMembers(created: seq<string>)
    ensures |PropertyOrder(created)| == |created|
    ensures forall k :: k in PropertyOrder(created) <==> k in created
  {
    var r := PropertyOrder(created);
    assert |multiset(r)| == |multiset(created)|;
    forall k
      ensures k in r <==> k in created
    {
      assert k in r <==> k in multiset(r);
      assert k in created <==> k in multiset(created);
    }
  }

  function KeyItself(k: string): string {
    k
  }

  /** keys created once each are listed once each */
  lemma DistinctListing(created: seq<string>)
    requires Sequences.Distinct(created)
    ensures Sequences.Distinct(PropertyOrder(created))
  {
    var indexes := Sequences.Filter(created, IsArrayIndex);
    var named := Sequences.Filter(created, IsNamedKey);
    var sorted := Sorting.Sort(indexes, IndexLe);
    var r := PropertyOrder(created);
    assert r == sorted + named;
    Sequences.FilterDistinct(created, IsArrayIndex);
    Sequences.FilterDistinct(created, IsNamedKey);
    Sequences.FilterContents(created, IsArrayIndex);
    Sequences.FilterContents(created, IsNamedKey);
    assert Sorting.DistinctKeys(indexes, KeyItself);
    Sorting.SortKeepsKeysDistinct(indexes, IndexLe, KeyItself);
    Sorting.SortSameMembers(indexes, IndexLe);
    forall i, j | 0 <= i < j < |r|
      ensures r[i] != r[j]
    {
      if j < |sorted| {
        assert r[i] == sorted[i] && r[j] == sorted[j];
        assert KeyItself(sorted[i]) != KeyItself(sorted[j]);
      } else if i >= |sorted| {
        assert r[i] == named[i - |sorted|] && r[j] == named[j - |sorted|];
      } else {
        assert r[i] == sorted[i] && sorted[i] in sorted;
        assert r[j] == named[j - |sorted|] && named[j - |sorted|] in named;
      }
    }
  }

  /** A year used as a category name is listed before the names, and "07" is not an index. */
  lemma PropertyOrderExample()
    ensures PropertyOrder(["Rent", "2024", "07", "5"]) == ["5", "2024", "Rent", "07"]
  {
    var created := ["Rent", "2024", "07", "5"];
    ExampleKeys();
    ExampleFilters();
    assert Sorting.Sort(["5"], IndexLe) == ["5"];
    assert Sorting.Insert("2024", ["5"], IndexLe) == ["5", "2024"];
    var sorted := Sorting.Sort(["2024", "5"], IndexLe);
    assert ["2024", "5"][1..] == ["5"];
    assert sorted == ["5", "2024"];
    assert PropertyOrder(created) == ["5", "2024"] + ["Rent", "07"];
  }

  lemma ExampleKeys()
    ensures IsArrayIndex("2024") && IsArrayIndex("5") && !IsArrayIndex("Rent") && !IsArrayIndex("07")
    ensures !IndexLe("2024", "5")
  {
    assert "2024"[..3] == "202" && "202"[..2] == "20" && "20"[..1] == "2" && "2"[..0] == [];
    assert DigitsValue("2024") == 2024;
    assert "5"[..0] == [] && DigitsValue("5") == 5;
  }

  lemma ExampleFilters()
    requires IsArrayIndex("2024") && IsArrayIndex("5") && !IsArrayIndex("Rent") && !IsArrayIndex("07")
    ensures Sequences.Filter(["Rent", "2024", "07", "5"], IsArrayIndex) == ["2024", "5"]
    ensures Sequences.Filter(["Rent", "2024", "07", "5"], IsNamedKey) == ["Rent", "07"]
  {
    var created := ["Rent", "2024", "07", "5"];
    assert created[1..][1..][1..] == ["5"] && created[1..][1..] == ["07", "5"] && created[1..] == ["2024", "07", "5"];
    assert Sequences.Filter(["5"], IsArrayIndex) == ["5"];
    assert Sequences.Filter(["5"], IsNamedKey) == [];
  }
}
