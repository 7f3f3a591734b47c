/**
 * Grouping a list into a dictionary of sums, the way the dashboard's `reduce`/`forEach` builders do:
 * each element adds its value to the entry of its key, creating the entry at 0 the first time the
 * key is met. `Order` records the order in which the keys were created; `Object.entries` re-lists
 * that order by `JsValues.PropertyOrder`, array-index keys first.
 */
module Grouping {
  import Sequences

  /** the values of the elements, in order */
  function Values<T>(s: seq<T>, val: T -> real): (r: seq<real>)
    ensures |r| == |s|
    ensures forall i :: 0 <= i < |r| ==> r[i] == val(s[i])
  {
    seq(|s|, i requires 0 <= i < |s| => val(s[i]))
  }

  /** the keys some element carries */
  ghost function KeysOf<T, K>(s: seq<T>, key: T -> K): set<K> {
    set x | x in s :: key(x)
  }

  /** the sum of the values of the elements carrying key k */
  function GroupTotal<T, K(==)>(s: seq<T>, key: T -> K, val: T -> real, k: K): real {
    Sequences.Sum(Values(Sequences.Filter(s, (x: T) => key(x) == k), val))
  }

  /** the dictionary after the given elements: `acc[key] = (acc[key] || 0) + value` for each */
  function Totals<T, K>(s: seq<T>, key: T -> K, val: T -> real): map<K, real> {
    if s == [] then map[]
    else
      var acc := Totals(s[..|s| - 1], key, val);
      var x := s[|s| - 1];
      var k := key(x);
      acc[k := (if k in acc then acc[k] else 0.0) + val(x)]
  }

  /** the order in which the keys were first written */
  function Order<T, K(==)>(s: seq<T>, key: T -> K): seq<K> {
    if s == [] then []
    else
      var order := Order(s[..|s| - 1], key);
      var k := key(s[|s| - 1]);
      if k in order then order else order + [k]
  }

  /** appending an element adds its key to the order when the key is new */
  lemma OrderSnoc<T, K>(init: seq<T>, x: T, key: T -> K)
    ensures Order(init + [x], key)
            == if key(x) in Order(init, key) then Order(init, key) else Order(init, key) + [key(x)]
  {
    var s := init + [x];
    assert s[..|s| - 1] == init;
  }

  lemma GroupTotalAppend<T, K>(s: seq<T>, x: T, key: T -> K, val: T -> real, k: K)
    ensures GroupTotal(s + [x], key, val, k) == GroupTotal(s, key, val, k) + (if key(x) == k then val(x) else 0.0)
  {
    var p := (y: T) => key(y) == k;
    Sequences.FilterAppend(s, [x], p);
    var tail := Sequences.Filter([x], p);
    assert tail == if p(x) then [x] else [];
    assert Values(Sequences.Filter(s, p) + tail, val) == Values(Sequences.Filter(s, p), val) + Values(tail, val);
    Sequences.SumAppend(Values(Sequences.Filter(s, p), val), Values(tail, val));
    assert Sequences.Sum(Values(tail, val)) == if p(x) then val(x) else 0.0 by {
      if p(x) {
        assert Values(tail, val) == [val(x)];
        assert Values(tail, val)[..0] == [];
      }
    }
  }

  lemma KeysOfAppend<T, K>(s: seq<T>, x: T, key: T -> K)
    ensures KeysOf(s + [x], key) == KeysOf(s, key) + {key(x)}
  {
    var t := s + [x];
    forall k | k in KeysOf(t, key)
      ensures k in KeysOf(s, key) + {key(x)}
    {
      var y :| y in t && key(y) == k;
      if y != x {
        assert y in s;
      }
    }
    forall k | k in KeysOf(s, key)
      ensures k in KeysOf(t, key)
    {
      var y :| y in s && key(y) == k;
      assert y in t;
    }
    assert x in t;
  }

  /** a key no element carries sums to 0 */
  lemma {:induction false} AbsentKeyTotal<T, K>(s: seq<T>, key: T -> K, val: T -> real, k: K)
    requires forall x :: x in s ==> key(x) != k
    ensures GroupTotal(s, key, val, k) == 0.0
  {
    if s != [] {
      assert s[0] in s;
      forall x | x in s[1..]
        ensures key(x) != k
      {
        assert x in s;
      }
      AbsentKeyTotal(s[1..], key, val, k);
    }
  }

  lemma {:induction false} TotalsKeyIsOrder<T, K>(s: seq<T>, key: T -> K, val: T -> real, k: K)
    ensures k in Totals(s, key, val) <==> k in Order(s, key)
  {
    if s != [] {
      TotalsKeyIsOrder(s[..|s| - 1], key, val, k);
    }
  }

  /** The dictionary's keys are exactly the keys in the first-write order. */
  lemma TotalsKeysAreOrder<T, K>(s: seq<T>, key: T -> K, val: T -> real)
    ensures forall k :: k in Totals(s, key, val) <==> k in Order(s, key)
  {
    forall k
      ensures k in Totals(s, key, val) <==> k in Order(s, key)
    {
      TotalsKeyIsOrder(s, key, val, k);
    }
  }

  /** The first-write order never lists a key twice. */
  lemma {:induction false} OrderDistinct<T, K>(s: seq<T>, key: T -> K)
    ensures forall i, j :: 0 <= i < j < |Order(s, key)| ==> Order(s, key)[i] != Order(s, key)[j]
  {
    if s != [] {
      OrderDistinct(s[..|s| - 1], key);
    }
  }

  /** The first-write order lists the keys some element carries, and nothing else. */
  lemma {:induction false} OrderIsKeys<T, K>(s: seq<T>, key: T -> K)
    ensures forall k :: k in Order(s, key) <==> k in KeysOf(s, key)
  {
    if s == [] {
      assert KeysOf(s, key) == {};
    } else {
      var init := s[..|s| - 1];
      var x := s[|s| - 1];
      assert s == init + [x];
      OrderIsKeys(init, key);
      KeysOfAppend(init, x, key);
    }
  }

  /** The dictionary has an entry for key k exactly when some element carries k, holding the sum of their values. */
  lemma {:induction false} TotalsGroupSumAt<T, K>(s: seq<T>, key: T -> K, val: T -> real, k: K)
    ensures k in Totals(s, key, val) <==> k in KeysOf(s, key)
    ensures k in Totals(s, key, val) ==> Totals(s, key, val)[k] == GroupTotal(s, key, val, k)
  {
    if s == [] {
      assert KeysOf(s, key) == {};
    } else {
      var init := s[..|s| - 1];
      var x := s[|s| - 1];
      assert s == init + [x];
      TotalsGroupSumAt(init, key, val, k);
      KeysOfAppend(init, x, key);
      GroupTotalAppend(init, x, key, val, k);
      if k == key(x) && k !in Totals(init, key, val) {
        forall y | y in init
          ensures key(y) != k
        {
          assert key(y) in KeysOf(init, key);
        }
        AbsentKeyTotal(init, key, val, k);
      }
    }
  }

  /** The dictionary has an entry for exactly the keys some element carries, holding the sum of their values. */
  lemma TotalsAreGroupSums<T, K>(s: seq<T>, key: T -> K, val: T -> real)
    ensures forall k :: k in Totals(s, key, val) <==> k in KeysOf(s, key)
    ensures forall k :: k in Totals(s, key, val) ==> Totals(s, key, val)[k] == GroupTotal(s, key, val, k)
  {
    forall k
      ensures k in Totals(s, key, val) <==> k in KeysOf(s, key)
    {
      TotalsGroupSumAt(s, key, val, k);
    }
    forall k | k in Totals(s, key, val)
      ensures Totals(s, key, val)[k] == GroupTotal(s, key, val, k)
    {
      TotalsGroupSumAt(s, key, val, k);
    }
  }

  /** `Σ acc[k]` over the listed keys */
  function SumOver<K>(keys: seq<K>, acc: map<K, real>): real
    requires forall k :: k in keys ==> k in acc
  {
    if keys == [] then 0.0 else SumOver(keys[..|keys| - 1], acc) + acc[keys[|keys| - 1]]
  }

  lemma {:induction false} SumOverOther<K>(keys: seq<K>, acc: map<K, real>, k: K, v: real)
    requires forall x :: x in keys ==> x in acc
    requires k !in keys
    ensures SumOver(keys, acc[k := v]) == SumOver(keys, acc)
  {
    if keys != [] {
      SumOverOther(keys[..|keys| - 1], acc, k, v);
      assert keys[|keys| - 1] in keys;
    }
  }

  lemma {:induction false} SumOverRaise<K>(keys: seq<K>, acc: map<K, real>, k: K, d: real)
    requires forall x :: x in keys ==> x in acc
    requires forall i, j :: 0 <= i < j < |keys| ==> keys[i] != keys[j]
    requires k in keys
    ensures SumOver(keys, acc[k := acc[k] + d]) == SumOver(keys, acc) + d
  {
    var init := keys[..|keys| - 1];
    var last := keys[|keys| - 1];
    if last == k {
      assert k !in init by {
        forall i | 0 <= i < |init|
          ensures init[i] != k
        {
          assert init[i] == keys[i];
        }
      }
      SumOverOther(init, acc, k, acc[k] + d);
    } else {
      assert k in init by {
        var i :| 0 <= i < |keys| && keys[i] == k;
        assert init[i] == k;
      }
      SumOverRaise(init, acc, k, d);
    }
  }

  lemma SumOverSnoc<K>(keys: seq<K>, acc: map<K, real>, k: K)
    requires forall x :: x in keys ==> x in acc
    requires k in acc
    ensures SumOver(keys + [k], acc) == SumOver(keys, acc) + acc[k]
  {
    assert (keys + [k])[..|keys|] == keys;
  }

  lemma ValuesSnoc<T>(s: seq<T>, x: T, val: T -> real)
    ensures Sequences.Sum(Values(s + [x], val)) == Sequences.Sum(Values(s, val)) + val(x)
  {
    assert Values(s + [x], val)[..|s|] == Values(s, val);
  }

  /** a key already met: its entry grows by the new value */
  lemma AddUpOld<T, K>(init: seq<T>, x: T, key: T -> K, val: T -> real)
    requires key(x) in Order(init, key)
    requires forall k :: k in Order(init, key) ==> k in Totals(init, key, val)
    requires SumOver(Order(init, key), Totals(init, key, val)) == Sequences.Sum(Values(init, val))
    ensures SumOver(Order(init + [x], key), Totals(init + [x], key, val)) == Sequences.Sum(Values(init + [x], val))
  {
    var acc := Totals(init, key, val);
    OrderDistinct(init, key);
    ValuesSnoc(init, x, val);
    SnocSeenKey(init, x, key, val);
    SumOverRaise(Order(init, key), acc, key(x), val(x));
  }

  /** appending an element whose key was already met adds its value to that key's total */
  lemma SnocSeenKey<T, K>(init: seq<T>, x: T, key: T -> K, val: T -> real)
    requires key(x) in Order(init, key) && key(x) in Totals(init, key, val)
    ensures Order(init + [x], key) == Order(init, key)
    ensures Totals(init + [x], key, val)
            == Totals(init, key, val)[key(x) := Totals(init, key, val)[key(x)] + val(x)]
  {
    var s := init + [x];
    assert s[..|s| - 1] == init;
  }

  /** a new key: its entry is appended, holding the new value */
  lemma AddUpNew<T, K>(init: seq<T>, x: T, key: T -> K, val: T -> real)
    requires key(x) !in Order(init, key)
    requires forall k :: k in Order(init, key) ==> k in Totals(init, key, val)
    requires SumOver(Order(init, key), Totals(init, key, val)) == Sequences.Sum(Values(init, val))
    ensures SumOver(Order(init + [x], key), Totals(init + [x], key, val)) == Sequences.Sum(Values(init + [x], val))
  {
    var s := init + [x];
    assert s[..|s| - 1] == init;
    var k := key(x);
    var order := Order(init, key);
    var acc := Totals(init, key, val);
    TotalsKeysAreOrder(init, key, val);
    ValuesSnoc(init, x, val);
    assert k !in order;
    TotalsKeyIsOrder(init, key, val, k);
    assert k !in acc;
    assert s[|s| - 1] == x;
    assert Totals(s, key, val) == acc[k := val(x)];
    assert Order(s, key) == order + [k];
    SumOverOther(order, acc, k, val(x));
    SumOverSnoc(order, acc[k := val(x)], k);
  }

  /** The entries of the dictionary, in key order, add up to the sum of all the values. */
  lemma {:induction false} TotalsAddUp<T, K>(s: seq<T>, key: T -> K, val: T -> real)
    ensures forall k :: k in Order(s, key) ==> k in Totals(s, key, val)
    ensures SumOver(Order(s, key), Totals(s, key, val)) == Sequences.Sum(Values(s, val))
  {
    TotalsKeysAreOrder(s, key, val);
    if s != [] {
      var init := s[..|s| - 1];
      var x := s[|s| - 1];
      assert s == init + [x];
      TotalsAddUp(init, key, val);
      if key(x) in Order(init, key) {
        AddUpOld(init, x, key, val);
      } else {
        AddUpNew(init, x, key, val);
      }
    }
  }
}
