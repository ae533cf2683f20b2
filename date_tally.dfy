/** The dictionary loop both dashboard charts are built from:
    `items.forEach((x) => { byKey[key(x)] = (byKey[key(x)] || 0) + weight(x); })`,
    with the keys kept in the order `Object.keys` gives them (first assignment first). */
module DateTally {

  /** The keys in order of first appearance. */
  function KeysOf<T>(items: seq<T>, key: T -> string): seq<string>
    decreases |items|
  {
    if items == [] then []
    else
      var ks := KeysOf(items[..|items| - 1], key);
      var k := key(items[|items| - 1]);
      if k in ks then ks else ks + [k]
  }

  /** The dictionary after the loop has run over `items`. */
  function TallyMap<T>(items: seq<T>, key: T -> string, weight: T -> int): map<string, int>
    decreases |items|
  {
    if items == [] then map[]
    else
      var m := TallyMap(items[..|items| - 1], key, weight);
      var k := key(items[|items| - 1]);
      m[k := (if k in m then m[k] else 0) + weight(items[|items| - 1])]
  }

  /** The total weight of the items with key `d`. */
  function SumFor<T>(items: seq<T>, key: T -> string, weight: T -> int, d: string): int
    decreases |items|
  {
    if items == [] then 0
    else SumFor(items[..|items| - 1], key, weight, d)
         + (if key(items[|items| - 1]) == d then weight(items[|items| - 1]) else 0)
  }

  /** The total weight of all items. */
  function Total<T>(items: seq<T>, weight: T -> int): int
    decreases |items|
  {
    if items == [] then 0 else weight(items[0]) + Total(items[1..], weight)
  }

  lemma {:induction false} TotalSnoc<T>(items: seq<T>, x: T, weight: T -> int)
    ensures Total(items + [x], weight) == Total(items, weight) + weight(x)
    decreases |items|
  {
    if items == [] {
      assert [] + [x] == [x];
    } else {
      assert (items + [x])[1..] == items[1..] + [x];
      TotalSnoc(items[1..], x, weight);
    }
  }

  /** The sum of the dictionary's values, taken over `keys` (`Object.values(m)` summed). */
  function SumOver(keys: seq<string>, m: map<string, int>): int
    requires forall k | k in keys :: k in m
    decreases |keys|
  {
    if keys == [] then 0 else SumOver(keys[..|keys| - 1], m) + m[keys[|keys| - 1]]
  }

  predicate Distinct(keys: seq<string>) {
    forall i, j | 0 <= i < j < |keys| :: keys[i] != keys[j]
  }

  /** The loop itself: returns the keys in `Object.keys` order and the dictionary. */
  method Tally<T>(items: seq<T>, key: T -> string, weight: T -> int)
    returns (keys: seq<string>, totals: map<string, int>)
    ensures keys == KeysOf(items, key)
    ensures totals == TallyMap(items, key, weight)
  {
    keys, totals := [], map[];
    for i := 0 to |items|
      invariant keys == KeysOf(items[..i], key)
      invariant totals == TallyMap(items[..i], key, weight)
    {
      assert items[..i + 1][..i] == items[..i];
      var k := key(items[i]);
      if k !in keys {
        keys := keys + [k];
      }
      totals := totals[k := (if k in totals then totals[k] else 0) + weight(items[i])];
    }
    assert items[..|items|] == items;
  }

  /** The keys are distinct, and they are exactly the keys of the dictionary. */
  lemma {:induction false} TallyKeys<T>(items: seq<T>, key: T -> string, weight: T -> int)
    ensures Distinct(KeysOf(items, key))
    ensures forall d :: d in TallyMap(items, key, weight) <==> d in KeysOf(items, key)
    decreases |items|
  {
    if items != [] {
      TallyKeys(items[..|items| - 1], key, weight);
    }
  }

  /** The keys are exactly the keys some item has. */
  lemma {:induction false} KeysOfItems<T>(items: seq<T>, key: T -> string)
    ensures forall i | 0 <= i < |items| :: key(items[i]) in KeysOf(items, key)
    ensures forall d | d in KeysOf(items, key) :: exists i | 0 <= i < |items| :: key(items[i]) == d
    decreases |items|
  {
    if items != [] {
      var init := items[..|items| - 1];
      KeysOfItems(init, key);
      forall i | 0 <= i < |items| - 1 ensures key(items[i]) in KeysOf(items, key) {
        assert items[i] == init[i];
      }
      forall d | d in KeysOf(items, key) ensures exists i | 0 <= i < |items| :: key(items[i]) == d {
        if d in KeysOf(init, key) {
          var i :| 0 <= i < |init| && key(init[i]) == d;
          assert items[i] == init[i];
        } else {
          assert key(items[|items| - 1]) == d;
        }
      }
    }
  }

  /** Each dictionary entry is the total weight of the items with that key. */
  lemma {:induction false} TallyValues<T>(items: seq<T>, key: T -> string, weight: T -> int)
    ensures forall d | d in TallyMap(items, key, weight) :: TallyMap(items, key, weight)[d] == SumFor(items, key, weight, d)
    ensures forall d | d !in TallyMap(items, key, weight) :: SumFor(items, key, weight, d) == 0
    decreases |items|
  {
    if items != [] {
      TallyValues(items[..|items| - 1], key, weight);
    }
  }

  /** The dictionary's values add up to the total weight: nothing is lost or counted twice. */
  lemma {:induction false} TallyTotal<T>(items: seq<T>, key: T -> string, weight: T -> int)
    ensures forall k | k in KeysOf(items, key) :: k in TallyMap(items, key, weight)
    ensures SumOver(KeysOf(items, key), TallyMap(items, key, weight)) == Total(items, weight)
    decreases |items|
  {
    if items != [] {
      var init, x := items[..|items| - 1], items[|items| - 1];
      var ks, m, k := KeysOf(init, key), TallyMap(init, key, weight), key(x);
      assert init + [x] == items;
      assert KeysOf(items, key) == if k in ks then ks else ks + [k];
      assert TallyMap(items, key, weight) == m[k := (if k in m then m[k] else 0) + weight(x)];
      TotalSnoc(init, x, weight);
      TallyTotal(init, key, weight);
      TallyKeys(init, key, weight);
      TallyTotalStep(ks, m, k, weight(x));
    }
  }

  /** One more item adds its weight to the sum over the keys. */
  lemma TallyTotalStep(ks: seq<string>, m: map<string, int>, k: string, w: int)
    requires Distinct(ks)
    requires forall d :: d in m <==> d in ks
    ensures var m' := m[k := (if k in m then m[k] else 0) + w];
      var ks' := if k in ks then ks else ks + [k];
      (forall d | d in ks' :: d in m') && SumOver(ks', m') == SumOver(ks, m) + w
  {
    if k in ks {
      SumOverBump(ks, m, k, w);
    } else {
      SumOverOther(ks, m, k, w);
      var ks' := ks + [k];
      assert ks'[..|ks|] == ks;
    }
  }

  /** Raising the entry of one listed key raises the sum by the same amount. */
  lemma {:induction false} SumOverBump(keys: seq<string>, m: map<string, int>, k: string, w: int)
    requires Distinct(keys) && k in keys && k in m
    requires forall j | j in keys :: j in m
    ensures SumOver(keys, m[k := m[k] + w]) == SumOver(keys, m) + w
    decreases |keys|
  {
    var init, last := keys[..|keys| - 1], keys[|keys| - 1];
    if last == k {
      assert k !in init by {
        forall i | 0 <= i < |init| ensures init[i] != k {
          assert init[i] == keys[i];
        }
      }
      SumOverOther(init, m, k, m[k] + w);
    } else {
      assert k in init by {
        var i :| 0 <= i < |keys| && keys[i] == k;
        assert init[i] == k;
      }
      assert Distinct(init) by {
        forall i, j | 0 <= i < j < |init| ensures init[i] != init[j] {
          assert init[i] == keys[i] && init[j] == keys[j];
        }
      }
      SumOverBump(init, m, k, w);
    }
  }

  /** Setting the entry of a key that is not listed leaves the sum as it is. */
  lemma {:induction false} SumOverOther(keys: seq<string>, m: map<string, int>, k: string, v: int)
    requires k !in keys
    requires forall j | j in keys :: j in m
    ensures SumOver(keys, m[k := v]) == SumOver(keys, m)
    decreases |keys|
  {
    if keys != [] {
      SumOverOther(keys[..|keys| - 1], m, k, v);
    }
  }

  /** With every weight at least 1 (a count), every entry is at least 1. */
  lemma {:induction false} TallyPositive<T>(items: seq<T>, key: T -> string, weight: T -> int)
    requires forall i | 0 <= i < |items| :: weight(items[i]) >= 1
    ensures forall d | d in TallyMap(items, key, weight) :: TallyMap(items, key, weight)[d] >= 1
    decreases |items|
  {
    if items != [] {
      var init := items[..|items| - 1];
      forall i | 0 <= i < |init| ensures weight(init[i]) >= 1 {
        assert init[i] == items[i];
      }
      TallyPositive(init, key, weight);
    }
  }
}
