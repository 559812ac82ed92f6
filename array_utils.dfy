/** `countBy` of shared/lib/array-utils.ts: how many items fall under each key. */
module ArrayUtils {
  import opened Common

  /** The number of items the key function maps to k. */
  function Occurrences<T>(items: seq<T>, key: T -> string, k: string): nat
  {
    if items == [] then 0
    else Occurrences(items[..|items| - 1], key, k) + (if key(items[|items| - 1]) == k then 1 else 0)
  }

  /** The keys met, once each, in the order of their first item. */
  function KeysInOrder<T>(items: seq<T>, key: T -> string): (ks: seq<string>)
    ensures forall k :: k in ks <==> Occurrences(items, key, k) > 0
    ensures forall i, j :: 0 <= i < j < |ks| ==> ks[i] != ks[j]
  {
    if items == [] then []
    else
      var init := KeysInOrder(items[..|items| - 1], key);
      var k := key(items[|items| - 1]);
      if k in init then init else init + [k]
  }

  /** The counts of the listed keys, added up. */
  function SumCounts<T>(items: seq<T>, key: T -> string, ks: seq<string>): nat
  {
    if ks == [] then 0 else SumCounts(items, key, ks[..|ks| - 1]) + Occurrences(items, key, ks[|ks| - 1])
  }


  /** `countBy`: the loop fills the record one item at a time. */
  method CountBy<T>(items: seq<T>, key: T -> string) returns (counts: map<string, nat>)
    ensures forall k :: k in counts <==> exists i :: 0 <= i < |items| && key(items[i]) == k
    ensures forall k :: k in counts ==> counts[k] == Occurrences(items, key, k) && counts[k] >= 1
    ensures forall k :: k in counts <==> k in KeysInOrder(items, key)
    ensures items == [] ==> counts == map[]
  {
    counts := map[];
    for n := 0 to |items|
      invariant forall k :: k in counts <==> Occurrences(items[..n], key, k) > 0
      invariant forall k :: k in counts ==> counts[k] == Occurrences(items[..n], key, k)
    {
      PrefixStep(items, n);
      var k := key(items[n]);
      counts := counts[k := (if k in counts then counts[k] else 0) + 1];
    }
    assert items[..|items|] == items;
    OccursWhereKeyed(items, key);
  }

  /** A key has items exactly when some item maps to it. */
  lemma {:induction false} OccursWhereKeyed<T>(items: seq<T>, key: T -> string)
    ensures forall k :: Occurrences(items, key, k) > 0 <==> exists i :: 0 <= i < |items| && key(items[i]) == k
  {
    if items != [] {
      var init := items[..|items| - 1];
      OccursWhereKeyed(init, key);
      forall k | Occurrences(items, key, k) > 0
        ensures exists i :: 0 <= i < |items| && key(items[i]) == k
      {
        if key(items[|items| - 1]) != k {
          assert Occurrences(init, key, k) > 0;
          var i :| 0 <= i < |init| && key(init[i]) == k;
          assert key(items[i]) == k;
        }
      }
      forall k | exists i :: 0 <= i < |items| && key(items[i]) == k
        ensures Occurrences(items, key, k) > 0
      {
        var i :| 0 <= i < |items| && key(items[i]) == k;
        if i < |init| {
          assert key(init[i]) == k;
        }
      }
    }
  }

  /** Adding one to the count of a key listed once raises the sum by one. */
  lemma {:induction false} SumCountsBump<T>(items: seq<T>, x: T, key: T -> string, ks: seq<string>)
    requires forall i, j :: 0 <= i < j < |ks| ==> ks[i] != ks[j]
    ensures SumCounts(items + [x], key, ks) == SumCounts(items, key, ks) + (if key(x) in ks then 1 else 0)
  {
    if ks != [] {
      var init := ks[..|ks| - 1];
      SumCountsBump(items, x, key, init);
      assert (items + [x])[..|items + [x]| - 1] == items;
      assert key(x) in ks <==> key(x) in init || key(x) == ks[|ks| - 1];
      if key(x) == ks[|ks| - 1] {
        assert key(x) !in init;
      }
    }
  }

  /** The counts add up to the number of items. */
  lemma {:induction false} CountsSumToLength<T>(items: seq<T>, key: T -> string)
    ensures SumCounts(items, key, KeysInOrder(items, key)) == |items|
  {
    if items != [] {
      var init := items[..|items| - 1];
      var x := items[|items| - 1];
      assert items == init + [x];
      var ks := KeysInOrder(init, key);
      CountsSumToLength(init, key);
      SumCountsBump(init, x, key, ks);
      if key(x) !in ks {
        assert Occurrences(init, key, key(x)) == 0;
        assert (ks + [key(x)])[..|ks|] == ks;
      }
    }
  }
}
