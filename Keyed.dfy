/** The one pattern both record extractors and the parent lookup share:
    walking a list with `forEach` and calling `m.set(key(x), value(x))` on a
    fresh `Map`, so that of several elements with the same key the last one
    stays. */
module Keyed {

  /** Index of the last element of `xs` whose key is `k`, or -1 when no
      element has that key. */
  function LastIndex<T>(xs: seq<T>, key: T -> string, k: string): (j: int)
    ensures -1 <= j < |xs|
    ensures 0 <= j ==> key(xs[j]) == k
    ensures forall i :: j < i < |xs| ==> key(xs[i]) != k
  {
    if xs == [] then -1
    else if key(xs[|xs| - 1]) == k then |xs| - 1
    else LastIndex(xs[..|xs| - 1], key, k)
  }

  /** The keyed map built by the `forEach`/`set` loop. */
  function KeyBy<T, V>(xs: seq<T>, key: T -> string, value: T -> V): (m: map<string, V>)
    ensures forall k :: k in m <==> 0 <= LastIndex(xs, key, k)
    ensures forall k :: k in m ==> m[k] == value(xs[LastIndex(xs, key, k)])
  {
    if xs == [] then map[]
    else
      var last := xs[|xs| - 1];
      KeyBy(xs[..|xs| - 1], key, value)[key(last) := value(last)]
  }

  /** The key set of the built map is exactly the set of keys of the list. */
  lemma {:induction false} KeyByKeys<T, V>(xs: seq<T>, key: T -> string, value: T -> V)
    ensures KeyBy(xs, key, value).Keys == set i | 0 <= i < |xs| :: key(xs[i])
  {
    var m := KeyBy(xs, key, value);
    forall k | k in m ensures k in set i | 0 <= i < |xs| :: key(xs[i]) {
      var j := LastIndex(xs, key, k);
      assert key(xs[j]) == k;
    }
    forall i | 0 <= i < |xs| ensures key(xs[i]) in m {
      var j := LastIndex(xs, key, key(xs[i]));
      assert i <= j;
    }
  }

  /** An element that no later element shadows is the one the map keeps. */
  lemma {:induction false} KeyByKeepsLast<T, V>(xs: seq<T>, key: T -> string, value: T -> V, j: nat)
    requires j < |xs|
    requires forall i :: j < i < |xs| ==> key(xs[i]) != key(xs[j])
    ensures key(xs[j]) in KeyBy(xs, key, value)
    ensures KeyBy(xs, key, value)[key(xs[j])] == value(xs[j])
  {
    var l := LastIndex(xs, key, key(xs[j]));
    assert j <= l;
  }

  /** With pairwise distinct keys nothing is overwritten: one entry per element. */
  lemma {:induction false} KeyBySize<T, V>(xs: seq<T>, key: T -> string, value: T -> V)
    requires forall i, j :: 0 <= i < j < |xs| ==> key(xs[i]) != key(xs[j])
    ensures |KeyBy(xs, key, value)| == |xs|
  {
    if xs != [] {
      var init := xs[..|xs| - 1];
      KeyBySize(init, key, value);
      var last := xs[|xs| - 1];
      assert forall i :: 0 <= i < |init| ==> key(init[i]) != key(last);
      assert key(last) !in KeyBy(init, key, value);
    }
  }
}
