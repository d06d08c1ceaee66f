/** String-keyed insertion-ordered maps, the model of the java.util.LinkedHashMap
    values that the coercion code reads (`containsKey`, `get`, `keySet`) and
    fills (`put`). A map is its entry list in insertion order; lookups find the
    first entry with the key, and `Put` keeps a key's position when it is
    already present, as LinkedHashMap does. */
module LinkedMaps {
  import opened Wrappers

  type LinkedMap<V> = seq<(string, V)>

  /** The key set in iteration order. */
  function Keys<V>(m: LinkedMap<V>): seq<string> {
    seq(|m|, i requires 0 <= i < |m| => m[i].0)
  }

  /** Position of the entry holding key `k`, if any. */
  function IndexOfKey<V>(m: LinkedMap<V>, k: string): (r: Option<nat>)
    ensures r.Some? ==> r.value < |m| && m[r.value].0 == k
    ensures r.Some? ==> forall j :: 0 <= j < r.value ==> m[j].0 != k
    ensures r.None? <==> forall j :: 0 <= j < |m| ==> m[j].0 != k
  {
    if m == [] then None
    else if m[0].0 == k then Some(0)
    else match IndexOfKey(m[1..], k)
      case None => None
      case Some(j) => Some(j + 1)
  }

  predicate HasKey<V>(m: LinkedMap<V>, k: string) {
    IndexOfKey(m, k).Some?
  }

  /** `Map.get`, with None for an absent key. */
  function Get<V>(m: LinkedMap<V>, k: string): Option<V> {
    match IndexOfKey(m, k)
    case None => None
    case Some(i) => Some(m[i].1)
  }

  /** `LinkedHashMap.put`: replace the value in place, or append a new entry. */
  function Put<V>(m: LinkedMap<V>, k: string, v: V): (r: LinkedMap<V>)
    ensures Get(r, k) == Some(v)
    ensures forall k' :: k' != k ==> Get(r, k') == Get(m, k')
    ensures HasKey(m, k) ==> Keys(r) == Keys(m)
    ensures !HasKey(m, k) ==> Keys(r) == Keys(m) + [k]
  {
    match IndexOfKey(m, k)
    case Some(i) =>
      var r := m[i := (k, v)];
      assert forall j :: 0 <= j < |m| ==> r[j].0 == m[j].0;
      IndexOfKeySameKeys(m, r);
      r
    case None =>
      var r := m + [(k, v)];
      PrefixKeepsEarlierKeys(m, r, k);
      r
  }

  /** Two entry lists with the same keys position by position find every key
      at the same position. */
  lemma {:induction false} IndexOfKeySameKeys<V>(m: LinkedMap<V>, n: LinkedMap<V>)
    requires |m| == |n|
    requires forall j :: 0 <= j < |m| ==> m[j].0 == n[j].0
    ensures forall k :: IndexOfKey(m, k) == IndexOfKey(n, k)
  {
    forall k ensures IndexOfKey(m, k) == IndexOfKey(n, k) {
      var a, b := IndexOfKey(m, k), IndexOfKey(n, k);
      if a.Some? && b.Some? {
        assert !(a.value < b.value) && !(b.value < a.value);
      }
    }
  }

  /** Appending an entry for a fresh key leaves every other lookup alone. */
  lemma {:induction false} PrefixKeepsEarlierKeys<V>(m: LinkedMap<V>, r: LinkedMap<V>, k: string)
    requires !HasKey(m, k)
    requires |r| == |m| + 1 && r[..|m|] == m && r[|m|].0 == k
    ensures IndexOfKey(r, k) == Some(|m|)
    ensures forall k' :: k' != k ==> IndexOfKey(r, k') == IndexOfKey(m, k')
    ensures Keys(r) == Keys(m) + [k]
  {
    forall k' | k' != k ensures IndexOfKey(r, k') == IndexOfKey(m, k') {
      var a, b := IndexOfKey(r, k'), IndexOfKey(m, k');
      if a.Some? {
        assert a.value < |m| && m[a.value] == r[a.value];
      }
      if b.Some? {
        assert r[b.value] == m[b.value];
      }
    }
  }

  /** Keys written only by `Put` stay distinct. */
  lemma {:induction false} PutKeepsKeysDistinct<V>(m: LinkedMap<V>, k: string, v: V)
    requires forall i, j :: 0 <= i < j < |m| ==> m[i].0 != m[j].0
    ensures var r := Put(m, k, v); forall i, j :: 0 <= i < j < |r| ==> r[i].0 != r[j].0
  {
    var r := Put(m, k, v);
    assert Keys(r) == Keys(m) || Keys(r) == Keys(m) + [k];
    forall i, j | 0 <= i < j < |r| ensures r[i].0 != r[j].0 {
      assert Keys(r)[i] == r[i].0 && Keys(r)[j] == r[j].0;
      if j == |m| {
        assert Keys(r) == Keys(m) + [k];
        assert m[i].0 == Keys(m)[i];
      } else {
        assert Keys(r)[i] == Keys(m)[i] && Keys(r)[j] == Keys(m)[j];
      }
    }
  }

  /** A LinkedHashMap filled by `put(key(x), x)` for every `x` of `items` in
      order: a key keeps the position of its first occurrence and the value
      of its last. */
  function ByName<T>(items: seq<T>, key: T -> string): (r: LinkedMap<T>)
    ensures forall k :: Get(r, k).Some? ==> Get(r, k).value in items && key(Get(r, k).value) == k
  {
    if items == [] then []
    else
      var x := items[|items| - 1];
      var r := Put(ByName(items[..|items| - 1], key), key(x), x);
      assert forall k :: Get(r, k).Some? && Get(r, k).value != x ==> Get(r, k).value in items[..|items| - 1];
      r
  }

  /** A key that no item has gets no entry. */
  lemma {:induction false} ByNameAbsent<T>(items: seq<T>, key: T -> string, k: string)
    requires forall i :: 0 <= i < |items| ==> key(items[i]) != k
    ensures Get(ByName(items, key), k).None?
  {
    if items != [] {
      ByNameAbsent(items[..|items| - 1], key, k);
    }
  }

  /** A key that some item has gets an entry. */
  lemma {:induction false} ByNamePresent<T>(items: seq<T>, key: T -> string, i: nat)
    requires i < |items|
    ensures Get(ByName(items, key), key(items[i])).Some?
  {
    var init := items[..|items| - 1];
    if i < |items| - 1 {
      assert init[i] == items[i];
      ByNamePresent(init, key, i);
    }
  }

  /** The entry for a key holds the last item with that key. */
  lemma {:induction false} ByNameLastWins<T>(items: seq<T>, key: T -> string, i: nat)
    requires i < |items|
    requires forall j :: i < j < |items| ==> key(items[j]) != key(items[i])
    ensures Get(ByName(items, key), key(items[i])) == Some(items[i])
  {
    var init := items[..|items| - 1];
    if i < |items| - 1 {
      assert init[i] == items[i];
      ByNameLastWins(init, key, i);
    }
  }

  /** Both lookups at once: the last item for a key that some item has, and
      nothing for a key that none has. */
  lemma ByNameLookup<T>(items: seq<T>, key: T -> string)
    ensures forall i :: 0 <= i < |items| && (forall j :: i < j < |items| ==> key(items[j]) != key(items[i]))
                        ==> Get(ByName(items, key), key(items[i])) == Some(items[i])
    ensures forall k :: Get(ByName(items, key), k).None? <==> forall i :: 0 <= i < |items| ==> key(items[i]) != k
  {
    forall k ensures Get(ByName(items, key), k).None? <==> forall i :: 0 <= i < |items| ==> key(items[i]) != k {
      if forall i :: 0 <= i < |items| ==> key(items[i]) != k {
        ByNameAbsent(items, key, k);
      } else {
        var i :| 0 <= i < |items| && key(items[i]) == k;
        ByNamePresent(items, key, i);
      }
    }
    forall i | 0 <= i < |items| && (forall j :: i < j < |items| ==> key(items[j]) != key(items[i]))
      ensures Get(ByName(items, key), key(items[i])) == Some(items[i])
    {
      ByNameLastWins(items, key, i);
    }
  }

  /** A key has an entry exactly when it is among the keys. */
  lemma {:induction false} HasKeyInKeys<V>(m: LinkedMap<V>, k: string)
    ensures HasKey(m, k) <==> k in Keys(m)
  {
    if HasKey(m, k) {
      var i := IndexOfKey(m, k).value;
      assert Keys(m)[i] == k;
    }
    if k in Keys(m) {
      var i :| 0 <= i < |m| && Keys(m)[i] == k;
      assert m[i].0 == k;
    }
  }
}
