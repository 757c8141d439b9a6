/**
 * The list and dictionary primitives of func_primitives.py. Lists are
 * sequences. A Python dict keeps insertion order, so it is modelled as an
 * association list with distinct keys. Each function returns a new value and
 * leaves its arguments unchanged (`dict_set` edits a copy).
 */
module FuncPrimitives {
  import opened Wrappers

  /** `lst + [item]`. */
  function ListAppend<T>(lst: seq<T>, item: T): (r: seq<T>)
    ensures |r| == |lst| + 1
    ensures r[..|lst|] == lst && r[|lst|] == item
  {
    lst + [item]
  }

  /** `len(lst)`; its laws are `ListLengthLaws`. */
  function ListLength<T>(lst: seq<T>): nat { |lst| }

  /** `lst[index]` when `0 <= index < len(lst)`, otherwise `None`: negative indices do not wrap. */
  function ListGet<T>(lst: seq<T>, index: int): (r: Option<T>)
    ensures r.Some? <==> 0 <= index < |lst|
    ensures r.Some? ==> r.value == lst[index]
  {
    if 0 <= index < |lst| then Some(lst[index]) else None
  }

  /** `a + b`. */
  function ListConcat<T>(a: seq<T>, b: seq<T>): (r: seq<T>)
    ensures |r| == |a| + |b|
    ensures r[..|a|] == a && r[|a|..] == b
  {
    a + b
  }

  lemma ListConcatAssociative<T>(a: seq<T>, b: seq<T>, c: seq<T>)
    ensures ListConcat(ListConcat(a, b), c) == ListConcat(a, ListConcat(b, c))
  {
  }

  /** Lengths of the list results. */
  lemma ListLengthLaws<T>(lst: seq<T>, item: T, other: seq<T>)
    ensures ListLength(ListAppend(lst, item)) == ListLength(lst) + 1
    ensures ListLength(ListConcat(lst, other)) == ListLength(lst) + ListLength(other)
  {
  }

  /** A Python dict: its entries in insertion order. */
  type Dict<K, V> = seq<(K, V)>

  predicate KeysDistinct<K(==), V>(d: Dict<K, V>) {
    forall i, j :: 0 <= i < j < |d| ==> d[i].0 != d[j].0
  }

  /** `d.get(key, None)`. */
  function DictGet<K(==), V>(d: Dict<K, V>, key: K): (r: Option<V>)
    ensures r.Some? <==> exists i :: 0 <= i < |d| && d[i].0 == key
    ensures KeysDistinct(d) ==> forall i :: 0 <= i < |d| && d[i].0 == key ==> r == Some(d[i].1)
  {
    if |d| == 0 then None
    else if d[|d| - 1].0 == key then Some(d[|d| - 1].1)
    else DictGet(d[..|d| - 1], key)
  }

  /**
   * `d_copy = d.copy(); d_copy[key] = value`: an existing key keeps its
   * position and gets the new value; a new key is appended.
   */
  function DictSet<K(==), V>(d: Dict<K, V>, key: K, value: V): (r: Dict<K, V>)
    ensures (exists i :: 0 <= i < |d| && d[i].0 == key) ==>
      |r| == |d| && forall i :: 0 <= i < |d| ==> r[i] == (if d[i].0 == key then (key, value) else d[i])
    ensures (forall i :: 0 <= i < |d| ==> d[i].0 != key) ==> r == d + [(key, value)]
  {
    if |d| == 0 then [(key, value)]
    else if d[0].0 == key then [(key, value)] + DictSetRest(d[1..], key, value)
    else [d[0]] + DictSet(d[1..], key, value)
  }

  /** The tail after a replaced entry: later entries with the same key are replaced too. */
  function DictSetRest<K(==), V>(d: Dict<K, V>, key: K, value: V): (r: Dict<K, V>)
    ensures |r| == |d|
    ensures forall i :: 0 <= i < |d| ==> r[i] == (if d[i].0 == key then (key, value) else d[i])
  {
    if |d| == 0 then [] else [if d[0].0 == key then (key, value) else d[0]] + DictSetRest(d[1..], key, value)
  }

  /** `list(d.keys())`. */
  function DictKeys<K, V>(d: Dict<K, V>): (ks: seq<K>)
    ensures |ks| == |d|
    ensures forall i :: 0 <= i < |d| ==> ks[i] == d[i].0
  {
    if |d| == 0 then [] else DictKeys(d[..|d| - 1]) + [d[|d| - 1].0]
  }

  /** `dict_set` keeps the keys distinct. */
  lemma DictSetDistinct<K, V>(d: Dict<K, V>, key: K, value: V)
    requires KeysDistinct(d)
    ensures KeysDistinct(DictSet(d, key, value))
  {
    var r := DictSet(d, key, value);
    if i :| 0 <= i < |d| && d[i].0 == key {
      assert forall j :: 0 <= j < |d| ==> r[j].0 == d[j].0;
    } else {
      assert forall j :: 0 <= j < |d| ==> r[j] == d[j];
    }
  }

  /** After `dict_set`, the key maps to the new value and every other key keeps its value. */
  lemma DictSetGet<K, V>(d: Dict<K, V>, key: K, value: V, other: K)
    requires KeysDistinct(d)
    ensures KeysDistinct(DictSet(d, key, value))
    ensures DictGet(DictSet(d, key, value), key) == Some(value)
    ensures other != key ==> DictGet(DictSet(d, key, value), other) == DictGet(d, other)
  {
    DictSetDistinct(d, key, value);
    var r := DictSet(d, key, value);
    if i :| 0 <= i < |d| && d[i].0 == key {
      assert r[i] == (key, value);
    } else {
      assert r[|d|] == (key, value);
    }
    if other != key {
      DictSetOther(d, key, value, other);
    }
  }

  lemma DictSetOther<K, V>(d: Dict<K, V>, key: K, value: V, other: K)
    requires KeysDistinct(d) && KeysDistinct(DictSet(d, key, value)) && other != key
    ensures DictGet(DictSet(d, key, value), other) == DictGet(d, other)
  {
    var r := DictSet(d, key, value);
    if i :| 0 <= i < |d| && d[i].0 == key {
      if j :| 0 <= j < |d| && d[j].0 == other {
        assert r[j] == d[j];
      } else {
        forall k | 0 <= k < |r|
          ensures r[k].0 != other
        {
          assert d[k].0 != other;
        }
      }
    } else {
      assert r[..|d|] == d;
    }
  }

  /** `list(d.keys())` lists every key of `d` exactly once. */
  lemma DictKeysExactlyOnce<K, V>(d: Dict<K, V>, key: K)
    requires KeysDistinct(d)
    ensures forall i, j :: 0 <= i < j < |DictKeys(d)| ==> DictKeys(d)[i] != DictKeys(d)[j]
    ensures key in DictKeys(d) <==> DictGet(d, key).Some?
  {
    var ks := DictKeys(d);
    if key in ks {
      var i :| 0 <= i < |ks| && ks[i] == key;
      assert d[i].0 == key;
    }
  }
}
