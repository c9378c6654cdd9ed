/** Python's insertion-ordered `dict` with text keys, as a sequence of
    (key, value) items. Assigning `d[k] = v` keeps the position of an
    existing key and appends a new one. */
module Dicts {
  import opened Common

  type Dict<V> = seq<(string, V)>

  /** `list(d.keys())`. */
  function Keys<V>(d: Dict<V>): (ks: seq<string>)
    ensures |ks| == |d|
    ensures forall i :: 0 <= i < |d| ==> ks[i] == d[i].0
  {
    if |d| == 0 then [] else [d[0].0] + Keys(d[1..])
  }

  /** `list(d.values())`. */
  function Values<V>(d: Dict<V>): (vs: seq<V>)
    ensures |vs| == |d|
    ensures forall i :: 0 <= i < |d| ==> vs[i] == d[i].1
  {
    if |d| == 0 then [] else [d[0].1] + Values(d[1..])
  }

  /** `d.get(k)`: the value stored under `k`, if any. */
  function Get<V>(d: Dict<V>, k: string): (r: Option<V>)
    ensures r.Some? <==> k in Keys(d)
  {
    if |d| == 0 then None
    else if d[0].0 == k then Some(d[0].1)
    else Get(d[1..], k)
  }

  /** Every key occurs once, as in any dict Python builds. */
  predicate UniqueKeys<V>(d: Dict<V>) {
    forall i, j :: 0 <= i < j < |d| ==> d[i].0 != d[j].0
  }

  /** In a dict with distinct keys, looking up the key of an item finds that item. */
  lemma {:induction false} GetItem<V>(d: Dict<V>, i: nat)
    requires UniqueKeys(d) && i < |d|
    ensures Get(d, d[i].0) == Some(d[i].1)
  {
    if i > 0 {
      assert d[1..][i - 1] == d[i];
      GetItem(d[1..], i - 1);
    }
  }

  /** `d[k] = v`. */
  function Set<V>(d: Dict<V>, k: string, v: V): (r: Dict<V>)
    ensures Get(r, k) == Some(v)
    ensures forall k' :: k' != k ==> Get(r, k') == Get(d, k')
  {
    if |d| == 0 then [(k, v)]
    else if d[0].0 == k then [(k, v)] + d[1..]
    else [d[0]] + Set(d[1..], k, v)
  }

  /** An existing key keeps its position; a new key goes to the end. */
  lemma {:induction false} SetKeys<V>(d: Dict<V>, k: string, v: V)
    ensures Keys(Set(d, k, v)) == if k in Keys(d) then Keys(d) else Keys(d) + [k]
  {
    if |d| > 0 && d[0].0 != k {
      SetKeys(d[1..], k, v);
      assert Keys(d) == [d[0].0] + Keys(d[1..]);
      assert Keys(Set(d, k, v)) == [d[0].0] + Keys(Set(d[1..], k, v));
    }
  }

  /** Assignment keeps the keys of a dict distinct. */
  lemma SetUnique<V>(d: Dict<V>, k: string, v: V)
    requires UniqueKeys(d)
    ensures UniqueKeys(Set(d, k, v))
  {
    var r := Set(d, k, v);
    SetKeys(d, k, v);
    forall i, j | 0 <= i < j < |r| ensures r[i].0 != r[j].0 {
      assert Keys(r)[i] == r[i].0 && Keys(r)[j] == r[j].0;
      if k !in Keys(d) && j == |d| {
        assert Keys(d)[i] == d[i].0;
      } else {
        assert Keys(d)[i] == d[i].0 && Keys(d)[j] == d[j].0;
      }
    }
  }

  /** The value of the last item whose key is `k`, if any. */
  function LastFor<V>(items: seq<(string, V)>, k: string): (r: Option<V>)
    ensures r.Some? <==> exists i :: 0 <= i < |items| && items[i].0 == k
    ensures r.Some? ==> exists i :: 0 <= i < |items| && items[i] == (k, r.value) &&
                                    forall j :: i < j < |items| ==> items[j].0 != k
  {
    if |items| == 0 then None
    else if items[|items| - 1].0 == k then Some(items[|items| - 1].1)
    else
      var r := LastFor(items[..|items| - 1], k);
      LastForExtend(items, items[..|items| - 1], k, r);
      r
  }

  /** The step of `LastFor` past a last item with another key: what holds
      of the prefix holds of the whole sequence. */
  lemma LastForExtend<V>(items: seq<(string, V)>, p: seq<(string, V)>, k: string, r: Option<V>)
    requires |items| > 0 && p == items[..|items| - 1] && items[|items| - 1].0 != k
    requires r.Some? <==> exists i :: 0 <= i < |p| && p[i].0 == k
    requires r.Some? ==> exists i :: 0 <= i < |p| && p[i] == (k, r.value) &&
                                     forall j :: i < j < |p| ==> p[j].0 != k
    ensures r.Some? <==> exists i :: 0 <= i < |items| && items[i].0 == k
    ensures r.Some? ==> exists i :: 0 <= i < |items| && items[i] == (k, r.value) &&
                                    forall j :: i < j < |items| ==> items[j].0 != k
  {
    if r.Some? {
      var i :| 0 <= i < |p| && p[i] == (k, r.value) && forall j :: i < j < |p| ==> p[j].0 != k;
      assert items[i] == p[i];
      forall j | i < j < |items| ensures items[j].0 != k {
        if j < |p| { assert items[j] == p[j]; }
      }
    } else {
      forall i | 0 <= i < |items| ensures items[i].0 != k {
        if i < |p| { assert items[i] == p[i]; }
      }
    }
  }

  /** `for k, v in items: d[k] = v`. */
  function SetAll<V>(d: Dict<V>, items: seq<(string, V)>): Dict<V> {
    if |items| == 0 then d
    else Set(SetAll(d, items[..|items| - 1]), items[|items| - 1].0, items[|items| - 1].1)
  }

  /** After the assignments, a key holds the value of its last assignment,
      or its old value when it was not assigned. */
  lemma {:induction false} GetSetAll<V>(d: Dict<V>, items: seq<(string, V)>, k: string)
    ensures Get(SetAll(d, items), k) == if LastFor(items, k).Some? then LastFor(items, k) else Get(d, k)
  {
    if |items| > 0 {
      GetSetAll(d, items[..|items| - 1], k);
    }
  }

  /** The assignments keep the keys of a dict distinct. */
  lemma {:induction false} SetAllUnique<V>(d: Dict<V>, items: seq<(string, V)>)
    requires UniqueKeys(d)
    ensures UniqueKeys(SetAll(d, items))
  {
    if |items| > 0 {
      SetAllUnique(d, items[..|items| - 1]);
      SetUnique(SetAll(d, items[..|items| - 1]), items[|items| - 1].0, items[|items| - 1].1);
    }
  }

  /** Python's `d1 == d2` on dicts: the same keys, each with the same value,
      whatever the insertion order. */
  ghost predicate DictEq<V>(d1: Dict<V>, d2: Dict<V>) {
    forall k :: Get(d1, k) == Get(d2, k)
  }
}
