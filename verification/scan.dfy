/** A DynamoDB table scan: the table is a map from key to item, and the order
    in which a scan visits the items is the store's choice, so every listing
    takes that order as a parameter. */
module Scan {

  predicate NoDup<K(==)>(s: seq<K>) {
    forall i, j :: 0 <= i < j < |s| ==> s[i] != s[j]
  }

  /** `scan` visits every key of `m` exactly once. */
  predicate IsScanOf<K(==), V>(scan: seq<K>, m: map<K, V>) {
    && NoDup(scan)
    && (forall i :: 0 <= i < |scan| ==> scan[i] in m)
    && (forall k :: k in m ==> k in scan)
  }

  /** The items of `m`, in scan order. */
  function Rows<K(==), V>(scan: seq<K>, m: map<K, V>): (r: seq<V>)
    requires forall i :: 0 <= i < |scan| ==> scan[i] in m
    ensures |r| == |scan|
    ensures forall i :: 0 <= i < |scan| ==> r[i] == m[scan[i]]
  {
    seq(|scan|, i requires 0 <= i < |scan| => m[scan[i]])
  }

  /** A full scan returns exactly the items stored in the table. */
  lemma RowsAreValues<K, V(!new)>(scan: seq<K>, m: map<K, V>)
    requires IsScanOf(scan, m)
    ensures forall v :: v in Rows(scan, m) <==> v in m.Values
  {
    var rows := Rows(scan, m);
    forall v | v in m.Values
      ensures v in rows
    {
      var k :| k in m && m[k] == v;
      var i :| 0 <= i < |scan| && scan[i] == k;
      assert rows[i] == v;
    }
  }

  /** A scan `FilterExpression`: keeps, in order, the items satisfying `keep`. */
  function Filter<T(!new)>(s: seq<T>, keep: T -> bool): (r: seq<T>)
    ensures |r| <= |s|
    ensures forall x :: x in r <==> x in s && keep(x)
    ensures forall x :: multiset(r)[x] == if keep(x) then multiset(s)[x] else 0
  {
    if s == [] then []
    else
      assert s == [s[0]] + s[1..];
      (if keep(s[0]) then [s[0]] else []) + Filter(s[1..], keep)
  }

  /** The keys of the items of `m` that pass `keep`. */
  function KeysWhere<K(==), V>(m: map<K, V>, keep: V -> bool): set<K> {
    set k | k in m && keep(m[k])
  }

  /** Dropping the first key of a scan drops its first row. */
  lemma RowsTail<K, V>(keys: seq<K>, m: map<K, V>)
    requires |keys| > 0 && forall i :: 0 <= i < |keys| ==> keys[i] in m
    ensures Rows(keys, m) == [m[keys[0]]] + Rows(keys[1..], m)
  {
    assert Rows(keys, m)[1..] == Rows(keys[1..], m);
  }

  /** The keys after the first of a duplicate-free list are duplicate-free and
      do not repeat the first. */
  lemma NoDupTail<K>(keys: seq<K>)
    requires |keys| > 0 && NoDup(keys)
    ensures NoDup(keys[1..]) && keys[0] !in keys[1..]
  {
    var rest := keys[1..];
    forall j | 0 <= j < |rest|
      ensures rest[j] != keys[0]
    {
      assert rest[j] == keys[j + 1];
    }
  }

  /** Names the set `KeysWhere` describes. */
  lemma KeysWhereIs<K, V>(m: map<K, V>, keep: V -> bool, keys: set<K>)
    requires forall k :: k in keys <==> k in m && keep(m[k])
    ensures KeysWhere(m, keep) == keys
  {
  }

  /** Filtering a list that starts with `x` decides `x` first. */
  lemma FilterCons<T(!new)>(x: T, rest: seq<T>, keep: T -> bool)
    ensures |Filter([x] + rest, keep)| == |Filter(rest, keep)| + (if keep(x) then 1 else 0)
  {
    assert ([x] + rest)[1..] == rest;
  }

  /** The keys of a list that pass, counted from its first key on. */
  lemma KeysPassingStep<K, V>(keys: seq<K>, m: map<K, V>, keep: V -> bool)
    requires |keys| > 0 && keys[0] !in keys[1..]
    requires forall i :: 0 <= i < |keys| ==> keys[i] in m
    ensures |set k | k in keys && keep(m[k])|
            == |set k | k in keys[1..] && keep(m[k])| + (if keep(m[keys[0]]) then 1 else 0)
  {
    var here := set k | k in keys && keep(m[k]);
    var there := set k | k in keys[1..] && keep(m[k]);
    assert keys == [keys[0]] + keys[1..];
    if keep(m[keys[0]]) {
      assert here == there + {keys[0]};
    } else {
      assert here == there;
    }
  }

  /** Filtering the rows of a duplicate-free list of keys keeps one row per
      listed key whose item passes. */
  lemma {:induction false} FilterRowsCountOn<K, V(!new)>(keys: seq<K>, m: map<K, V>, keep: V -> bool)
    requires NoDup(keys) && forall i :: 0 <= i < |keys| ==> keys[i] in m
    ensures |Filter(Rows(keys, m), keep)| == |set k | k in keys && keep(m[k])|
    decreases |keys|
  {
    if keys != [] {
      NoDupTail(keys);
      FilterRowsCountOn(keys[1..], m, keep);
      RowsTail(keys, m);
      FilterCons(m[keys[0]], Rows(keys[1..], m), keep);
      KeysPassingStep(keys, m, keep);
    }
  }

  /** A filtered full scan holds one row per item of the table that passes. */
  lemma FilterRowsCount<K, V(!new)>(scan: seq<K>, m: map<K, V>, keep: V -> bool)
    requires IsScanOf(scan, m)
    ensures |Filter(Rows(scan, m), keep)| == |KeysWhere(m, keep)|
  {
    FilterRowsCountOn(scan, m, keep);
    assert (set k | k in scan && keep(m[k])) == KeysWhere(m, keep);
  }

  /** The keys under which `m` stores `v`. */
  ghost function KeysHolding<K, V>(m: map<K, V>, v: V): set<K> {
    set k | k in m && m[k] == v
  }

  /** The keys of a list that hold `v`, counted from its first key on. */
  lemma KeysHoldingStep<K, V>(keys: seq<K>, m: map<K, V>, v: V)
    requires |keys| > 0 && keys[0] !in keys[1..]
    requires forall i :: 0 <= i < |keys| ==> keys[i] in m
    ensures |set k | k in keys && m[k] == v|
            == |set k | k in keys[1..] && m[k] == v| + (if m[keys[0]] == v then 1 else 0)
  {
    var here := set k | k in keys && m[k] == v;
    var there := set k | k in keys[1..] && m[k] == v;
    assert keys == [keys[0]] + keys[1..];
    if m[keys[0]] == v {
      assert here == there + {keys[0]};
    } else {
      assert here == there;
    }
  }

  /** The rows of a duplicate-free list of keys hold each value once per
      listed key that maps to it. */
  lemma {:induction false} RowsMultiplicityOn<K, V>(keys: seq<K>, m: map<K, V>, v: V)
    requires NoDup(keys) && forall i :: 0 <= i < |keys| ==> keys[i] in m
    ensures multiset(Rows(keys, m))[v] == |set k | k in keys && m[k] == v|
    decreases |keys|
  {
    if keys != [] {
      NoDupTail(keys);
      RowsMultiplicityOn(keys[1..], m, v);
      RowsTail(keys, m);
      assert multiset(Rows(keys, m)) == multiset{m[keys[0]]} + multiset(Rows(keys[1..], m));
      KeysHoldingStep(keys, m, v);
    }
  }

  /** A full scan returns each stored record once per key holding it. */
  lemma RowsMultiplicity<K, V>(scan: seq<K>, m: map<K, V>)
    requires IsScanOf(scan, m)
    ensures forall v :: multiset(Rows(scan, m))[v] == |KeysHolding(m, v)|
  {
    forall v
      ensures multiset(Rows(scan, m))[v] == |KeysHolding(m, v)|
    {
      RowsMultiplicityOn(scan, m, v);
      assert (set k | k in scan && m[k] == v) == KeysHolding(m, v);
    }
  }

  /** A filtered full scan returns each passing record once per key holding
      it, and no other record. */
  lemma FilterRowsMultiplicity<K, V(!new)>(scan: seq<K>, m: map<K, V>, keep: V -> bool)
    requires IsScanOf(scan, m)
    ensures forall v :: multiset(Filter(Rows(scan, m), keep))[v] == if keep(v) then |KeysHolding(m, v)| else 0
  {
    RowsMultiplicity(scan, m);
  }

  /** Distinct elements: the set of a duplicate-free sequence is as large as it. */
  lemma {:induction false} DistinctCardinality<K>(s: seq<K>)
    requires NoDup(s)
    ensures |set x | x in s| == |s|
  {
    if s != [] {
      DistinctCardinality(s[1..]);
      assert (set x | x in s) == (set x | x in s[1..]) + {s[0]};
    }
  }

  /** A full scan visits as many items as the table holds. */
  lemma ScanLength<K, V>(scan: seq<K>, m: map<K, V>)
    requires IsScanOf(scan, m)
    ensures |scan| == |m|
  {
    DistinctCardinality(scan);
    assert (set x | x in scan) == m.Keys;
  }
}
