/** Python's `dict` with string keys: lookups by key, iteration in insertion
    order.  Assigning to a key already present keeps its position. */
module PyDict {
  import opened Wrappers
  import opened Seqs

  datatype Dict<V> = Dict(keys: seq<string>, items: map<string, V>)

  /** The key order lists every key of the mapping exactly once. */
  ghost predicate Valid<V>(d: Dict<V>) {
    Distinct(d.keys) && forall k :: k in d.items <==> k in d.keys
  }

  /** `{}` */
  function Empty<V>(): (r: Dict<V>)
    ensures Valid(r) && r.keys == []
  {
    Dict([], map[])
  }

  /** `d[k] = v` */
  function Put<V>(d: Dict<V>, k: string, v: V): (r: Dict<V>)
    ensures Valid(d) ==> Valid(r)
    ensures r.keys == if k in d.keys then d.keys else d.keys + [k]
    ensures r.items == d.items[k := v]
  {
    Dict(if k in d.keys then d.keys else d.keys + [k], d.items[k := v])
  }

  /** `d.get(k, default)` */
  function Lookup<V>(d: Dict<V>, k: string, default: V): V {
    if k in d.items then d.items[k] else default
  }

  /** `d.get(k)` */
  function Get<V>(d: Dict<V>, k: string): Option<V> {
    if k in d.items then Some(d.items[k]) else None
  }

  /** `d[name] = items` for each pair, in order, skipping empty lists (the
      `if file_matches: results[name] = file_matches` pattern). */
  function PutNonEmpty<T>(d: Dict<seq<T>>, pairs: seq<(string, seq<T>)>): (r: Dict<seq<T>>)
    ensures Valid(d) ==> Valid(r)
    ensures forall k :: k in r.items <==> k in d.items || HasNonEmpty(pairs, k)
    decreases |pairs|
  {
    if pairs == [] then d
    else
      var n := |pairs| - 1;
      var prev := PutNonEmpty(d, pairs[..n]);
      HasNonEmptySnoc(pairs);
      if pairs[n].1 != [] then Put(prev, pairs[n].0, pairs[n].1) else prev
  }

  /** Some pair has the name `k` and a non-empty list. */
  ghost predicate HasNonEmpty<T>(pairs: seq<(string, seq<T>)>, k: string) {
    exists i :: 0 <= i < |pairs| && pairs[i].0 == k && pairs[i].1 != []
  }

  /** A pair with name `k` and a non-empty list is among the earlier pairs
      or is the last one. */
  lemma HasNonEmptySnoc<T>(pairs: seq<(string, seq<T>)>)
    requires pairs != []
    ensures forall k :: HasNonEmpty(pairs, k) <==>
      HasNonEmpty(pairs[..|pairs| - 1], k) || (pairs[|pairs| - 1].0 == k && pairs[|pairs| - 1].1 != [])
  {
    var n := |pairs| - 1;
    forall k ensures HasNonEmpty(pairs, k) <==>
      HasNonEmpty(pairs[..n], k) || (pairs[n].0 == k && pairs[n].1 != [])
    {
      if HasNonEmpty(pairs, k) {
        var i :| 0 <= i < |pairs| && pairs[i].0 == k && pairs[i].1 != [];
        if i < n {
          assert pairs[..n][i] == pairs[i];
        }
      }
      if HasNonEmpty(pairs[..n], k) {
        var i :| 0 <= i < n && pairs[..n][i].0 == k && pairs[..n][i].1 != [];
        assert pairs[i] == pairs[..n][i];
      }
    }
  }

  /** No name occurs in two pairs. */
  ghost predicate DistinctNames<T>(pairs: seq<(string, T)>) {
    forall a, b :: 0 <= a < b < |pairs| ==> pairs[a].0 != pairs[b].0
  }

  /** Dropping the last pair keeps the names distinct, and that pair's name
      is then different from every other. */
  lemma DistinctNamesSnoc<T>(pairs: seq<(string, T)>, i: nat)
    requires DistinctNames(pairs) && i < |pairs| - 1
    ensures DistinctNames(pairs[..|pairs| - 1])
    ensures pairs[..|pairs| - 1][i] == pairs[i] && pairs[|pairs| - 1].0 != pairs[i].0
  {
  }

  /** Dropping the last pair keeps the names distinct, and no earlier pair
      has that pair's name. */
  lemma DistinctNamesLast<T>(pairs: seq<(string, seq<T>)>)
    requires DistinctNames(pairs) && pairs != []
    ensures DistinctNames(pairs[..|pairs| - 1])
    ensures !HasNonEmpty(pairs[..|pairs| - 1], pairs[|pairs| - 1].0)
  {
  }

  /** With distinct names, each non-empty list is stored under its own name. */
  lemma {:induction false} PutNonEmptyValue<T>(d: Dict<seq<T>>, pairs: seq<(string, seq<T>)>, i: int)
    requires 0 <= i < |pairs| && pairs[i].1 != []
    requires DistinctNames(pairs)
    ensures pairs[i].0 in PutNonEmpty(d, pairs).items
    ensures PutNonEmpty(d, pairs).items[pairs[i].0] == pairs[i].1
    decreases |pairs|
  {
    var n := |pairs| - 1;
    PutNonEmptyStep(d, pairs, n);
    PrefixFull(pairs);
    if i < n {
      DistinctNamesSnoc(pairs, i);
      PutNonEmptyValue(d, pairs[..n], i);
    }
  }

  /** `PutNonEmpty` of a longer prefix: one step of the filling loop. */
  lemma PutNonEmptyStep<T>(d: Dict<seq<T>>, pairs: seq<(string, seq<T>)>, i: nat)
    requires i < |pairs|
    ensures PutNonEmpty(d, pairs[..i + 1]) ==
      if pairs[i].1 != [] then Put(PutNonEmpty(d, pairs[..i]), pairs[i].0, pairs[i].1) else PutNonEmpty(d, pairs[..i])
  {
    PrefixSnoc(pairs, i);
  }

  /** Filling from distinct names, each paired with `f` of itself: a name is
      stored exactly when its list is non-empty, and is stored with it. */
  lemma PutNonEmptyOf<T>(names: seq<string>, pairs: seq<(string, seq<T>)>, f: string -> seq<T>, k: string)
    requires Distinct(names) && |pairs| == |names|
    requires forall i :: 0 <= i < |names| ==> pairs[i] == (names[i], f(names[i]))
    ensures k in PutNonEmpty(Empty(), pairs).items <==> k in names && f(k) != []
    ensures k in PutNonEmpty(Empty(), pairs).items ==> PutNonEmpty(Empty(), pairs).items[k] == f(k)
  {
    if k in names {
      var i :| 0 <= i < |names| && names[i] == k;
      if f(k) != [] {
        PutNonEmptyValue(Empty(), pairs, i);
      }
    }
  }
}
