/**
 * Association lists: the ordered `(key, value)` pairs that model an
 * `OrderedDict` (the LRU cache) and a deque of one-entry `{path: image}`
 * dicts (the preload queue).
 */
module Assoc {
  import opened Common

  /** The keys present. */
  function KeySet<K(==,!new), V>(e: seq<(K, V)>): set<K>
  {
    if e == [] then {} else {e[0].0} + KeySet(e[1..])
  }

  /** No key occurs twice. */
  predicate Distinct<K(==,!new), V>(e: seq<(K, V)>)
  {
    e == [] || (e[0].0 !in KeySet(e[1..]) && Distinct(e[1..]))
  }

  /** The value stored under `k`, first occurrence. */
  function Find<K(==,!new), V>(e: seq<(K, V)>, k: K): (r: Option<V>)
    ensures r.Some? <==> k in KeySet(e)
  {
    if e == [] then None else if e[0].0 == k then Some(e[0].1) else Find(e[1..], k)
  }

  /** `e` with every entry for `k` removed, the others in their order. */
  function Without<K(==,!new), V>(e: seq<(K, V)>, k: K): (r: seq<(K, V)>)
    ensures KeySet(r) == KeySet(e) - {k}
    ensures Distinct(e) ==> Distinct(r)
    ensures k !in KeySet(e) ==> r == e
    ensures Distinct(e) && k in KeySet(e) ==> |r| == |e| - 1
    ensures |r| <= |e|
    ensures Find(r, k).None?
    ensures forall j :: j != k ==> Find(r, j) == Find(e, j)
  {
    if e == [] then []
    else if e[0].0 == k then Without(e[1..], k)
    else [e[0]] + Without(e[1..], k)
  }

  /** Dropping a key from a list with one more entry at the end drops it from the front part, then from that entry. */
  lemma {:induction false} WithoutSnoc<K(!new), V>(e: seq<(K, V)>, x: (K, V), k: K)
    ensures Without(e + [x], k) == Without(e, k) + (if x.0 == k then [] else [x])
  {
    if e != [] {
      assert (e + [x])[1..] == e[1..] + [x];
      WithoutSnoc(e[1..], x, k);
    }
  }

  lemma {:induction false} KeySetAppend<K(!new), V>(a: seq<(K, V)>, b: seq<(K, V)>)
    ensures KeySet(a + b) == KeySet(a) + KeySet(b)
  {
    if a != [] {
      assert (a + b)[1..] == a[1..] + b;
      KeySetAppend(a[1..], b);
    } else {
      assert a + b == b;
    }
  }

  lemma {:induction false} KeyAt<K(!new), V>(e: seq<(K, V)>, i: nat)
    requires i < |e|
    ensures e[i].0 in KeySet(e)
  {
    if i > 0 {
      KeyAt(e[1..], i - 1);
    }
  }

  lemma {:induction false} DistinctSize<K(!new), V>(e: seq<(K, V)>)
    requires Distinct(e)
    ensures |KeySet(e)| == |e|
  {
    if e != [] {
      DistinctSize(e[1..]);
    }
  }

  /** Dropping the last entry of a list without repeated keys drops exactly its key. */
  lemma {:induction false} DropLast<K(!new), V>(e: seq<(K, V)>)
    requires e != [] && Distinct(e)
    ensures Distinct(e[..|e| - 1])
    ensures KeySet(e[..|e| - 1]) == KeySet(e) - {e[|e| - 1].0}
    ensures forall j :: j != e[|e| - 1].0 ==> Find(e[..|e| - 1], j) == Find(e, j)
  {
    if |e| > 1 {
      DropLast(e[1..]);
      assert e[1..][..|e| - 2] == e[..|e| - 1][1..];
      KeyAt(e[1..], |e| - 2);
    }
  }
}
