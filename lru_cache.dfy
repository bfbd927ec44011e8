/**
 * `LRUCache` (`enkan/cache/LRUCache.py`): an ordered dictionary whose
 * front entry is the most recently used one. Insertion and access move a
 * key to the front; an insertion that overflows `max_size` evicts the back.
 */
module LruCache {
  import opened Common
  import opened Assoc

  /** The entries after `put(key, value)` on entries `e`. */
  function PutEntries<K(==,!new), V>(e: seq<(K, V)>, maxSize: int, key: K, value: V): (r: seq<(K, V)>)
    requires Distinct(e)
    ensures Distinct(r)
    ensures key in KeySet(e) ==> r == [(key, value)] + Without(e, key) && |r| == |e|
    ensures key !in KeySet(e) && |e| < maxSize ==> r == [(key, value)] + e
    ensures key !in KeySet(e) && |e| >= maxSize && e != [] ==> r == [(key, value)] + e[..|e| - 1]
    ensures |e| <= Max(maxSize, 0) ==> |r| <= Max(maxSize, 0)
    ensures maxSize >= 1 ==> r != [] && r[0] == (key, value) && Find(r, key) == Some(value)
  {
    if key in KeySet(e) then
      [(key, value)] + Without(e, key)
    else
      var grown := [(key, value)] + e;
      if |grown| > maxSize then DropLast(grown); grown[..|grown| - 1] else grown
  }

  /** Keys other than the one put keep their value, unless they were the evicted back entry. */
  lemma PutKeepsOthers<K(!new), V>(e: seq<(K, V)>, maxSize: int, key: K, value: V, other: K)
    requires Distinct(e) && other != key
    ensures var r := PutEntries(e, maxSize, key, value);
      Find(r, other) == (if key !in KeySet(e) && |e| >= maxSize && e != [] && other == e[|e| - 1].0
                         then None else Find(e, other))
  {
    if key !in KeySet(e) && |e| >= maxSize && e != [] {
      DropLast(e);
    }
  }

  /** `e` with `key` moved to the front, as `move_to_end(key, last=False)` does. */
  function MoveToFront<K(==,!new), V>(e: seq<(K, V)>, key: K): (r: seq<(K, V)>)
    requires Distinct(e) && key in KeySet(e)
    ensures Distinct(r) && |r| == |e| && KeySet(r) == KeySet(e)
    ensures r[0].0 == key && forall j :: Find(r, j) == Find(e, j)
  {
    var r := [(key, Find(e, key).value)] + Without(e, key);
    assert forall j :: Find(r, j) == Find(e, j);
    r
  }

  class LRUCache<K(==,!new), V> {
    /** The entries of the `OrderedDict`, most recently used first. */
    var entries: seq<(K, V)>
    const maxSize: int

    ghost predicate Valid() reads this
    {
      Distinct(entries) && |entries| <= Max(maxSize, 0)
    }

    constructor (maxSize: int)
      ensures Valid() && entries == [] && this.maxSize == maxSize
    {
      entries := [];
      this.maxSize := maxSize;
    }

    /** `put`: update and promote an existing key, or insert at the front and evict the back. */
    method Put(key: K, value: V)
      requires Valid()
      modifies this
      ensures Valid()
      ensures entries == PutEntries(old(entries), maxSize, key, value)
    {
      if key in KeySet(entries) {
        entries := MoveToFront(entries, key);
        entries := entries[0 := (key, value)];
        assert entries[1..] == Without(old(entries), key);
      } else {
        entries := [(key, value)] + entries;
        if |entries| > maxSize {
          DropLast(entries);
          entries := entries[..|entries| - 1];
        }
      }
    }

    /** `get`: a miss changes nothing; a hit promotes the key and returns its value. */
    method Get(key: K) returns (r: Option<V>)
      requires Valid()
      modifies this
      ensures Valid()
      ensures r == Find(old(entries), key)
      ensures entries == if r.None? then old(entries) else MoveToFront(old(entries), key)
    {
      if key !in KeySet(entries) {
        return None;
      }
      entries := MoveToFront(entries, key);
      r := Some(entries[0].1);
    }

    /** `pop(key, None)`: the value removed, the rest in order. */
    method Pop(key: K) returns (r: Option<V>)
      requires Valid()
      modifies this
      ensures Valid()
      ensures r == Find(old(entries), key)
      ensures entries == Without(old(entries), key)
    {
      r := Find(entries, key);
      entries := Without(entries, key);
    }

    method Clear()
      requires Valid()
      modifies this
      ensures Valid() && entries == []
    {
      entries := [];
    }

    method Contains(key: K) returns (b: bool)
      requires Valid()
      ensures b <==> Find(entries, key).Some?
    {
      b := key in KeySet(entries);
    }

    /** `items()`: the pairs, most recently used first. */
    method Items() returns (r: seq<(K, V)>)
      requires Valid()
      ensures r == entries
      ensures forall j :: Find(r, j) == Find(entries, j)
    {
      r := entries;
    }

    method Len() returns (n: nat)
      requires Valid()
      ensures n == |KeySet(entries)| && n <= Max(maxSize, 0)
    {
      DistinctSize(entries);
      n := |entries|;
    }
  }
}
