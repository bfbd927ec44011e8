/**
 * `PreloadQueue` (`enkan/cache/PreloadQueue.py`): a bounded FIFO of
 * one-entry `{path: image}` items together with the set of queued paths.
 * An item is modelled as its single `(path, image)` pair.
 */
module PreloadQueue {
  import opened Common
  import opened Assoc

  /** The queue rebuilt without the items holding `path`, as `discard` does in a loop. */
  method FilterOut<P(==,!new), I>(queue: seq<(P, I)>, path: P) returns (kept: seq<(P, I)>)
    ensures kept == Without(queue, path)
  {
    kept := [];
    var i := 0;
    while i < |queue|
      invariant 0 <= i <= |queue|
      invariant kept == Without(queue[..i], path)
    {
      assert queue[..i + 1] == queue[..i] + [queue[i]];
      WithoutSnoc(queue[..i], queue[i], path);
      if queue[i].0 != path {
        kept := kept + [queue[i]];
      }
      i := i + 1;
    }
    assert queue[..i] == queue;
  }

  class Queue<P(==,!new), I> {
    var items: seq<(P, I)>
    var lookup: set<P>
    const maxSize: int

    /** `lookup` is exactly the set of queued paths, each queued once, and the deque bound holds. */
    ghost predicate Valid() reads this
    {
      lookup == KeySet(items) && Distinct(items) && 0 <= maxSize && |items| <= maxSize
    }

    /** `PreloadQueue(max_size)`; `deque(maxlen=...)` raises for a negative size. */
    constructor (maxSize: int)
      requires maxSize >= 0
      ensures Valid() && items == [] && lookup == {} && this.maxSize == maxSize
    {
      items := [];
      lookup := {};
      this.maxSize := maxSize;
    }

    /**
     * `push`: a duplicate path is refused; on a full queue the oldest item is
     * dropped first. With `max_size == 0` the `popleft` of the empty deque
     * raises `IndexError`.
     */
    method Push(path: P, image: I) returns (r: Result<bool>)
      requires Valid()
      modifies this
      ensures Valid()
      ensures old(path in lookup) ==> r == Ok(false) && items == old(items) && lookup == old(lookup)
      ensures !old(path in lookup) && maxSize == 0 ==> r.Err? && items == old(items)
      ensures !old(path in lookup) && 0 < maxSize ==> r == Ok(true) && path in lookup
      ensures !old(path in lookup) && 0 < maxSize && old(|items|) < maxSize ==>
        items == old(items) + [(path, image)]
      ensures !old(path in lookup) && 0 < maxSize && old(|items|) == maxSize ==>
        items == old(items)[1..] + [(path, image)]
    {
      if path in lookup {
        return Ok(false);
      }
      if |items| == maxSize {
        if items == [] {
          return Err(IndexError("pop from an empty deque"));
        }
        var oldest := items[0];
        items := items[1..];
        lookup := lookup - {oldest.0};
      }
      KeySetAppend(items, [(path, image)]);
      AppendFresh(items, path, image);
      items := items + [(path, image)];
      lookup := lookup + {path};
      r := Ok(true);
    }

    /** `pop`: the oldest item, or None on an empty queue. */
    method Pop() returns (r: Option<(P, I)>)
      requires Valid()
      modifies this
      ensures Valid()
      ensures old(items) == [] ==> r.None? && items == []
      ensures old(items) != [] ==> r == Some(old(items)[0]) && items == old(items)[1..]
      ensures lookup == old(lookup) - (if r.Some? then {r.value.0} else {})
    {
      if items == [] {
        return None;
      }
      var item := items[0];
      items := items[1..];
      lookup := lookup - {item.0};
      r := Some(item);
    }

    /** `discard`: False when the path is not queued, else its item is removed and the rest keep their order. */
    method Discard(path: P) returns (removed: bool)
      requires Valid()
      modifies this
      ensures Valid()
      ensures removed == old(path in lookup)
      ensures items == Without(old(items), path) && lookup == old(lookup) - {path}
    {
      if path !in lookup {
        return false;
      }
      lookup := lookup - {path};
      items := FilterOut(items, path);
      removed := true;
    }

    method Clear()
      requires Valid()
      modifies this
      ensures Valid() && items == [] && lookup == {}
    {
      items := [];
      lookup := {};
    }

    method Contains(path: P) returns (b: bool)
      requires Valid()
      ensures b <==> Find(items, path).Some?
    {
      b := path in lookup;
    }

    /** `items()`: the queued items, oldest first; their paths are exactly the lookup set. */
    method Items() returns (r: seq<(P, I)>)
      requires Valid()
      ensures r == items && KeySet(r) == lookup && Distinct(r)
    {
      r := items;
    }

    method Len() returns (n: nat)
      requires Valid()
      ensures n == |lookup| && n <= maxSize
    {
      DistinctSize(items);
      n := |items|;
    }
  }

  /** Appending an item for a path not yet queued keeps the paths distinct. */
  lemma {:induction false} AppendFresh<P(!new), I>(q: seq<(P, I)>, path: P, image: I)
    requires Distinct(q) && path !in KeySet(q)
    ensures Distinct(q + [(path, image)])
  {
    if q != [] {
      assert (q + [(path, image)])[1..] == q[1..] + [(path, image)];
      KeySetAppend(q[1..], [(path, image)]);
      AppendFresh(q[1..], path, image);
    }
  }
}
