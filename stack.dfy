/**
 * `Stack` (`enkan/utils/myStack.py`): a list of `(root, listA, listB)`
 * triples with an optional size bound.
 */
module BoundedStack {
  import opened Common

  /** Python's `s[i]` on a list: negative indices count from the end; out of range raises `IndexError`. */
  function PyIndex<T>(s: seq<T>, i: int): (r: Result<T>)
    ensures 0 <= i < |s| ==> r == Ok(s[i])
    ensures -|s| <= i < 0 ==> r == Ok(s[|s| + i])
    ensures (i < -|s| || i >= |s|) ==> r.Err? && r.error.IndexError?
  {
    if 0 <= i < |s| then Ok(s[i])
    else if -|s| <= i < 0 then Ok(s[|s| + i])
    else Err(IndexError("list index out of range"))
  }

  /** Whether `push` accepts another item: always when unbounded, else while below the bound. */
  predicate HasRoom(maxSize: Option<int>, size: nat)
  {
    maxSize.None? || size < maxSize.value
  }

  /** The size bound a stack keeps, whatever its history. */
  predicate WithinBound(maxSize: Option<int>, size: nat)
  {
    maxSize.Some? ==> size <= Max(maxSize.value, 0)
  }

  class Stack<R, A, B> {
    var items: seq<(R, A, B)>
    const maxSize: Option<int>

    ghost predicate Valid() reads this
    {
      WithinBound(maxSize, |items|)
    }

    constructor (maxSize: Option<int>)
      ensures Valid() && items == [] && this.maxSize == maxSize
    {
      items := [];
      this.maxSize := maxSize;
    }

    /** `push`: appends only while there is room; a full stack is left unchanged. */
    method Push(root: R, listA: A, listB: B)
      requires Valid()
      modifies this
      ensures Valid()
      ensures items == if HasRoom(maxSize, |old(items)|) then old(items) + [(root, listA, listB)] else old(items)
    {
      if maxSize.None? || |items| < maxSize.value {
        items := items + [(root, listA, listB)];
      }
    }

    /** `pop`: the top item, or None (Python's `(None, None, None)`) on an empty stack. */
    method Pop() returns (r: Option<(R, A, B)>)
      requires Valid()
      modifies this
      ensures Valid()
      ensures old(items) == [] ==> r.None? && items == []
      ensures old(items) != [] ==> r == Some(old(items)[|old(items)| - 1]) && items == old(items)[..|old(items)| - 1]
    {
      if items == [] {
        return None;
      }
      r := Some(items[|items| - 1]);
      items := items[..|items| - 1];
    }

    /**
     * `read_top(index)`: the root of `stack[len - index]` with Python's
     * indexing, or None for an empty stack.
     */
    method ReadTop(index: int) returns (r: Result<Option<R>>)
      requires Valid()
      ensures items == [] ==> r == Ok(None)
      ensures 1 <= index <= |items| ==> r == Ok(Some(items[|items| - index].0))
      ensures |items| < index <= 2 * |items| ==> r == Ok(Some(items[2 * |items| - index].0))
      ensures items != [] && (index <= 0 || index > 2 * |items|) ==> r.Err?
    {
      if items == [] {
        return Ok(None);
      }
      match PyIndex(items, |items| - index)
      case Err(e) => r := Err(e);
      case Ok(item) => r := Ok(Some(item.0));
    }

    method Clear()
      requires Valid()
      modifies this
      ensures Valid() && items == []
    {
      items := [];
    }

    method Len() returns (n: nat)
      requires Valid()
      ensures n == |items|
      ensures WithinBound(maxSize, n)
    {
      n := |items|;
    }

    method IsEmpty() returns (b: bool)
      requires Valid()
      ensures b <==> items == []
    {
      b := |items| == 0;
    }

    /** `is_full`: False when unbounded, else `len >= max_size`; a full stack refuses pushes. */
    method IsFull() returns (b: bool)
      requires Valid()
      ensures maxSize.None? ==> !b
      ensures maxSize.Some? ==> (b <==> |items| >= maxSize.value)
      ensures b <==> !HasRoom(maxSize, |items|)
    {
      if maxSize.None? {
        return false;
      }
      b := |items| >= maxSize.value;
    }
  }
}
