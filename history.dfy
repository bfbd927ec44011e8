/**
 * `HistoryManager` (`enkan/cache/HistoryManager.py`): a bounded deque of
 * visited paths with a cursor for back/forward navigation.
 */
module History {
  import opened Common

  /** `deque.append` on a deque with `maxlen`: when full, the leftmost entry falls out. */
  function DequeAppend<P>(d: seq<P>, x: P, maxLength: nat): (r: seq<P>)
    requires |d| <= maxLength
    ensures |r| <= maxLength
    ensures |d| < maxLength ==> r == d + [x]
    ensures 0 < |d| == maxLength ==> r == d[1..] + [x]
    ensures maxLength == 0 ==> r == []
  {
    var grown := d + [x];
    if |grown| > maxLength then grown[1..] else grown
  }

  /** The cursor invariant: -1 only for an empty history, otherwise an index. */
  predicate CursorOk<P>(h: seq<P>, cur: int)
  {
    -1 <= cur < |h| && (cur == -1 <==> h == [])
  }

  /** The entry under the cursor, as `current()` returns it. */
  function CurrentOf<P>(h: seq<P>, cur: int): (r: Option<P>)
    requires CursorOk(h, cur)
    ensures r.None? <==> h == []
  {
    if cur == -1 then None else Some(h[cur])
  }

  /** `back()`: new cursor and result. */
  function BackStep<P>(h: seq<P>, cur: int): (r: (int, Option<P>))
    requires CursorOk(h, cur)
    ensures CursorOk(h, r.0)
    ensures cur <= 0 ==> r == (cur, None)
    ensures cur > 0 ==> r.0 == cur - 1 && r.1 == CurrentOf(h, r.0) && r.1.Some?
  {
    if cur > 0 then (cur - 1, Some(h[cur - 1])) else (cur, None)
  }

  /** `forward_step()`: new cursor and result. */
  function ForwardStep<P>(h: seq<P>, cur: int): (r: (int, Option<P>))
    requires CursorOk(h, cur)
    ensures CursorOk(h, r.0)
    ensures cur == |h| - 1 ==> r == (cur, None)
    ensures cur < |h| - 1 ==> r.0 == cur + 1 && r.1 == CurrentOf(h, r.0) && r.1.Some?
  {
    if cur < |h| - 1 then (cur + 1, Some(h[cur + 1])) else (cur, None)
  }

  /** A successful step back followed by a step forward returns to the entry one started on. */
  lemma BackThenForward<P>(h: seq<P>, cur: int)
    requires CursorOk(h, cur) && cur > 0
    ensures var b := BackStep(h, cur);
      var f := ForwardStep(h, b.0);
      f.0 == cur && f.1 == CurrentOf(h, cur)
  {
  }

  /** A successful step forward followed by a step back returns to the entry one started on. */
  lemma ForwardThenBack<P>(h: seq<P>, cur: int)
    requires CursorOk(h, cur) && cur < |h| - 1
    ensures var f := ForwardStep(h, cur);
      var b := BackStep(h, f.0);
      b.0 == cur && b.1 == CurrentOf(h, cur) && cur >= 0
  {
  }

  /** The history and cursor after `add(path)`. */
  function AddStep<P>(h: seq<P>, cur: int, path: P, maxLength: nat): (r: (seq<P>, int))
    requires CursorOk(h, cur) && |h| <= maxLength
    ensures CursorOk(r.0, r.1) && |r.0| <= maxLength
    ensures 0 < maxLength ==> CurrentOf(r.0, r.1) == Some(path)
    ensures cur + 1 < maxLength ==> r.0 == h[..cur + 1] + [path]
    ensures 0 < maxLength && cur + 1 == maxLength ==> r.0 == h[1..cur + 1] + [path]
  {
    var kept := h[..cur + 1];
    var grown := DequeAppend(kept, path, maxLength);
    (grown, |grown| - 1)
  }

  /** Index of the first occurrence of `x`, as `deque.index`, or None for its `ValueError`. */
  function IndexOf<P(==)>(h: seq<P>, x: P): (r: Option<nat>)
    ensures r.Some? ==> r.value < |h| && h[r.value] == x && forall k :: 0 <= k < r.value ==> h[k] != x
    ensures r.None? ==> forall k :: 0 <= k < |h| ==> h[k] != x
  {
    if h == [] then None
    else if h[0] == x then Some(0)
    else match IndexOf(h[1..], x)
      case None => None
      case Some(i) => Some(i + 1)
  }

  /** The history and cursor after `remove(path)`. */
  function RemoveStep<P(==)>(h: seq<P>, cur: int, path: P): (r: (seq<P>, int))
    requires CursorOk(h, cur)
    ensures CursorOk(r.0, r.1) && |r.0| <= |h|
    ensures IndexOf(h, path).None? ==> r == (h, cur)
    ensures IndexOf(h, path).Some? ==>
      var i := IndexOf(h, path).value;
      r.0 == h[..i] + h[i + 1..] &&
      r.1 == (if i < cur then cur - 1 else if i == cur then (if r.0 == [] then -1 else Max(0, cur - 1)) else cur)
    ensures IndexOf(h, path).Some? && IndexOf(h, path).value != cur ==> CurrentOf(r.0, r.1) == CurrentOf(h, cur)
  {
    match IndexOf(h, path)
    case None => (h, cur)
    case Some(i) =>
      var rest := h[..i] + h[i + 1..];
      var c := if i < cur then cur - 1 else if i == cur then (if rest == [] then -1 else Max(0, cur - 1)) else cur;
      assert i < cur ==> rest[c] == h[cur];
      assert i > cur >= 0 ==> rest[c] == h[cur];
      (rest, c)
  }

  class HistoryManager<P(==)> {
    var history: seq<P>
    var cur: int
    const maxLength: nat

    ghost predicate Valid() reads this
    {
      CursorOk(history, cur) && |history| <= maxLength
    }

    /** `HistoryManager(max_length)`; a negative length makes `deque` raise, so it is a `nat`. */
    constructor (maxLength: nat)
      ensures Valid() && history == [] && cur == -1 && this.maxLength == maxLength
    {
      history := [];
      cur := -1;
      this.maxLength := maxLength;
    }

    /** `add`: pop every entry after the cursor, append, and point at the new last entry. */
    method Add(path: P)
      requires Valid()
      modifies this
      ensures Valid()
      ensures (history, cur) == AddStep(old(history), old(cur), path, maxLength)
    {
      while |history| - 1 > cur
        invariant cur == old(cur) && cur + 1 <= |history| <= |old(history)|
        invariant history == old(history)[..|history|]
        decreases |history|
      {
        history := history[..|history| - 1];
      }
      assert history == old(history)[..cur + 1];
      history := DequeAppend(history, path, maxLength);
      cur := |history| - 1;
    }

    method Remove(path: P)
      requires Valid()
      modifies this
      ensures Valid()
      ensures (history, cur) == RemoveStep(old(history), old(cur), path)
    {
      var found := IndexOf(history, path);
      if found.None? {
        return;
      }
      var idx := found.value;
      history := history[..idx] + history[idx + 1..];
      if idx < cur {
        cur := cur - 1;
      } else if idx == cur {
        cur := if history != [] then Max(0, cur - 1) else -1;
      }
    }

    method Back() returns (r: Option<P>)
      requires Valid()
      modifies this
      ensures Valid() && history == old(history)
      ensures (cur, r) == BackStep(history, old(cur))
    {
      if cur > 0 {
        cur := cur - 1;
        return Some(history[cur]);
      }
      return None;
    }

    method Forward() returns (r: Option<P>)
      requires Valid()
      modifies this
      ensures Valid() && history == old(history)
      ensures (cur, r) == ForwardStep(history, old(cur))
    {
      if cur < |history| - 1 {
        cur := cur + 1;
        return Some(history[cur]);
      }
      return None;
    }

    method Current() returns (r: Option<P>)
      requires Valid()
      ensures r == CurrentOf(history, cur)
      ensures r.Some? ==> r.value in history
    {
      if cur == -1 {
        return None;
      }
      return Some(history[cur]);
    }

    method Clear()
      requires Valid()
      modifies this
      ensures Valid() && history == [] && cur == -1
    {
      history := [];
      cur := -1;
    }
  }
}
