/**
 * Small shared vocabulary: optional values, results that carry the
 * error a Python `raise` would have produced, and sums over sequences.
 */
module Common {

  datatype Option<T> = None | Some(value: T)
  {
    function GetOr(default: T): T
    {
      match this
      case None => default
      case Some(v) => v
    }
  }

  /** The kinds of exception the modelled code raises. */
  datatype Error =
    | ValueError(msg: string)
    | IndexError(msg: string)
    | TypeError(msg: string)
    | ZeroDivisionError(msg: string)

  datatype Result<T> = Ok(value: T) | Err(error: Error)
  {
    predicate IsFailure() { Err? }
  }

  /** Sum of a sequence of reals, left to right. */
  function SumReal(s: seq<real>): real
  {
    if s == [] then 0.0 else SumReal(s[..|s| - 1]) + s[|s| - 1]
  }

  lemma {:induction false} SumRealAppend(s: seq<real>, t: seq<real>)
    ensures SumReal(s + t) == SumReal(s) + SumReal(t)
    decreases |t|
  {
    if t == [] {
      assert s + t == s;
    } else {
      assert (s + t)[..|s + t| - 1] == s + t[..|t| - 1];
      SumRealAppend(s, t[..|t| - 1]);
    }
  }

  lemma SumRealSingleton(x: real)
    ensures SumReal([x]) == x
  {
    assert [x][..0] == [];
  }

  lemma {:induction false} SumRealCons(x: real, s: seq<real>)
    ensures SumReal([x] + s) == x + SumReal(s)
  {
    SumRealAppend([x], s);
    SumRealSingleton(x);
  }

  /** Sum of a sequence of integers, left to right. */
  function SumInt(s: seq<int>): int
  {
    if s == [] then 0 else s[0] + SumInt(s[1..])
  }

  /** `count` copies of `x`; a non-positive count gives the empty list, as `[x] * n` does. */
  function Repeat<T>(x: T, count: int): (r: seq<T>)
    ensures |r| == if count <= 0 then 0 else count
    ensures forall i :: 0 <= i < |r| ==> r[i] == x
    decreases if count <= 0 then 0 else count
  {
    if count <= 0 then [] else [x] + Repeat(x, count - 1)
  }

  /** No element occurs twice. */
  predicate NoDup<T(==)>(s: seq<T>)
  {
    forall i, j :: 0 <= i < j < |s| ==> s[i] != s[j]
  }

  /** `[f(x) for x in s]` */
  function MapSeq<A, B>(s: seq<A>, f: A -> B): (r: seq<B>)
    ensures |r| == |s|
  {
    if s == [] then [] else MapSeq(s[..|s| - 1], f) + [f(s[|s| - 1])]
  }

  lemma {:induction false} MapSeqAt<A, B>(s: seq<A>, f: A -> B, k: nat)
    requires k < |s|
    ensures MapSeq(s, f)[k] == f(s[k])
  {
    if k < |s| - 1 {
      MapSeqAt(s[..|s| - 1], f, k);
    }
  }

  /** Dropping the head of a concatenation drops it from the first part. */
  lemma TailOfAppend<T>(a: seq<T>, b: seq<T>)
    requires a != []
    ensures (a + b)[0] == a[0] && (a + b)[1..] == a[1..] + b
  {
  }

  /** Taking `k` off the work set adds it to what is done. */
  lemma DoneGrows<T>(all: set<T>, todo: set<T>, k: T)
    requires k in todo && todo <= all
    ensures all - todo + {k} == all - (todo - {k})
  {
  }

  lemma NoDupTail<T>(s: seq<T>)
    requires s != [] && NoDup(s)
    ensures s[0] !in s[1..] && NoDup(s[1..])
  {
    forall j | 0 <= j < |s[1..]| ensures s[1..][j] != s[0] { assert s[1..][j] == s[j + 1]; }
    forall i, j | 0 <= i < j < |s[1..]| ensures s[1..][i] != s[1..][j] { assert s[1..][i] == s[i + 1]; }
  }

  lemma NoDupAppend<T>(a: seq<T>, b: seq<T>)
    requires NoDup(a) && NoDup(b) && forall x | x in a :: x !in b
    ensures NoDup(a + b)
  {
    forall i, j | 0 <= i < j < |a + b| ensures (a + b)[i] != (a + b)[j] {
      if j >= |a| && i < |a| {
        assert (a + b)[i] in a && (a + b)[j] in b;
      } else if i >= |a| {
        assert (a + b)[i] == b[i - |a|] && (a + b)[j] == b[j - |a|];
      }
    }
  }

  function Max(a: int, b: int): int { if a < b then b else a }

  function MaxReal(a: real, b: real): real { if a < b then b else a }
}
