/**
 * The nodes of the selection tree (`enkan/tree/TreeNode.py`).
 *
 * Python's `TreeNode` objects live in an arena here: a node is a `NodeId`
 * (its object identity), the `children` and `parent` attributes of every
 * node together form one `Links` value, and the other attributes are a
 * `NodeInfo` value per node. The traversals (`level`, `siblings`,
 * `find_node`, `get_nodes_at_level`) are functions of the links.
 *
 * `Links` also carries a `rank` per node that grows from parent to child.
 * Python needs no such attribute: its parent links are acyclic because the
 * tree is only ever built downwards. The model keeps the rank to state that
 * fact and to let the upward and downward walks terminate.
 */
module Nodes {
  import opened Common
  import opened Modes

  type NodeId = nat

  /** The attributes of a `TreeNode` other than its links. */
  datatype NodeInfo = NodeInfo(
    name: string,
    path: string,
    group: Option<string>,
    proportion: Option<real>,
    userProportion: Option<real>,
    weight: Option<real>,
    weightModifier: int,
    isPercentage: bool,
    modeModifier: Option<ModeTable>,
    flat: bool,
    images: seq<string>)

  /**
   * `TreeNode(name, path, proportion=..., weight_modifier=..., is_percentage=...,
   * mode_modifier=..., images=...)`: no group, no user proportion, weight unset
   * and not flat. The images list is a value, so the node holds its own copy.
   */
  function NewInfo(name: string, path: string, proportion: Option<real>, weightModifier: int,
                   isPercentage: bool, modeModifier: Option<ModeTable>, images: seq<string>): NodeInfo
  {
    NodeInfo(name, path, None, proportion, None, None, weightModifier, isPercentage, modeModifier, false, images)
  }

  /** `TreeNode(name, path)` with every other argument at its default. */
  function BareInfo(name: string, path: string): NodeInfo
  {
    NewInfo(name, path, None, 100, true, None, [])
  }

  // ------------------------------------------------------------ links

  /** The `children` list and `parent` of every node, with the rank that orders them. */
  datatype Links = Links(
    kids: map<NodeId, seq<NodeId>>,
    up: map<NodeId, Option<NodeId>>,
    rank: map<NodeId, nat>,
    bound: nat)

  /** Every node has children, a parent slot and a rank. */
  ghost predicate KeysAgree(l: Links)
  {
    l.kids.Keys == l.up.Keys && l.up.Keys == l.rank.Keys
  }

  /** A parent is a node of lower rank. */
  ghost predicate ParentsRanked(l: Links)
    requires KeysAgree(l)
  {
    forall n {:trigger l.up[n]} | n in l.up && l.up[n].Some? ::
      l.up[n].value in l.up && l.rank[l.up[n].value] < l.rank[n]
  }

  ghost predicate RanksBelow(l: Links)
  {
    forall n | n in l.rank :: l.rank[n] < l.bound
  }

  /** A listed child names its parent. */
  ghost predicate ChildrenPoint(l: Links)
  {
    forall n, i {:trigger l.kids[n][i]} | n in l.kids && 0 <= i < |l.kids[n]| ::
      l.kids[n][i] in l.up && l.up[l.kids[n][i]] == Some(n)
  }

  /** No children list holds a node twice. */
  ghost predicate ChildrenDistinct(l: Links)
  {
    forall n | n in l.kids :: NoDup(l.kids[n])
  }

  /**
   * The link invariant. Orphans are allowed: a node may name a parent that
   * does not list it (grafting prunes nodes that way), but every listed
   * child names its parent.
   */
  ghost predicate Wf(l: Links)
  {
    KeysAgree(l) && ParentsRanked(l) && RanksBelow(l) && ChildrenPoint(l) && ChildrenDistinct(l)
  }

  /** A listed child names its parent (the invariant, one child at a time). */
  lemma ListedChildPoints(l: Links, p: NodeId, c: NodeId)
    requires Wf(l) && p in l.kids && c in l.kids[p]
    ensures c in l.up && l.up[c] == Some(p) && l.rank[p] < l.rank[c]
  {
    var i :| 0 <= i < |l.kids[p]| && l.kids[p][i] == c;
  }

  /** `n` is `a` or lies below it: `a` is met walking up from `n`. */
  predicate Reaches(l: Links, n: NodeId, a: NodeId)
    requires Wf(l) && n in l.up
    decreases l.rank[n]
  {
    n == a || (l.up[n].Some? && Reaches(l, l.up[n].value, a))
  }

  /** `[c for c in s if c is not x]` */
  function Remove(s: seq<NodeId>, x: NodeId): (r: seq<NodeId>)
    ensures forall y :: y in r <==> y in s && y != x
    ensures NoDup(s) ==> NoDup(r)
    ensures x !in s ==> r == s
  {
    if s == [] then []
    else if s[0] == x then Remove(s[1..], x)
    else
      var rest := Remove(s[1..], x);
      assert NoDup(s) ==> s[0] !in s[1..];
      [s[0]] + rest
  }

  // ------------------------------------------------------- link updates

  /** The links of a fresh node: no parent and no children. */
  function Alloc(l: Links, c: NodeId): (r: Links)
    requires Wf(l) && c !in l.up
    ensures Wf(r)
    ensures r.kids == l.kids[c := []] && r.up == l.up[c := None]
  {
    var r := Links(l.kids[c := []], l.up[c := None], l.rank[c := 0], l.bound + 1);
    assert ChildrenPoint(r) by {
      forall n: NodeId, i | n in r.kids && 0 <= i < |r.kids[n]| ensures r.kids[n][i] in r.up && r.up[r.kids[n][i]] == Some(n) {
        assert r.kids[n][i] == l.kids[n][i];
      }
    }
    assert ChildrenDistinct(r) by {
      forall n | n in r.kids ensures NoDup(r.kids[n]) {
        if n != c { assert r.kids[n] == l.kids[n]; }
      }
    }
    r
  }

  /** Nothing walks up to a node that no other node names as its parent. */
  lemma {:induction false} FreshUnreached(l: Links, p: NodeId, c: NodeId)
    requires Wf(l) && p in l.up && p != c
    requires forall x | x in l.up && x != c :: l.up[x] != Some(c)
    ensures !Reaches(l, p, c)
    decreases l.rank[p]
  {
    if l.up[p].Some? {
      FreshUnreached(l, l.up[p].value, c);
    }
  }

  /** The subtree of `c`: every node that reaches it. */
  function Below(l: Links, c: NodeId): (r: set<NodeId>)
    requires Wf(l)
    ensures forall n :: n in r <==> n in l.up && Reaches(l, n, c)
  {
    set n | n in l.up && Reaches(l, n, c)
  }

  /** How far the subtree of `c` must move down to hang below `p`. */
  function Shift(l: Links, p: NodeId, c: NodeId): nat
    requires p in l.rank && c in l.rank
  {
    if l.rank[p] + 1 > l.rank[c] then l.rank[p] + 1 - l.rank[c] else 0
  }

  /** The ranks after hanging the subtree of `c` below `p`: that subtree moves down by `shift`. */
  function ShiftedRank(rank: map<NodeId, nat>, below: set<NodeId>, shift: nat): (r: map<NodeId, nat>)
    ensures r.Keys == rank.Keys
  {
    map n | n in rank :: if n in below then rank[n] + shift else rank[n]
  }

  /** After the shift the parent links, with `c` now below `p`, still climb in rank. */
  lemma AttachRanks(l: Links, p: NodeId, c: NodeId, below: set<NodeId>)
    requires Wf(l) && p in l.up && c in l.up
    requires !Reaches(l, p, c)
    requires below == Below(l, c)
    ensures var r := Links(l.kids[p := l.kids[p] + [c]], l.up[c := Some(p)],
                           ShiftedRank(l.rank, below, Shift(l, p, c)), l.bound + Shift(l, p, c));
      KeysAgree(r) && ParentsRanked(r) && RanksBelow(r)
  {
    var shift := Shift(l, p, c);
    var r := Links(l.kids[p := l.kids[p] + [c]], l.up[c := Some(p)], ShiftedRank(l.rank, below, shift), l.bound + shift);
    assert c in below && p !in below;
    forall n {:trigger r.up[n]} | n in r.up && r.up[n].Some? ensures r.up[n].value in r.up && r.rank[r.up[n].value] < r.rank[n] {
      if n != c {
        var x := l.up[n].value;
        assert Reaches(l, n, c) <==> Reaches(l, x, c);
      }
    }
  }

  /** Appending an unlisted `c` to the children of `p` and pointing it at `p` keeps the child links right. */
  lemma AttachChildren(l: Links, r: Links, p: NodeId, c: NodeId)
    requires ChildrenPoint(l) && ChildrenDistinct(l) && p in l.kids && c in l.up
    requires forall n | n in l.kids :: c !in l.kids[n]
    requires r.kids == l.kids[p := l.kids[p] + [c]] && r.up == l.up[c := Some(p)]
    ensures ChildrenPoint(r) && ChildrenDistinct(r)
  {
    forall n: NodeId, i | n in r.kids && 0 <= i < |r.kids[n]| ensures r.kids[n][i] in r.up && r.up[r.kids[n][i]] == Some(n) {
      if n != p || i < |l.kids[p]| { assert r.kids[n][i] == l.kids[n][i]; }
    }
    assert c !in l.kids[p];
    forall n | n in r.kids ensures NoDup(r.kids[n]) {
      if n != p { assert r.kids[n] == l.kids[n]; }
    }
  }

  /**
   * `add_child` on a node that is listed nowhere: it names its new parent
   * and becomes that parent's last child. The parent must not lie in the
   * child's subtree, or the links would form a cycle.
   */
  function Attach(l: Links, p: NodeId, c: NodeId): (r: Links)
    requires Wf(l) && p in l.up && c in l.up
    requires !Reaches(l, p, c)
    requires forall n | n in l.kids :: c !in l.kids[n]
    ensures Wf(r)
    ensures r.kids == l.kids[p := l.kids[p] + [c]] && r.up == l.up[c := Some(p)]
  {
    var below := Below(l, c);
    var shift := Shift(l, p, c);
    var r := Links(l.kids[p := l.kids[p] + [c]], l.up[c := Some(p)], ShiftedRank(l.rank, below, shift), l.bound + shift);
    AttachRanks(l, p, c, below);
    AttachChildren(l, r, p, c);
    r
  }

  /** A node that was not in the links is, once allocated, listed nowhere and nobody's parent. */
  lemma AllocFresh(l: Links, c: NodeId)
    requires Wf(l) && c !in l.up
    ensures forall n | n in Alloc(l, c).kids :: c !in Alloc(l, c).kids[n]
    ensures forall x | x in Alloc(l, c).up && x != c :: Alloc(l, c).up[x] != Some(c)
  {
    var a := Alloc(l, c);
    forall n, i | n in a.kids && 0 <= i < |a.kids[n]| ensures a.kids[n][i] != c {
      if n != c { assert l.kids[n][i] in l.up; }
    }
    forall x | x in a.up && x != c ensures a.up[x] != Some(c) {
      assert a.up[x] == l.up[x];
    }
  }

  /** `TreeNode(...)` followed by `parent.add_child(node)`: a fresh node becomes the last child of `p`. */
  function AllocChild(l: Links, p: NodeId, c: NodeId): (r: Links)
    requires Wf(l) && p in l.up && c !in l.up
    ensures Wf(r)
    ensures r.kids == l.kids[p := l.kids[p] + [c]][c := []] && r.up == l.up[c := Some(p)]
  {
    var a := Alloc(l, c);
    AllocFresh(l, c);
    FreshUnreached(a, p, c);
    Attach(a, p, c)
  }

  /** `detach_node`: the node leaves its parent's children (by identity) and loses its parent. */
  function Detach(l: Links, n: NodeId): (r: Links)
    requires Wf(l) && n in l.up
    ensures Wf(r)
    ensures l.up[n].None? ==> r == l
    ensures l.up[n].Some? ==>
      r.kids == l.kids[l.up[n].value := Remove(l.kids[l.up[n].value], n)] && r.up == l.up[n := None]
    ensures forall m | m in r.kids :: n !in r.kids[m]
  {
    if l.up[n].None? then
      assert forall m | m in l.kids :: n !in l.kids[m] by {
        forall m | m in l.kids && n in l.kids[m] ensures false {
          ListedChildPoints(l, m, n);
        }
      }
      l
    else
      var q := l.up[n].value;
      var r := Links(l.kids[q := Remove(l.kids[q], n)], l.up[n := None], l.rank, l.bound);
      DetachLinks(l, r, n, q);
      r
  }

  lemma DetachLinks(l: Links, r: Links, n: NodeId, q: NodeId)
    requires Wf(l) && n in l.up && l.up[n] == Some(q)
    requires r == Links(l.kids[q := Remove(l.kids[q], n)], l.up[n := None], l.rank, l.bound)
    ensures Wf(r)
    ensures forall m | m in r.kids :: n !in r.kids[m]
  {
    DetachRanks(l, r, n);
    DetachChildren(l, r, n, q);
    DetachUnlisted(l, r, n, q);
  }

  /** Clearing a parent link keeps the ranks ordered. */
  lemma DetachRanks(l: Links, r: Links, n: NodeId)
    requires KeysAgree(l) && ParentsRanked(l) && RanksBelow(l) && n in l.up
    requires r.kids.Keys == l.kids.Keys && r.up == l.up[n := None] && r.rank == l.rank && r.bound == l.bound
    ensures KeysAgree(r) && ParentsRanked(r) && RanksBelow(r)
  {
    forall m {:trigger r.up[m]} | m in r.up && r.up[m].Some? ensures r.up[m].value in r.up && r.rank[r.up[m].value] < r.rank[m] {
      assert r.up[m] == l.up[m];
    }
  }

  /** After the removal `n` is listed nowhere and no list holds a duplicate. */
  lemma DetachUnlisted(l: Links, r: Links, n: NodeId, q: NodeId)
    requires ChildrenPoint(l) && ChildrenDistinct(l) && q in l.kids && n in l.up && l.up[n] == Some(q)
    requires r.kids == l.kids[q := Remove(l.kids[q], n)]
    ensures ChildrenDistinct(r)
    ensures forall m | m in r.kids :: n !in r.kids[m]
  {
    forall m | m in r.kids ensures NoDup(r.kids[m]) && n !in r.kids[m] {
      if m != q {
        assert r.kids[m] == l.kids[m];
      }
    }
  }

  /** Dropping `n` from its parent's list and clearing its parent keeps the other child links. */
  lemma DetachChildren(l: Links, r: Links, n: NodeId, q: NodeId)
    requires ChildrenPoint(l) && q in l.kids && n in l.up && l.up[n] == Some(q)
    requires r.kids == l.kids[q := Remove(l.kids[q], n)] && r.up == l.up[n := None]
    ensures ChildrenPoint(r)
  {
    forall m: NodeId, i | m in r.kids && 0 <= i < |r.kids[m]| ensures r.kids[m][i] in r.up && r.up[r.kids[m][i]] == Some(m) {
      var d := r.kids[m][i];
      if m == q {
        assert d in l.kids[q] && d != n;
        var j :| 0 <= j < |l.kids[q]| && l.kids[q][j] == d;
      } else {
        assert d == l.kids[m][i];
      }
    }
  }

  /** A node not below `c` stays outside its subtree once `c` is detached. */
  lemma {:induction false} DetachKeepsApart(l: Links, c: NodeId, p: NodeId)
    requires Wf(l) && c in l.up && p in l.up && !Reaches(l, p, c)
    ensures !Reaches(Detach(l, c), p, c)
    decreases l.rank[p]
  {
    if l.up[p].Some? {
      DetachKeepsApart(l, c, l.up[p].value);
    }
  }

  /**
   * Grafting's prune step `parent.children = [c for c in parent.children if c != n]`:
   * `n` leaves the children of `p` but keeps naming `p` as its parent.
   */
  function Unlist(l: Links, p: NodeId, n: NodeId): (r: Links)
    requires Wf(l) && p in l.kids
    ensures Wf(r) && r.up == l.up && r.rank == l.rank && r.bound == l.bound
    ensures r.kids == l.kids[p := Remove(l.kids[p], n)]
  {
    var r := Links(l.kids[p := Remove(l.kids[p], n)], l.up, l.rank, l.bound);
    assert ChildrenPoint(r) by {
      forall m: NodeId, i | m in r.kids && 0 <= i < |r.kids[m]| ensures r.kids[m][i] in r.up && r.up[r.kids[m][i]] == Some(m) {
        var d := r.kids[m][i];
        if m == p {
          assert d in l.kids[p];
          var j :| 0 <= j < |l.kids[p]| && l.kids[p][j] == d;
        } else {
          assert d == l.kids[m][i];
        }
      }
    }
    assert ChildrenDistinct(r) by {
      forall m | m in r.kids ensures NoDup(r.kids[m]) {
        if m != p { assert r.kids[m] == l.kids[m]; }
      }
    }
    r
  }

  // ------------------------------------------------------------ levels

  /** `TreeNode.level`: 1 for a node without a parent, else one more than the parent's. */
  function Level(l: Links, n: NodeId): (r: nat)
    requires Wf(l) && n in l.up
    ensures r >= 1
    decreases l.rank[n]
  {
    match l.up[n]
    case None => 1
    case Some(p) => 1 + Level(l, p)
  }

  /** `level` as the source computes it: a walk up the parent links. */
  method LevelWalk(l: Links, n: NodeId) returns (level: nat)
    requires Wf(l) && n in l.up
    ensures level == Level(l, n)
  {
    var current := n;
    level := 1;
    while l.up[current].Some?
      invariant current in l.up
      invariant level - 1 + Level(l, current) == Level(l, n)
      decreases l.rank[current]
    {
      level := level + 1;
      current := l.up[current].value;
    }
  }

  /** A listed child is one level below its parent. */
  lemma ChildLevel(l: Links, p: NodeId, c: NodeId)
    requires Wf(l) && p in l.kids && c in l.kids[p]
    ensures c in l.up && Level(l, c) == Level(l, p) + 1
  {
    ListedChildPoints(l, p, c);
  }

  /** `TreeNode.siblings`: the parent's children list, or empty without a parent. */
  function Siblings(l: Links, n: NodeId): (r: seq<NodeId>)
    requires Wf(l) && n in l.up
    ensures l.up[n].None? ==> r == []
    ensures forall s | s in r :: s in l.up && l.up[s] == l.up[n]
  {
    match l.up[n]
    case None => []
    case Some(p) =>
      assert forall s | s in l.kids[p] :: s in l.up && l.up[s] == Some(p) by {
        forall s | s in l.kids[p] ensures s in l.up && l.up[s] == Some(p) { ListedChildPoints(l, p, s); }
      }
      l.kids[p]
  }

  // -------------------------------------------------------- traversals

  /** The ids of the subtree of `n` in pre-order: the reference order of every traversal. */
  ghost function PreOrder(l: Links, n: NodeId): (r: seq<NodeId>)
    requires Wf(l) && n in l.up
    ensures |r| >= 1 && r[0] == n
    ensures forall k :: 0 <= k < |r| ==> r[k] in l.up
    decreases l.bound - l.rank[n], 1, 0
  {
    [n] + PreOrderFrom(l, n, 0)
  }

  /** The pre-orders of the children of `n` from the `i`-th on, concatenated. */
  ghost function PreOrderFrom(l: Links, n: NodeId, i: nat): (r: seq<NodeId>)
    requires Wf(l) && n in l.up && i <= |l.kids[n]|
    ensures forall k :: 0 <= k < |r| ==> r[k] in l.up
    decreases l.bound - l.rank[n], 0, |l.kids[n]| - i
  {
    if i == |l.kids[n]| then []
    else PreOrder(l, l.kids[n][i]) + PreOrderFrom(l, n, i + 1)
  }

  // ---------------------------------------------------------- subtrees

  /** Walking up never reaches a node of higher rank. */
  lemma {:induction false} ReachesRank(l: Links, m: NodeId, a: NodeId)
    requires Wf(l) && m in l.up && Reaches(l, m, a)
    ensures a in l.up && l.rank[a] <= l.rank[m]
    decreases l.rank[m]
  {
    if m != a {
      ReachesRank(l, l.up[m].value, a);
    }
  }

  /** What lies below a child lies below its parent. */
  lemma {:induction false} ReachesParent(l: Links, m: NodeId, c: NodeId, p: NodeId)
    requires Wf(l) && m in l.up && Reaches(l, m, c) && c in l.up && l.up[c] == Some(p)
    ensures Reaches(l, m, p)
    decreases l.rank[m]
  {
    if m != c {
      ReachesParent(l, l.up[m].value, c, p);
    }
  }

  /** Two nodes with the same parent that both lie above `m` are one node: sibling subtrees are disjoint. */
  lemma {:induction false} SiblingsApart(l: Links, m: NodeId, a: NodeId, b: NodeId)
    requires Wf(l) && m in l.up && Reaches(l, m, a) && Reaches(l, m, b)
    requires a in l.up && b in l.up && l.up[a].Some? && l.up[a] == l.up[b]
    ensures a == b
    decreases l.rank[m]
  {
    if m == a {
      if a != b {
        ReachesRank(l, l.up[a].value, b);
      }
    } else if m == b {
      ReachesRank(l, l.up[b].value, a);
    } else {
      SiblingsApart(l, l.up[m].value, a, b);
    }
  }

  /** `m` lies below one of the children of `n` from the `i`-th on. */
  ghost predicate BelowKidFrom(l: Links, m: NodeId, n: NodeId, i: nat)
    requires Wf(l) && n in l.up
  {
    m in l.up && exists j :: i <= j < |l.kids[n]| && Reaches(l, m, l.kids[n][j])
  }

  /** A node below a child is strictly below the parent. */
  lemma BelowKidReaches(l: Links, m: NodeId, n: NodeId, i: nat)
    requires Wf(l) && n in l.up && BelowKidFrom(l, m, n, i)
    ensures Reaches(l, m, n) && l.rank[n] < l.rank[m]
  {
    var j :| i <= j < |l.kids[n]| && Reaches(l, m, l.kids[n][j]);
    var c := l.kids[n][j];
    ListedChildPoints(l, n, c);
    ReachesParent(l, m, c, n);
    ReachesRank(l, m, c);
  }

  /** A node below the `i`-th child is below no later child. */
  lemma BelowOneKid(l: Links, m: NodeId, n: NodeId, i: nat)
    requires Wf(l) && n in l.up && i < |l.kids[n]| && m in l.up && Reaches(l, m, l.kids[n][i])
    ensures !BelowKidFrom(l, m, n, i + 1)
  {
    if BelowKidFrom(l, m, n, i + 1) {
      var j :| i + 1 <= j < |l.kids[n]| && Reaches(l, m, l.kids[n][j]);
      ListedChildPoints(l, n, l.kids[n][i]);
      ListedChildPoints(l, n, l.kids[n][j]);
      SiblingsApart(l, m, l.kids[n][i], l.kids[n][j]);
      assert false;
    }
  }

  /** Every node of a pre-order lies below its first node. */
  lemma {:induction false} PreOrderBelow(l: Links, n: NodeId, m: NodeId)
    requires Wf(l) && n in l.up && m in PreOrder(l, n)
    ensures m in l.up && Reaches(l, m, n)
    decreases l.bound - l.rank[n], 1, 0
  {
    if m != n {
      PreOrderFromBelow(l, n, 0, m);
      BelowKidReaches(l, m, n, 0);
    }
  }

  lemma {:induction false} PreOrderFromBelow(l: Links, n: NodeId, i: nat, m: NodeId)
    requires Wf(l) && n in l.up && i <= |l.kids[n]| && m in PreOrderFrom(l, n, i)
    ensures BelowKidFrom(l, m, n, i)
    decreases l.bound - l.rank[n], 0, |l.kids[n]| - i
  {
    var c := l.kids[n][i];
    ListedChildPoints(l, n, c);
    if m in PreOrder(l, c) {
      PreOrderBelow(l, c, m);
    } else {
      PreOrderFromBelow(l, n, i + 1, m);
    }
  }

  /** The subtree of a later child is part of the pre-orders from the `i`-th child on. */
  lemma {:induction false} KidPreOrderWithin(l: Links, n: NodeId, i: nat, j: nat, m: NodeId)
    requires Wf(l) && n in l.up && i <= j < |l.kids[n]| && m in PreOrder(l, l.kids[n][j])
    ensures m in PreOrderFrom(l, n, i)
    decreases j - i
  {
    if i < j {
      KidPreOrderWithin(l, n, i + 1, j, m);
    }
  }

  /** A node of the pre-orders from the `i`-th child on lies in the pre-order of one of those children. */
  lemma {:induction false} PreOrderFromWhich(l: Links, n: NodeId, i: nat, m: NodeId) returns (j: nat)
    requires Wf(l) && n in l.up && i <= |l.kids[n]| && m in PreOrderFrom(l, n, i)
    ensures i <= j < |l.kids[n]| && m in PreOrder(l, l.kids[n][j])
    decreases |l.kids[n]| - i
  {
    if m in PreOrder(l, l.kids[n][i]) {
      j := i;
    } else {
      j := PreOrderFromWhich(l, n, i + 1, m);
    }
  }

  /** A listed child of a node of a pre-order is in that pre-order. */
  lemma {:induction false} ChildWithin(l: Links, n: NodeId, m: NodeId, c: NodeId)
    requires Wf(l) && n in l.up && m in l.up && m in PreOrder(l, n) && c in l.kids[m]
    ensures c in PreOrder(l, n)
    decreases l.bound - l.rank[n]
  {
    var j :| 0 <= j < |l.kids[m]| && l.kids[m][j] == c;
    ListedChildPoints(l, m, c);
    if m == n {
      assert c in PreOrder(l, c);
      KidPreOrderWithin(l, n, 0, j, c);
    } else {
      var k := PreOrderFromWhich(l, n, 0, m);
      var d := l.kids[n][k];
      ListedChildPoints(l, n, d);
      ChildWithin(l, d, m, c);
      KidPreOrderWithin(l, n, 0, k, c);
    }
  }

  /** A pre-order lists no node twice. */
  lemma {:induction false} PreOrderNoDup(l: Links, n: NodeId)
    requires Wf(l) && n in l.up
    ensures NoDup(PreOrder(l, n))
    decreases l.bound - l.rank[n], 1, 0
  {
    var rest := PreOrderFrom(l, n, 0);
    PreOrderFromNoDup(l, n, 0);
    forall m | m in rest ensures m != n {
      PreOrderFromBelow(l, n, 0, m);
      BelowKidReaches(l, m, n, 0);
    }
    NoDupAppend([n], rest);
  }

  lemma {:induction false} PreOrderFromNoDup(l: Links, n: NodeId, i: nat)
    requires Wf(l) && n in l.up && i <= |l.kids[n]|
    ensures NoDup(PreOrderFrom(l, n, i))
    decreases l.bound - l.rank[n], 0, |l.kids[n]| - i
  {
    if i < |l.kids[n]| {
      var c := l.kids[n][i];
      ListedChildPoints(l, n, c);
      PreOrderNoDup(l, c);
      PreOrderFromNoDup(l, n, i + 1);
      forall m | m in PreOrder(l, c) ensures m !in PreOrderFrom(l, n, i + 1) {
        PreOrderBelow(l, c, m);
        BelowOneKid(l, m, n, i);
        if m in PreOrderFrom(l, n, i + 1) {
          PreOrderFromBelow(l, n, i + 1, m);
        }
      }
      NoDupAppend(PreOrder(l, c), PreOrderFrom(l, n, i + 1));
    }
  }

  /** The first id of `s` whose node is called `name`. */
  ghost function FirstNamed(info: map<NodeId, NodeInfo>, s: seq<NodeId>, name: string): (r: Option<NodeId>)
    requires forall k :: 0 <= k < |s| ==> s[k] in info
  {
    if s == [] then None
    else if info[s[0]].name == name then Some(s[0])
    else FirstNamed(info, s[1..], name)
  }

  lemma {:induction false} FirstNamedAppend(info: map<NodeId, NodeInfo>, a: seq<NodeId>, b: seq<NodeId>, name: string)
    requires forall k :: 0 <= k < |a| ==> a[k] in info
    requires forall k :: 0 <= k < |b| ==> b[k] in info
    ensures FirstNamed(info, a + b, name) ==
      if FirstNamed(info, a, name).Some? then FirstNamed(info, a, name) else FirstNamed(info, b, name)
  {
    if a != [] {
      assert (a + b)[1..] == a[1..] + b;
      FirstNamedAppend(info, a[1..], b, name);
    } else {
      assert a + b == b;
    }
  }

  /** Every node has attributes. */
  ghost predicate Described(l: Links, info: map<NodeId, NodeInfo>)
  {
    forall n | n in l.up :: n in info
  }

  /** The attributes cover exactly the nodes of the links. */
  ghost predicate Fits(l: Links, info: map<NodeId, NodeInfo>)
  {
    Wf(l) && info.Keys == l.up.Keys
  }

  /** `TreeNode.find_node`: the node itself on a name match, else the first match among the children's subtrees. */
  function FindNode(l: Links, info: map<NodeId, NodeInfo>, n: NodeId, name: string): (r: Option<NodeId>)
    requires Wf(l) && Described(l, info) && n in l.up
    ensures r.Some? ==> r.value in l.up && info[r.value].name == name
    decreases l.bound - l.rank[n], 1, 0
  {
    if info[n].name == name then Some(n) else FindFrom(l, info, n, name, 0)
  }

  function FindFrom(l: Links, info: map<NodeId, NodeInfo>, n: NodeId, name: string, i: nat): (r: Option<NodeId>)
    requires Wf(l) && Described(l, info) && n in l.up && i <= |l.kids[n]|
    ensures r.Some? ==> r.value in l.up && info[r.value].name == name
    decreases l.bound - l.rank[n], 0, |l.kids[n]| - i
  {
    if i == |l.kids[n]| then None
    else
      var found := FindNode(l, info, l.kids[n][i], name);
      if found.Some? then found else FindFrom(l, info, n, name, i + 1)
  }

  /** `find_node` returns the first node of the subtree, in pre-order, with that name. */
  lemma {:induction false} FindNodeIsFirstInPreOrder(l: Links, info: map<NodeId, NodeInfo>, n: NodeId, name: string)
    requires Wf(l) && Described(l, info) && n in l.up
    ensures FindNode(l, info, n, name) == FirstNamed(info, PreOrder(l, n), name)
    decreases l.bound - l.rank[n], 1, 0
  {
    FindFromIsFirst(l, info, n, name, 0);
    FirstNamedAppend(info, [n], PreOrderFrom(l, n, 0), name);
  }

  lemma {:induction false} FindFromIsFirst(l: Links, info: map<NodeId, NodeInfo>, n: NodeId, name: string, i: nat)
    requires Wf(l) && Described(l, info) && n in l.up && i <= |l.kids[n]|
    ensures FindFrom(l, info, n, name, i) == FirstNamed(info, PreOrderFrom(l, n, i), name)
    decreases l.bound - l.rank[n], 0, |l.kids[n]| - i
  {
    if i < |l.kids[n]| {
      var c := l.kids[n][i];
      FindNodeIsFirstInPreOrder(l, info, c, name);
      FindFromIsFirst(l, info, n, name, i + 1);
      FirstNamedAppend(info, PreOrder(l, c), PreOrderFrom(l, n, i + 1), name);
    }
  }

  /** The ids of `s` whose level is `target`, in order. */
  ghost function AtLevel(l: Links, s: seq<NodeId>, target: int): (r: seq<NodeId>)
    requires Wf(l) && forall k :: 0 <= k < |s| ==> s[k] in l.up
    ensures forall k :: 0 <= k < |r| ==> r[k] in l.up && Level(l, r[k]) == target
  {
    if s == [] then []
    else (if Level(l, s[0]) == target then [s[0]] else []) + AtLevel(l, s[1..], target)
  }

  /** The ids `AtLevel` keeps are exactly those of `s` at the target level. */
  lemma {:induction false} AtLevelMembers(l: Links, s: seq<NodeId>, target: int, x: NodeId)
    requires Wf(l) && forall k :: 0 <= k < |s| ==> s[k] in l.up
    ensures x in AtLevel(l, s, target) <==> x in s && x in l.up && Level(l, x) == target
  {
    if s != [] {
      AtLevelMembers(l, s[1..], target, x);
      assert x in s <==> x == s[0] || x in s[1..];
    }
  }

  /** Filtering by level keeps only listed ids and keeps them distinct. */
  lemma {:induction false} AtLevelNoDup(l: Links, s: seq<NodeId>, target: int)
    requires Wf(l) && forall k :: 0 <= k < |s| ==> s[k] in l.up
    ensures forall x | x in AtLevel(l, s, target) :: x in s
    ensures NoDup(s) ==> NoDup(AtLevel(l, s, target))
  {
    if s != [] {
      AtLevelNoDup(l, s[1..], target);
      if NoDup(s) {
        NoDupTail(s);
        NoDupAppend(if Level(l, s[0]) == target then [s[0]] else [], AtLevel(l, s[1..], target));
      }
    }
  }

  lemma {:induction false} AtLevelAppend(l: Links, a: seq<NodeId>, b: seq<NodeId>, target: int)
    requires Wf(l)
    requires forall k :: 0 <= k < |a| ==> a[k] in l.up
    requires forall k :: 0 <= k < |b| ==> b[k] in l.up
    ensures AtLevel(l, a + b, target) == AtLevel(l, a, target) + AtLevel(l, b, target)
  {
    if a != [] {
      assert (a + b)[1..] == a[1..] + b;
      AtLevelAppend(l, a[1..], b, target);
    } else {
      assert a + b == b;
    }
  }

  /** `TreeNode.get_nodes_at_level`: the node if it is at the target level, then every child's result; it keeps descending past matches. */
  function NodesAtLevel(l: Links, n: NodeId, target: int): (r: seq<NodeId>)
    requires Wf(l) && n in l.up
    ensures forall k :: 0 <= k < |r| ==> r[k] in l.up && Level(l, r[k]) == target
    decreases l.bound - l.rank[n], 1, 0
  {
    (if Level(l, n) == target then [n] else []) + NodesAtLevelFrom(l, n, target, 0)
  }

  function NodesAtLevelFrom(l: Links, n: NodeId, target: int, i: nat): (r: seq<NodeId>)
    requires Wf(l) && n in l.up && i <= |l.kids[n]|
    ensures forall k :: 0 <= k < |r| ==> r[k] in l.up && Level(l, r[k]) == target
    decreases l.bound - l.rank[n], 0, |l.kids[n]| - i
  {
    if i == |l.kids[n]| then []
    else NodesAtLevel(l, l.kids[n][i], target) + NodesAtLevelFrom(l, n, target, i + 1)
  }

  /** `get_nodes_at_level` on a node lists exactly the subtree nodes at that level, in pre-order. */
  lemma {:induction false} NodesAtLevelIsPreOrder(l: Links, n: NodeId, target: int)
    requires Wf(l) && n in l.up
    ensures NodesAtLevel(l, n, target) == AtLevel(l, PreOrder(l, n), target)
    decreases l.bound - l.rank[n], 1, 0
  {
    NodesAtLevelFromIsPreOrder(l, n, target, 0);
    AtLevelAppend(l, [n], PreOrderFrom(l, n, 0), target);
    assert AtLevel(l, [n], target) == (if Level(l, n) == target then [n] else []);
  }

  lemma {:induction false} NodesAtLevelFromIsPreOrder(l: Links, n: NodeId, target: int, i: nat)
    requires Wf(l) && n in l.up && i <= |l.kids[n]|
    ensures NodesAtLevelFrom(l, n, target, i) == AtLevel(l, PreOrderFrom(l, n, i), target)
    decreases l.bound - l.rank[n], 0, |l.kids[n]| - i
  {
    if i < |l.kids[n]| {
      var c := l.kids[n][i];
      NodesAtLevelIsPreOrder(l, c, target);
      NodesAtLevelFromIsPreOrder(l, n, target, i + 1);
      AtLevelAppend(l, PreOrder(l, c), PreOrderFrom(l, n, i + 1), target);
    }
  }

  /** `Tree.get_nodes_at_level`'s traversal: a match is collected and its children are not visited. */
  function CollectAtLevel(l: Links, n: NodeId, target: int): (r: seq<NodeId>)
    requires Wf(l) && n in l.up
    decreases l.bound - l.rank[n], 1, 0
  {
    if Level(l, n) == target then [n] else CollectAtLevelFrom(l, n, target, 0)
  }

  function CollectAtLevelFrom(l: Links, n: NodeId, target: int, i: nat): (r: seq<NodeId>)
    requires Wf(l) && n in l.up && i <= |l.kids[n]|
    decreases l.bound - l.rank[n], 0, |l.kids[n]| - i
  {
    if i == |l.kids[n]| then []
    else CollectAtLevel(l, l.kids[n][i], target) + CollectAtLevelFrom(l, n, target, i + 1)
  }

  /**
   * Stopping at a match loses nothing: below a node at the target level
   * every node is deeper, so the two traversals of the source agree.
   */
  lemma {:induction false} CollectSameAsNodesAtLevel(l: Links, n: NodeId, target: int)
    requires Wf(l) && n in l.up
    ensures CollectAtLevel(l, n, target) == NodesAtLevel(l, n, target)
    decreases l.bound - l.rank[n], 1, 0
  {
    if Level(l, n) == target {
      NothingDeeper(l, n, target, 0);
    } else {
      CollectFromSame(l, n, target, 0);
    }
  }

  lemma {:induction false} CollectFromSame(l: Links, n: NodeId, target: int, i: nat)
    requires Wf(l) && n in l.up && i <= |l.kids[n]|
    ensures CollectAtLevelFrom(l, n, target, i) == NodesAtLevelFrom(l, n, target, i)
    decreases l.bound - l.rank[n], 0, |l.kids[n]| - i
  {
    if i < |l.kids[n]| {
      CollectSameAsNodesAtLevel(l, l.kids[n][i], target);
      CollectFromSame(l, n, target, i + 1);
    }
  }

  /** No child subtree of a node at or below the target level holds a node at the target level. */
  lemma {:induction false} NothingDeeper(l: Links, n: NodeId, target: int, i: nat)
    requires Wf(l) && n in l.up && i <= |l.kids[n]| && Level(l, n) >= target
    ensures NodesAtLevelFrom(l, n, target, i) == []
    decreases l.bound - l.rank[n], |l.kids[n]| - i
  {
    if i < |l.kids[n]| {
      var c := l.kids[n][i];
      ChildLevel(l, n, c);
      NothingDeeper(l, c, target, 0);
      NothingDeeper(l, n, target, i + 1);
    }
  }

  // ---------------------------------------------------- count_branches

  /** Nodes of `s` holding images, and their images, summed. */
  ghost function Tally(info: map<NodeId, NodeInfo>, s: seq<NodeId>): (nat, nat)
    requires forall k :: 0 <= k < |s| ==> s[k] in info
  {
    if s == [] then (0, 0)
    else
      var rest := Tally(info, s[1..]);
      ((if info[s[0]].images != [] then 1 else 0) + rest.0, |info[s[0]].images| + rest.1)
  }

  lemma {:induction false} TallyAppend(info: map<NodeId, NodeInfo>, a: seq<NodeId>, b: seq<NodeId>)
    requires forall k :: 0 <= k < |a| ==> a[k] in info
    requires forall k :: 0 <= k < |b| ==> b[k] in info
    ensures Tally(info, a + b) == (Tally(info, a).0 + Tally(info, b).0, Tally(info, a).1 + Tally(info, b).1)
  {
    if a != [] {
      assert (a + b)[1..] == a[1..] + b;
      TallyAppend(info, a[1..], b);
    } else {
      assert a + b == b;
    }
  }

  /** `count_branches(node)`: (nodes with images, total images) over the subtree. */
  function CountBranches(l: Links, info: map<NodeId, NodeInfo>, n: NodeId): (r: (nat, nat))
    requires Wf(l) && Described(l, info) && n in l.up
    ensures r == Tally(info, PreOrder(l, n))
    decreases l.bound - l.rank[n], 1, 0
  {
    var own := (if info[n].images != [] then 1 else 0, |info[n].images|);
    var rest := CountBranchesFrom(l, info, n, 0);
    TallyAppend(info, [n], PreOrderFrom(l, n, 0));
    (own.0 + rest.0, own.1 + rest.1)
  }

  function CountBranchesFrom(l: Links, info: map<NodeId, NodeInfo>, n: NodeId, i: nat): (r: (nat, nat))
    requires Wf(l) && Described(l, info) && n in l.up && i <= |l.kids[n]|
    ensures r == Tally(info, PreOrderFrom(l, n, i))
    decreases l.bound - l.rank[n], 0, |l.kids[n]| - i
  {
    if i == |l.kids[n]| then (0, 0)
    else
      var c := CountBranches(l, info, l.kids[n][i]);
      var rest := CountBranchesFrom(l, info, n, i + 1);
      TallyAppend(info, PreOrder(l, l.kids[n][i]), PreOrderFrom(l, n, i + 1));
      (c.0 + rest.0, c.1 + rest.1)
  }
}
