/**
 * `copy_subtree_as_tree(start_node)` (`slideshow/tree/Tree.py`), on the
 * tree of `TreeModel`: a new tree whose root is a copy of the start node
 * and whose nodes copy the start node's subtree, child lists in order,
 * followed by the lookup pass that registers every copy under its name
 * and its path.
 *
 * `deep_copy_node` builds fresh `TreeNode` objects. They are numbered here
 * from the new tree's next free id upwards, so the copy works on the new
 * tree's links and attributes as values; the source tree is only read.
 * The ghost map `f` returned with the copy sends each source node to its
 * copy.
 */
module Copying {
  import opened Common
  import opened Nodes
  import opened TreeModel
  import opened Modes
  import Filtering

  /** The attributes `deep_copy_node` passes to `TreeNode(...)`; everything else takes its default. */
  function CopyInfo(n: NodeInfo): NodeInfo
  {
    NewInfo(n.name, n.path, n.proportion, n.weightModifier, n.isPercentage, n.modeModifier, n.images)
  }

  /** The copies of the nodes of `s`, in order. */
  function MapIds(f: map<NodeId, NodeId>, s: seq<NodeId>): (r: seq<NodeId>)
    requires forall k | k in s :: k in f
    ensures |r| == |s| && forall i | 0 <= i < |s| :: r[i] == f[s[i]]
  {
    if s == [] then [] else [f[s[0]]] + MapIds(f, s[1..])
  }

  lemma MapIdsAgree(f: map<NodeId, NodeId>, g: map<NodeId, NodeId>, s: seq<NodeId>)
    requires forall k | k in s :: k in f && k in g && g[k] == f[k]
    ensures MapIds(g, s) == MapIds(f, s)
  {
    var a, b := MapIds(g, s), MapIds(f, s);
    assert forall i | 0 <= i < |s| :: a[i] == b[i];
  }

  lemma MapIdsAppend(f: map<NodeId, NodeId>, a: seq<NodeId>, b: seq<NodeId>)
    requires forall k | k in a + b :: k in f
    ensures MapIds(f, a + b) == MapIds(f, a) + MapIds(f, b)
  {
    var x, y := MapIds(f, a + b), MapIds(f, a) + MapIds(f, b);
    assert forall i | 0 <= i < |a + b| :: x[i] == y[i];
  }

  /** No two nodes share a copy. */
  ghost predicate Injective(f: map<NodeId, NodeId>)
  {
    forall x, y | x in f && y in f && x != y :: f[x] != f[y]
  }

  /** Links and attributes over the same nodes. */
  ghost predicate Keyed(l: Links, info: map<NodeId, NodeInfo>)
  {
    l.kids.Keys == l.up.Keys && info.Keys == l.up.Keys
  }

  /** The copy of `x` carries the copied attributes, and its children are the copies of the children of `x`, in order. */
  ghost predicate CopiedNode(sl: Links, si: map<NodeId, NodeInfo>, l: Links, info: map<NodeId, NodeInfo>,
                             f: map<NodeId, NodeId>, x: NodeId)
    requires Keyed(sl, si) && Keyed(l, info) && x in sl.up && x in f
  {
    f[x] in l.up && info[f[x]] == CopyInfo(si[x]) &&
    (forall k | k in sl.kids[x] :: k in f) && l.kids[f[x]] == MapIds(f, sl.kids[x])
  }

  /**
   * `f` copies the subtree of `n` (its pre-order nodes, and no others), one
   * distinct copy per node, every copy numbered from `lo` below `hi`.
   */
  ghost predicate Copied(sl: Links, si: map<NodeId, NodeInfo>, n: NodeId, l: Links, info: map<NodeId, NodeInfo>,
                         f: map<NodeId, NodeId>, lo: NodeId, hi: NodeId)
    requires Fits(sl, si) && n in sl.up && Keyed(l, info)
  {
    (forall x :: x in f <==> x in PreOrder(sl, n)) &&
    (forall x {:trigger CopiedNode(sl, si, l, info, f, x)} | x in f :: x in sl.up && CopiedNode(sl, si, l, info, f, x)) &&
    (forall x | x in f :: lo <= f[x] < hi) && Injective(f)
  }

  /** The nodes that were there keep their links and attributes. */
  ghost predicate Untouched(l0: Links, i0: map<NodeId, NodeInfo>, l: Links, info: map<NodeId, NodeInfo>)
    requires Keyed(l0, i0) && Keyed(l, info)
  {
    forall x | x in l0.up :: x in l.up && l.up[x] == l0.up[x] && l.kids[x] == l0.kids[x] && info[x] == i0[x]
  }

  /** The nodes that were not there are numbered from `lo` below `hi`. */
  ghost predicate NewBetween(l0: Links, l: Links, lo: NodeId, hi: NodeId)
  {
    forall x | x in l.up && x !in l0.up :: lo <= x < hi
  }

  /** The loop of `deep_copy_node(n)` after its first `i` children: `m` is the copy of `n` and lists the copies of those children. */
  ghost predicate CopyingKids(sl: Links, si: map<NodeId, NodeInfo>, n: NodeId, i: nat, l: Links, info: map<NodeId, NodeInfo>,
                              f: map<NodeId, NodeId>, m: NodeId, lo: NodeId, hi: NodeId)
    requires Fits(sl, si) && n in sl.up && i <= |sl.kids[n]| && Keyed(l, info)
  {
    n in f && f[n] == m && m in l.up && l.up[m].None? && info[m] == CopyInfo(si[n]) &&
    (forall x :: x in f <==> x in PreOrder(sl, n) && x !in PreOrderFrom(sl, n, i)) &&
    (forall k | k in sl.kids[n][..i] :: k in f) && l.kids[m] == MapIds(f, sl.kids[n][..i]) &&
    (forall x {:trigger CopiedNode(sl, si, l, info, f, x)} | x in f && x != n :: x in sl.up && CopiedNode(sl, si, l, info, f, x)) &&
    (forall x | x in f :: lo <= f[x] < hi) && Injective(f)
  }

  /** A node without a parent is nobody's listed child. */
  lemma ParentlessUnlisted(l: Links, c: NodeId)
    requires Wf(l) && c in l.up && l.up[c].None?
    ensures forall p | p in l.kids :: c !in l.kids[p]
  {
    forall p | p in l.kids && c in l.kids[p] ensures false {
      ListedChildPoints(l, p, c);
    }
  }

  /** Where the pre-order of the `i`-th child sits in the pre-order of `n`. */
  lemma KidKeys(sl: Links, n: NodeId, i: nat)
    requires Wf(sl) && n in sl.up && i < |sl.kids[n]|
    ensures sl.kids[n][i] in sl.up
    ensures PreOrderFrom(sl, n, i) == PreOrder(sl, sl.kids[n][i]) + PreOrderFrom(sl, n, i + 1)
    ensures forall x | x in PreOrder(sl, sl.kids[n][i]) :: x in PreOrder(sl, n) && x !in PreOrderFrom(sl, n, i + 1)
  {
    var c := sl.kids[n][i];
    ListedChildPoints(sl, n, c);
    forall x | x in PreOrder(sl, c) ensures x in PreOrder(sl, n) && x !in PreOrderFrom(sl, n, i + 1) {
      KidPreOrderWithin(sl, n, 0, i, x);
      PreOrderBelow(sl, c, x);
      BelowOneKid(sl, x, n, i);
      if x in PreOrderFrom(sl, n, i + 1) {
        PreOrderFromBelow(sl, n, i + 1, x);
      }
    }
  }

  /** Before any child: `f` knows `n` alone. */
  lemma CopyingStart(sl: Links, si: map<NodeId, NodeInfo>, n: NodeId, l0: Links, i0: map<NodeId, NodeInfo>, m: NodeId)
    requires Fits(sl, si) && n in sl.up && Fits(l0, i0) && m !in l0.up
    ensures Fits(Alloc(l0, m), i0[m := CopyInfo(si[n])])
    ensures CopyingKids(sl, si, n, 0, Alloc(l0, m), i0[m := CopyInfo(si[n])], map[n := m], m, m, m + 1)
  {
    var l, info, f := Alloc(l0, m), i0[m := CopyInfo(si[n])], map[n := m];
    forall x | x in PreOrderFrom(sl, n, 0) ensures x != n {
      PreOrderFromBelow(sl, n, 0, x);
      BelowKidReaches(sl, x, n, 0);
    }
    assert sl.kids[n][..0] == [];
    PackKids(sl, si, n, 0, l, info, f, m, m, m + 1);
  }

  /** A fresh node leaves the others as they were. */
  lemma AllocUntouched(l0: Links, i0: map<NodeId, NodeInfo>, m: NodeId, v: NodeInfo)
    requires Fits(l0, i0) && m !in l0.up
    ensures Untouched(l0, i0, Alloc(l0, m), i0[m := v]) && NewBetween(l0, Alloc(l0, m), m, m + 1)
  {
  }

  /** After the last child: the copy of `n` is complete. */
  lemma CopyingDone(sl: Links, si: map<NodeId, NodeInfo>, n: NodeId, l: Links, info: map<NodeId, NodeInfo>,
                    f: map<NodeId, NodeId>, m: NodeId, lo: NodeId, hi: NodeId)
    requires Fits(sl, si) && n in sl.up && Keyed(l, info)
    requires CopyingKids(sl, si, n, |sl.kids[n]|, l, info, f, m, lo, hi)
    ensures Copied(sl, si, n, l, info, f, lo, hi)
  {
    assert sl.kids[n][..|sl.kids[n]|] == sl.kids[n];
    assert forall x {:trigger CopiedNode(sl, si, l, info, f, x)} | x in f :: x in sl.up && CopiedNode(sl, si, l, info, f, x);
    PackCopied(sl, si, n, l, info, f, lo, hi);
  }

  /** The finished copy from its parts. */
  lemma PackCopied(sl: Links, si: map<NodeId, NodeInfo>, n: NodeId, l: Links, info: map<NodeId, NodeInfo>,
                   f: map<NodeId, NodeId>, lo: NodeId, hi: NodeId)
    requires Fits(sl, si) && n in sl.up && Keyed(l, info)
    requires forall x :: x in f <==> x in PreOrder(sl, n)
    requires forall x {:trigger CopiedNode(sl, si, l, info, f, x)} | x in f :: x in sl.up && CopiedNode(sl, si, l, info, f, x)
    requires (forall x | x in f :: lo <= f[x] < hi) && Injective(f)
    ensures Copied(sl, si, n, l, info, f, lo, hi)
  {
  }

  /** A copied node stays copied while its copy keeps its children and attributes and the map keeps its entries. */
  lemma CopiedNodeMoves(sl: Links, si: map<NodeId, NodeInfo>, la: Links, ia: map<NodeId, NodeInfo>, fa: map<NodeId, NodeId>,
                        lb: Links, ib: map<NodeId, NodeInfo>, g: map<NodeId, NodeId>, x: NodeId)
    requires Keyed(sl, si) && Keyed(la, ia) && Keyed(lb, ib) && x in sl.up && x in fa
    requires CopiedNode(sl, si, la, ia, fa, x)
    requires fa[x] in lb.up && lb.kids[fa[x]] == la.kids[fa[x]] && ib[fa[x]] == ia[fa[x]]
    requires forall y | y in fa :: y in g && g[y] == fa[y]
    ensures CopiedNode(sl, si, lb, ib, g, x)
  {
    MapIdsAgree(fa, g, sl.kids[x]);
  }

  /** The keys after the `i`-th child's copy is added. */
  lemma StepKeys(sl: Links, n: NodeId, i: nat, f: map<NodeId, NodeId>, fk: map<NodeId, NodeId>, g: map<NodeId, NodeId>)
    requires g == f + fk
    requires Wf(sl) && n in sl.up && i < |sl.kids[n]|
    requires forall x :: x in f <==> x in PreOrder(sl, n) && x !in PreOrderFrom(sl, n, i)
    requires sl.kids[n][i] in sl.up && forall x :: x in fk <==> x in PreOrder(sl, sl.kids[n][i])
    ensures forall x | x in f :: x !in fk
    ensures forall x :: x in g <==> x in PreOrder(sl, n) && x !in PreOrderFrom(sl, n, i + 1)
  {
    KidKeys(sl, n, i);
  }

  /** A node of the child's subtree: its copy is untouched by the attachment. */
  lemma StepNodeNew(sl: Links, si: map<NodeId, NodeInfo>, l2: Links, info2: map<NodeId, NodeInfo>, fk: map<NodeId, NodeId>,
                    l3: Links, g: map<NodeId, NodeId>, m: NodeId, hi: NodeId, hi2: NodeId, x: NodeId)
    requires Keyed(sl, si) && Keyed(l2, info2) && Keyed(l3, info2) && x in sl.up && x in fk
    requires CopiedNode(sl, si, l2, info2, fk, x) && hi <= fk[x] && m < hi && m in l2.kids
    requires l3.kids == l2.kids[m := l2.kids[m] + [hi]] && l3.up.Keys == l2.up.Keys
    requires forall y | y in fk :: y in g && g[y] == fk[y]
    ensures CopiedNode(sl, si, l3, info2, g, x)
  {
    CopiedNodeMoves(sl, si, l2, info2, fk, l3, info2, g, x);
  }

  /** A node copied before this child, other than `n`: its copy is neither touched by the child's copy nor by the attachment. */
  lemma StepNodeOld(sl: Links, si: map<NodeId, NodeInfo>, l: Links, info: map<NodeId, NodeInfo>, f: map<NodeId, NodeId>,
                    l2: Links, info2: map<NodeId, NodeInfo>, l3: Links, g: map<NodeId, NodeId>, m: NodeId, ck: NodeId, x: NodeId)
    requires Keyed(sl, si) && Keyed(l, info) && Keyed(l2, info2) && Keyed(l3, info2) && x in sl.up && x in f
    requires CopiedNode(sl, si, l, info, f, x) && f[x] != m
    requires f[x] in l2.up && l2.kids[f[x]] == l.kids[f[x]] && info2[f[x]] == info[f[x]] && m in l2.kids
    requires l3.kids == l2.kids[m := l2.kids[m] + [ck]] && l3.up.Keys == l2.up.Keys
    requires forall y | y in f :: y in g && g[y] == f[y]
    ensures CopiedNode(sl, si, l3, info2, g, x)
  {
    CopiedNodeMoves(sl, si, l, info, f, l3, info2, g, x);
  }

  /**
   * One child of `deep_copy_node(n)`: the child's copy `hi` (from `fk`, in
   * the links `l2`) is appended to `m`'s children in `l3`.
   */
  lemma StepNodes(sl: Links, si: map<NodeId, NodeInfo>, n: NodeId, i: nat, l: Links, info: map<NodeId, NodeInfo>,
                  f: map<NodeId, NodeId>, m: NodeId, lo: NodeId, hi: NodeId,
                  l2: Links, info2: map<NodeId, NodeInfo>, fk: map<NodeId, NodeId>, hi2: NodeId, l3: Links, g: map<NodeId, NodeId>)
    requires g == f + fk
    requires Fits(sl, si) && n in sl.up && i < |sl.kids[n]| && Keyed(l, info) && Keyed(l2, info2) && Keyed(l3, info2)
    requires CopyingKids(sl, si, n, i, l, info, f, m, lo, hi)
    requires sl.kids[n][i] in sl.up && Copied(sl, si, sl.kids[n][i], l2, info2, fk, hi, hi2)
    requires Untouched(l, info, l2, info2) && forall x | x in f :: x !in fk
    requires l3.kids == l2.kids[m := l2.kids[m] + [hi]] && l3.up.Keys == l2.up.Keys
    ensures forall x {:trigger CopiedNode(sl, si, l3, info2, g, x)} | x in g && x != n :: x in sl.up && CopiedNode(sl, si, l3, info2, g, x)
  {
    assert m < hi;
    forall x | x in g && x != n ensures x in sl.up && CopiedNode(sl, si, l3, info2, g, x) {
      if x in fk {
        StepNodeNew(sl, si, l2, info2, fk, l3, g, m, hi, hi2, x);
      } else {
        assert f[x] != m;
        StepNodeOld(sl, si, l, info, f, l2, info2, l3, g, m, hi, x);
      }
    }
  }

  /** The children of `m` after the `i`-th child's copy is appended. */
  lemma StepOwnKids(sl: Links, n: NodeId, i: nat, f: map<NodeId, NodeId>, fk: map<NodeId, NodeId>, g: map<NodeId, NodeId>, mk: seq<NodeId>, ck: NodeId)
    requires g == f + fk
    requires Wf(sl) && n in sl.up && i < |sl.kids[n]|
    requires (forall k | k in sl.kids[n][..i] :: k in f) && mk == MapIds(f, sl.kids[n][..i])
    requires forall x | x in f :: x !in fk
    requires sl.kids[n][i] in fk && fk[sl.kids[n][i]] == ck
    ensures forall k | k in sl.kids[n][..i + 1] :: k in g
    ensures mk + [ck] == MapIds(g, sl.kids[n][..i + 1])
  {
    var s := sl.kids[n];
    assert s[..i + 1] == s[..i] + [s[i]];
    MapIdsAgree(f, g, s[..i]);
    MapIdsAppend(g, s[..i], [s[i]]);
  }

  /** Copies numbered below `hi` and copies numbered from `hi` never meet. */
  lemma StepRange(f: map<NodeId, NodeId>, fk: map<NodeId, NodeId>, g: map<NodeId, NodeId>, lo: NodeId, hi: NodeId, hi2: NodeId)
    requires g == f + fk
    requires lo <= hi <= hi2 && (forall x | x in f :: lo <= f[x] < hi) && Injective(f)
    requires (forall x | x in fk :: hi <= fk[x] < hi2) && Injective(fk)
    requires forall x | x in f :: x !in fk
    ensures (forall x | x in g :: lo <= g[x] < hi2) && Injective(g)
  {
    forall x | x in g ensures lo <= g[x] < hi2 && (x in fk ==> hi <= g[x]) && (x !in fk ==> g[x] < hi) {
      if x in fk { assert g[x] == fk[x]; } else { assert g[x] == f[x]; }
    }
  }

  /**
   * `deep_copy_node(n)` into the links `l0` and attributes `i0`: the copy
   * `m` is the fresh id `lo`, the copies of its children are made in turn
   * and appended to it, and every new id lies from `lo` below `hi`.
   */
  method CopyInto(sl: Links, si: map<NodeId, NodeInfo>, n: NodeId, l0: Links, i0: map<NodeId, NodeInfo>, lo: NodeId)
      returns (l: Links, info: map<NodeId, NodeInfo>, hi: NodeId, m: NodeId, ghost f: map<NodeId, NodeId>)
    requires Fits(sl, si) && n in sl.up && Fits(l0, i0) && IdsBelow(l0.up, lo)
    ensures Fits(l, info) && IdsBelow(l.up, hi) && lo < hi
    ensures Untouched(l0, i0, l, info) && NewBetween(l0, l, lo, hi)
    ensures m == lo && m in l.up && l.up[m].None?
    ensures n in f && f[n] == m && Copied(sl, si, n, l, info, f, lo, hi)
    decreases sl.bound - sl.rank[n], 1
  {
    m := lo;
    CopyingStart(sl, si, n, l0, i0, m);
    AllocUntouched(l0, i0, m, CopyInfo(si[n]));
    l, info, hi, f := Alloc(l0, m), i0[m := CopyInfo(si[n])], lo + 1, map[n := m];
    var i := 0;
    while i < |sl.kids[n]|
      invariant i <= |sl.kids[n]| && Fits(l, info) && IdsBelow(l.up, hi) && lo < hi
      invariant Untouched(l0, i0, l, info) && NewBetween(l0, l, lo, hi)
      invariant CopyingKids(sl, si, n, i, l, info, f, m, lo, hi)
    {
      l, info, hi, f := CopyKid(sl, si, n, i, l0, i0, l, info, f, m, lo, hi);
      i := i + 1;
    }
    CopyingDone(sl, si, n, l, info, f, m, lo, hi);
  }

  /** One turn of the children loop of `deep_copy_node(n)`: `child_copy = deep_copy_node(child)`, then `new_node.add_child(child_copy)`. */
  method CopyKid(sl: Links, si: map<NodeId, NodeInfo>, n: NodeId, i: nat, ghost l0: Links, ghost i0: map<NodeId, NodeInfo>,
                 l: Links, info: map<NodeId, NodeInfo>, ghost f: map<NodeId, NodeId>, m: NodeId, lo: NodeId, hi: NodeId)
      returns (l3: Links, info3: map<NodeId, NodeInfo>, hi3: NodeId, ghost g: map<NodeId, NodeId>)
    requires Fits(sl, si) && n in sl.up && i < |sl.kids[n]| && Fits(l0, i0) && IdsBelow(l0.up, lo)
    requires Fits(l, info) && IdsBelow(l.up, hi) && lo < hi
    requires Untouched(l0, i0, l, info) && NewBetween(l0, l, lo, hi)
    requires CopyingKids(sl, si, n, i, l, info, f, m, lo, hi)
    ensures Fits(l3, info3) && IdsBelow(l3.up, hi3) && lo < hi3
    ensures Untouched(l0, i0, l3, info3) && NewBetween(l0, l3, lo, hi3)
    ensures CopyingKids(sl, si, n, i + 1, l3, info3, g, m, lo, hi3)
    decreases sl.bound - sl.rank[n], 0
  {
    var c := sl.kids[n][i];
    ListedChildPoints(sl, n, c);
    var l2, info2, hi2, ck, fk := CopyInto(sl, si, c, l, info, hi);
    ParentlessUnlisted(l2, ck);
    l3 := Attach(l2, m, ck);
    info3, hi3, g := info2, hi2, f + fk;
    StepClose(sl, si, n, i, l, info, f, m, lo, hi, l2, info2, fk, hi2, l3, g);
    StepFrame(l0, i0, l, info, l2, info2, l3, m, ck, lo, hi, hi2);
  }

  /** The loop state after the `i`-th child's copy `hi` is appended to `m`. */
  lemma StepClose(sl: Links, si: map<NodeId, NodeInfo>, n: NodeId, i: nat, l: Links, info: map<NodeId, NodeInfo>,
                  f: map<NodeId, NodeId>, m: NodeId, lo: NodeId, hi: NodeId,
                  l2: Links, info2: map<NodeId, NodeInfo>, fk: map<NodeId, NodeId>, hi2: NodeId, l3: Links, g: map<NodeId, NodeId>)
    requires g == f + fk
    requires Fits(sl, si) && n in sl.up && i < |sl.kids[n]| && Keyed(l, info) && Keyed(l2, info2) && Keyed(l3, info2)
    requires CopyingKids(sl, si, n, i, l, info, f, m, lo, hi) && lo < hi
    requires sl.kids[n][i] in sl.up && Copied(sl, si, sl.kids[n][i], l2, info2, fk, hi, hi2)
    requires sl.kids[n][i] in fk && fk[sl.kids[n][i]] == hi && hi in l2.up
    requires Untouched(l, info, l2, info2)
    requires l3.kids == l2.kids[m := l2.kids[m] + [hi]] && l3.up == l2.up[hi := Some(m)]
    ensures CopyingKids(sl, si, n, i + 1, l3, info2, g, m, lo, hi2)
  {
    StepKeys(sl, n, i, f, fk, g);
    StepNodes(sl, si, n, i, l, info, f, m, lo, hi, l2, info2, fk, hi2, l3, g);
    StepOwnKids(sl, n, i, f, fk, g, l.kids[m], hi);
    StepRange(f, fk, g, lo, hi, hi2);
    assert l3.up[m].None? && info2[m] == CopyInfo(si[n]);
    PackKids(sl, si, n, i + 1, l3, info2, g, m, lo, hi2);
  }

  /** The loop state from its parts. */
  lemma PackKids(sl: Links, si: map<NodeId, NodeInfo>, n: NodeId, i: nat, l: Links, info: map<NodeId, NodeInfo>,
                 f: map<NodeId, NodeId>, m: NodeId, lo: NodeId, hi: NodeId)
    requires Fits(sl, si) && n in sl.up && i <= |sl.kids[n]| && Keyed(l, info)
    requires n in f && f[n] == m && m in l.up && l.up[m].None? && info[m] == CopyInfo(si[n])
    requires forall x :: x in f <==> x in PreOrder(sl, n) && x !in PreOrderFrom(sl, n, i)
    requires forall k | k in sl.kids[n][..i] :: k in f
    requires l.kids[m] == MapIds(f, sl.kids[n][..i])
    requires forall x {:trigger CopiedNode(sl, si, l, info, f, x)} | x in f && x != n :: x in sl.up && CopiedNode(sl, si, l, info, f, x)
    requires (forall x | x in f :: lo <= f[x] < hi) && Injective(f)
    ensures CopyingKids(sl, si, n, i, l, info, f, m, lo, hi)
  {
  }

  /** The effect of one child's copy and attachment on the nodes that were there before the loop. */
  lemma StepFrame(l0: Links, i0: map<NodeId, NodeInfo>, l: Links, info: map<NodeId, NodeInfo>,
                  l2: Links, info2: map<NodeId, NodeInfo>, l3: Links, m: NodeId, ck: NodeId, lo: NodeId, hi: NodeId, hi2: NodeId)
    requires Keyed(l0, i0) && Keyed(l, info) && Keyed(l2, info2) && Keyed(l3, info2) && IdsBelow(l0.up, lo)
    requires lo <= m < hi <= ck < hi2 && m in l.up && ck in l2.up
    requires Untouched(l0, i0, l, info) && NewBetween(l0, l, lo, hi)
    requires Untouched(l, info, l2, info2) && NewBetween(l, l2, hi, hi2)
    requires l3.kids == l2.kids[m := l2.kids[m] + [ck]] && l3.up == l2.up[ck := Some(m)]
    ensures Untouched(l0, i0, l3, info2) && NewBetween(l0, l3, lo, hi2)
  {
    forall x | x in l0.up ensures x in l3.up && l3.up[x] == l0.up[x] && l3.kids[x] == l0.kids[x] && info2[x] == i0[x] {
      assert x < lo;
      assert x in l.up && x in l2.up;
    }
    forall x | x in l3.up && x !in l0.up ensures lo <= x < hi2 {
      if x !in l.up { assert x in l2.up; }
    }
  }

  // ------------------------------------------------------------ pre-order

  /** Every node copied has its children copied. */
  ghost predicate AllCopied(sl: Links, si: map<NodeId, NodeInfo>, l: Links, info: map<NodeId, NodeInfo>, f: map<NodeId, NodeId>)
    requires Keyed(sl, si) && Keyed(l, info)
  {
    (forall x | x in f :: x in sl.up) &&
    forall x {:trigger CopiedNode(sl, si, l, info, f, x)} | x in f :: x in sl.up && CopiedNode(sl, si, l, info, f, x)
  }

  /** The pre-order of a copy is the copy of the pre-order: the copy keeps the shape and the order of the subtree. */
  lemma {:induction false} CopiedPreOrder(sl: Links, si: map<NodeId, NodeInfo>, l: Links, info: map<NodeId, NodeInfo>,
                                          f: map<NodeId, NodeId>, n: NodeId)
    requires Fits(sl, si) && Fits(l, info) && AllCopied(sl, si, l, info, f) && n in f
    ensures n in sl.up && f[n] in l.up && forall k | k in PreOrder(sl, n) :: k in f
    ensures PreOrder(l, f[n]) == MapIds(f, PreOrder(sl, n))
    decreases sl.bound - sl.rank[n], 1
  {
    CopiedPreOrderFrom(sl, si, l, info, f, n, 0);
    MapIdsAppend(f, [n], PreOrderFrom(sl, n, 0));
  }

  lemma {:induction false} CopiedPreOrderFrom(sl: Links, si: map<NodeId, NodeInfo>, l: Links, info: map<NodeId, NodeInfo>,
                                              f: map<NodeId, NodeId>, n: NodeId, i: nat)
    requires Fits(sl, si) && Fits(l, info) && AllCopied(sl, si, l, info, f) && n in f && n in sl.up && i <= |sl.kids[n]|
    ensures f[n] in l.up && |l.kids[f[n]]| == |sl.kids[n]|
    ensures forall k | k in PreOrderFrom(sl, n, i) :: k in f
    ensures PreOrderFrom(l, f[n], i) == MapIds(f, PreOrderFrom(sl, n, i))
    decreases sl.bound - sl.rank[n], 0, |sl.kids[n]| - i
  {
    assert CopiedNode(sl, si, l, info, f, n);
    if i < |sl.kids[n]| {
      var c := sl.kids[n][i];
      ListedChildPoints(sl, n, c);
      assert l.kids[f[n]][i] == f[c];
      CopiedPreOrder(sl, si, l, info, f, c);
      CopiedPreOrderFrom(sl, si, l, info, f, n, i + 1);
      MapIdsAppend(f, PreOrder(sl, c), PreOrderFrom(sl, n, i + 1));
    }
  }

  // -------------------------------------------------------------- lookups

  /** The key `update_lookups` files a node under: its name, or its path. */
  function Key(n: NodeInfo, byPath: bool): string
  {
    if byPath then n.path else n.name
  }

  /** `update_lookups` on one lookup: the nodes of `s`, in order, each filed under its key, so a later node wins a shared key. */
  ghost function Register(lookup: map<string, NodeId>, info: map<NodeId, NodeInfo>, s: seq<NodeId>, byPath: bool): map<string, NodeId>
    requires forall j | 0 <= j < |s| :: s[j] in info
    decreases |s|
  {
    if s == [] then lookup
    else Register(lookup[Key(info[s[0]], byPath) := s[0]], info, s[1..], byPath)
  }

  lemma {:induction false} RegisterAppend(lookup: map<string, NodeId>, info: map<NodeId, NodeInfo>, a: seq<NodeId>, b: seq<NodeId>, byPath: bool)
    requires (forall j | 0 <= j < |a| :: a[j] in info) && forall j | 0 <= j < |b| :: b[j] in info
    ensures Register(lookup, info, a + b, byPath) == Register(Register(lookup, info, a, byPath), info, b, byPath)
    decreases |a|
  {
    if a != [] {
      assert (a + b)[1..] == a[1..] + b;
      assert (a + b)[0] == a[0];
      RegisterAppend(lookup[Key(info[a[0]], byPath) := a[0]], info, a[1..], b, byPath);
    } else {
      assert a + b == b;
    }
  }

  /**
   * What the registered lookup holds: every node of `s` has its key filed,
   * under a node of `s` with that key; every other key keeps its entry.
   */
  lemma {:induction false} RegisterFinds(lookup: map<string, NodeId>, info: map<NodeId, NodeInfo>, s: seq<NodeId>, byPath: bool)
    requires forall j | 0 <= j < |s| :: s[j] in info
    ensures var r := Register(lookup, info, s, byPath);
      forall j | 0 <= j < |s| :: Key(info[s[j]], byPath) in r && r[Key(info[s[j]], byPath)] in s &&
        Key(info[r[Key(info[s[j]], byPath)]], byPath) == Key(info[s[j]], byPath)
    ensures var r := Register(lookup, info, s, byPath);
      forall k | k in r :: k in lookup || (r[k] in s && Key(info[r[k]], byPath) == k)
    ensures var r := Register(lookup, info, s, byPath);
      forall k | k in lookup && (forall j | 0 <= j < |s| :: Key(info[s[j]], byPath) != k) :: k in r && r[k] == lookup[k]
    decreases |s|
  {
    if s != [] {
      var l1 := lookup[Key(info[s[0]], byPath) := s[0]];
      RegisterFinds(l1, info, s[1..], byPath);
      var r := Register(lookup, info, s, byPath);
      assert r == Register(l1, info, s[1..], byPath);
      forall j | 0 <= j < |s|
        ensures Key(info[s[j]], byPath) in r && r[Key(info[s[j]], byPath)] in s &&
          Key(info[r[Key(info[s[j]], byPath)]], byPath) == Key(info[s[j]], byPath)
      {
        if j > 0 { assert s[j] == s[1..][j - 1]; }
      }
    }
  }

  /** A registered lookup still names nodes of the links when `s` does. */
  lemma RegisterInto(lookup: map<string, NodeId>, info: map<NodeId, NodeInfo>, s: seq<NodeId>, byPath: bool, up: map<NodeId, Option<NodeId>>)
    requires forall j | 0 <= j < |s| :: s[j] in info && s[j] in up
    requires LookupInto(lookup, up)
    ensures LookupInto(Register(lookup, info, s, byPath), up)
  {
    RegisterFinds(lookup, info, s, byPath);
  }

  /**
   * `update_lookups(node)`: the node is filed under its name and its path,
   * then the subtree of each child in turn.
   */
  method UpdateLookups(t: Tree, n: NodeId)
    requires Fits(t.links, t.info) && n in t.links.up
    modifies t`nodeLookup, t`pathLookup
    ensures t.nodeLookup == Register(old(t.nodeLookup), t.info, PreOrder(t.links, n), false)
    ensures t.pathLookup == Register(old(t.pathLookup), t.info, PreOrder(t.links, n), true)
    decreases t.links.bound - t.links.rank[n], 1
  {
    t.nodeLookup := t.nodeLookup[t.info[n].name := n];
    t.pathLookup := t.pathLookup[t.info[n].path := n];
    ghost var names, paths := t.nodeLookup, t.pathLookup;
    var i := 0;
    while i < |t.links.kids[n]|
      invariant i <= |t.links.kids[n]|
      invariant Register(t.nodeLookup, t.info, PreOrderFrom(t.links, n, i), false) == Register(names, t.info, PreOrderFrom(t.links, n, 0), false)
      invariant Register(t.pathLookup, t.info, PreOrderFrom(t.links, n, i), true) == Register(paths, t.info, PreOrderFrom(t.links, n, 0), true)
    {
      UpdateKid(t, n, i);
      i := i + 1;
    }
    assert PreOrder(t.links, n)[1..] == PreOrderFrom(t.links, n, 0);
  }

  /** One turn of the children loop of `update_lookups`: the `i`-th child's subtree is filed. */
  method UpdateKid(t: Tree, n: NodeId, i: nat)
    requires Fits(t.links, t.info) && n in t.links.up && i < |t.links.kids[n]|
    modifies t`nodeLookup, t`pathLookup
    ensures Register(t.nodeLookup, t.info, PreOrderFrom(t.links, n, i + 1), false) ==
      Register(old(t.nodeLookup), t.info, PreOrderFrom(t.links, n, i), false)
    ensures Register(t.pathLookup, t.info, PreOrderFrom(t.links, n, i + 1), true) ==
      Register(old(t.pathLookup), t.info, PreOrderFrom(t.links, n, i), true)
    decreases t.links.bound - t.links.rank[n], 0
  {
    var c := t.links.kids[n][i];
    ListedChildPoints(t.links, n, c);
    UpdateLookups(t, c);
    RegisterAppend(old(t.nodeLookup), t.info, PreOrder(t.links, c), PreOrderFrom(t.links, n, i + 1), false);
    RegisterAppend(old(t.pathLookup), t.info, PreOrder(t.links, c), PreOrderFrom(t.links, n, i + 1), true);
  }

  // ------------------------------------------------------------ the copy

  /**
   * `copy_subtree_as_tree(start_node)`: a new tree with the same defaults
   * and filters whose root is the copy of `start`. Its links and attributes
   * copy the subtree node by node, its pre-order is the copy of the
   * subtree's pre-order, and its name and path lookups are the fresh tree's
   * (`root` filed under the discarded first root) with every copy filed in
   * pre-order. The source tree is only read.
   */
  method CopySubtreeAsTree(src: Tree, start: NodeId) returns (dst: Tree, ghost f: map<NodeId, NodeId>)
    requires src.Valid() && start in src.links.up
    ensures fresh(dst) && dst.Valid()
    ensures dst.defaults == src.defaults && dst.filters == src.filters
    ensures start in f && dst.root == f[start] && Copied(src.links, src.info, start, dst.links, dst.info, f, 1, dst.nextId)
    ensures dst.nodeLookup == Register(RootLookup(), dst.info, PreOrder(dst.links, dst.root), false)
    ensures dst.pathLookup == Register(RootLookup(), dst.info, PreOrder(dst.links, dst.root), true)
  {
    dst, f := CopyOf(src.defaults, src.filters, src.links, src.info, start);
  }

  /** The copy, given the source tree's defaults, filters, links and attributes. */
  method CopyOf(defaults: Defaults, filters: Filtering.Filters, sl: Links, si: map<NodeId, NodeInfo>, start: NodeId)
      returns (dst: Tree, ghost f: map<NodeId, NodeId>)
    requires Fits(sl, si) && start in sl.up
    ensures fresh(dst) && dst.Valid()
    ensures dst.defaults == defaults && dst.filters == filters
    ensures start in f && dst.root == f[start] && Copied(sl, si, start, dst.links, dst.info, f, 1, dst.nextId)
    ensures dst.nodeLookup == Register(RootLookup(), dst.info, PreOrder(dst.links, dst.root), false)
    ensures dst.pathLookup == Register(RootLookup(), dst.info, PreOrder(dst.links, dst.root), true)
  {
    dst, f := CopyTree(defaults, filters, sl, si, start);
    FileCopies(dst);
  }

  /** `update_lookups(new_tree.root)` on a valid tree: it stays valid. */
  method FileCopies(t: Tree)
    requires t.Valid()
    modifies t`nodeLookup, t`pathLookup
    ensures t.Valid()
    ensures t.nodeLookup == Register(old(t.nodeLookup), t.info, PreOrder(t.links, t.root), false)
    ensures t.pathLookup == Register(old(t.pathLookup), t.info, PreOrder(t.links, t.root), true)
  {
    RegisterInto(t.nodeLookup, t.info, PreOrder(t.links, t.root), false, t.links.up);
    RegisterInto(t.pathLookup, t.info, PreOrder(t.links, t.root), true, t.links.up);
    UpdateLookups(t, t.root);
  }

  /** `Tree(self.defaults, self.filters)` with `new_tree.root = deep_copy_node(start_node)`, before the lookups are updated. */
  method CopyTree(defaults: Defaults, filters: Filtering.Filters, sl: Links, si: map<NodeId, NodeInfo>, start: NodeId)
      returns (dst: Tree, ghost f: map<NodeId, NodeId>)
    requires Fits(sl, si) && start in sl.up
    ensures fresh(dst) && dst.Valid()
    ensures dst.defaults == defaults && dst.filters == filters
    ensures start in f && dst.root == f[start] && Copied(sl, si, start, dst.links, dst.info, f, 1, dst.nextId)
    ensures dst.nodeLookup == RootLookup() && dst.pathLookup == RootLookup()
  {
    var l, info, hi, m;
    l, info, hi, m, f := CopyBeside(sl, si, start, RootLinks(), RootInfo());
    dst := FreshTree(defaults, filters);
    dst.links := l;
    dst.info := info;
    dst.nextId := hi;
    dst.root := m;
    CopiedSame(sl, si, start, l, info, f, hi, dst.links, dst.info, dst.nextId);
  }

  /** `Copied` of equal arguments. */
  lemma CopiedSame(sl: Links, si: map<NodeId, NodeInfo>, start: NodeId, l: Links, info: map<NodeId, NodeInfo>,
                   f: map<NodeId, NodeId>, hi: NodeId, l2: Links, info2: map<NodeId, NodeInfo>, hi2: NodeId)
    requires Fits(sl, si) && start in sl.up && Keyed(l, info) && Copied(sl, si, start, l, info, f, 1, hi)
    requires l2 == l && info2 == info && hi2 == hi
    ensures Keyed(l2, info2) && Copied(sl, si, start, l2, info2, f, 1, hi2)
  {
  }

  /** `Tree(self.defaults, self.filters)`, of which only the lookups are kept. */
  method FreshTree(defaults: Defaults, filters: Filtering.Filters) returns (t: Tree)
    ensures fresh(t) && t.defaults == defaults && t.filters == filters
    ensures t.nodeLookup == RootLookup() && t.pathLookup == RootLookup() && t.virtualImageLookup == RootLookup()
  {
    t := new Tree(defaults, filters);
  }

  /** The copy made beside the lone root `0` of a fresh tree, from id 1 on. */
  method CopyBeside(sl: Links, si: map<NodeId, NodeInfo>, start: NodeId, l0: Links, i0: map<NodeId, NodeInfo>)
      returns (l: Links, info: map<NodeId, NodeInfo>, hi: NodeId, m: NodeId, ghost f: map<NodeId, NodeId>)
    requires Fits(sl, si) && start in sl.up && Fits(l0, i0) && l0.up == map[0 := None]
    ensures Fits(l, info) && IdsBelow(l.up, hi) && 0 in l.up && m in l.up && l.up[m].None?
    ensures start in f && m == f[start] && Copied(sl, si, start, l, info, f, 1, hi)
  {
    l, info, hi, m, f := CopyInto(sl, si, start, l0, i0, 1);
  }

  /** The copy keeps the shape and the order of the subtree: its pre-order is the copy of the subtree's. */
  lemma CopyShape(sl: Links, si: map<NodeId, NodeInfo>, start: NodeId, l: Links, info: map<NodeId, NodeInfo>,
                  f: map<NodeId, NodeId>, lo: NodeId, hi: NodeId)
    requires Fits(sl, si) && start in sl.up && Fits(l, info) && Copied(sl, si, start, l, info, f, lo, hi) && start in f
    ensures f[start] in l.up && PreOrder(l, f[start]) == MapIds(f, PreOrder(sl, start))
  {
    CopiedPreOrder(sl, si, l, info, f, start);
  }

  /**
   * Every node of the copied subtree can be found in the new tree by its
   * name and by its path, each time at a copy carrying that name or path.
   */
  lemma CopyFiles(sl: Links, si: map<NodeId, NodeInfo>, start: NodeId, l: Links, info: map<NodeId, NodeInfo>,
                  f: map<NodeId, NodeId>, lo: NodeId, hi: NodeId, lookup: map<string, NodeId>, byPath: bool)
    requires Fits(sl, si) && start in sl.up && Fits(l, info) && Copied(sl, si, start, l, info, f, lo, hi) && start in f
    ensures f[start] in l.up
    ensures forall y | y in PreOrder(sl, start) ::
      var r := Register(lookup, info, PreOrder(l, f[start]), byPath);
      Key(si[y], byPath) in r && r[Key(si[y], byPath)] in PreOrder(l, f[start]) &&
      Key(info[r[Key(si[y], byPath)]], byPath) == Key(si[y], byPath)
  {
    CopyShape(sl, si, start, l, info, f, lo, hi);
    var s := PreOrder(l, f[start]);
    var ps := PreOrder(sl, start);
    RegisterFinds(lookup, info, s, byPath);
    forall y | y in ps
      ensures var r := Register(lookup, info, s, byPath);
        Key(si[y], byPath) in r && r[Key(si[y], byPath)] in s && Key(info[r[Key(si[y], byPath)]], byPath) == Key(si[y], byPath)
    {
      var j :| 0 <= j < |ps| && ps[j] == y;
      assert s[j] == f[y];
      assert CopiedNode(sl, si, l, info, f, y);
    }
  }
}
