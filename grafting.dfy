/**
 * Grafting (`slideshow/tree/Grafting.py`) and the two helpers of the
 * slideshow tree it relies on, `set_proportion` and `copy_subtree_as_tree`
 * (`slideshow/tree/Tree.py`), on top of the tree of `TreeModel`.
 *
 * `handle_grafting` moves the node registered under a path to the level a
 * group or the caller asks for: the path is re-levelled, the parent chain of
 * the new name is ensured, the node is detached and appended below it,
 * renamed with its whole subtree, the emptied old ancestors are pruned and
 * the group's mode modifiers and proportion are applied.
 */
module Grafting {
  import opened Common
  import opened Paths
  import opened Modes
  import opened Nodes
  import opened TreeModel

  // ------------------------------------------------------- graft level

  /** The `graft_level` a group bundle stores, None when the group is unknown. */
  function GroupGraftLevel(groups: map<string, GroupConfig>, group: Option<string>): Option<int>
  {
    if group.Some? && group.value in groups then groups[group.value].graftLevel else None
  }

  /** Python truthiness of an optional level: set and not 0. */
  predicate Truthy(v: Option<int>)
  {
    v.Some? && v.value != 0
  }

  /**
   * `graft_level or group_graft_level`, None when the outcome is falsy (the
   * grafting then stops): the explicit level wins unless it is unset or 0.
   */
  function GraftLevel(groups: map<string, GroupConfig>, graftLevel: Option<int>, group: Option<string>): (r: Option<int>)
    ensures r.Some? <==> Truthy(graftLevel) || Truthy(GroupGraftLevel(groups, group))
    ensures r.Some? ==> r.value != 0
    ensures Truthy(graftLevel) ==> r == graftLevel
    ensures !Truthy(graftLevel) && r.Some? ==> r == GroupGraftLevel(groups, group)
  {
    if Truthy(graftLevel) then graftLevel
    else if Truthy(GroupGraftLevel(groups, group)) then GroupGraftLevel(groups, group)
    else None
  }

  // ----------------------------------------------------------- pruning

  /** What the prune walk leaves: the links, the name lookup, the removed nodes in walk order and the node it stopped at. */
  datatype Pruning = Pruning(links: Links, lookup: map<string, NodeId>, gone: seq<NodeId>, stop: Option<NodeId>)

  /** The prune walk removes a node other than the root with neither images nor children. */
  predicate Prunable(l: Links, info: map<NodeId, NodeInfo>, root: NodeId, n: NodeId)
    requires Fits(l, info) && n in l.up
  {
    n != root && info[n].images == [] && l.kids[n] == []
  }

  /**
   * The prune loop of `handle_grafting` from `m` upwards: a prunable node
   * leaves its parent's children (its own parent link stays) and its name
   * leaves the lookup, and the walk goes on with its parent.
   */
  ghost function Pruned(l: Links, info: map<NodeId, NodeInfo>, lookup: map<string, NodeId>, root: NodeId, m: Option<NodeId>): (r: Pruning)
    requires Fits(l, info) && (m.Some? ==> m.value in l.up)
    ensures Wf(r.links) && r.links.up == l.up && r.links.rank == l.rank && r.links.kids.Keys == l.kids.Keys
    ensures forall x | x in r.gone :: x in l.up
    ensures r.stop.Some? ==> r.stop.value in l.up
    decreases if m.Some? then l.rank[m.value] + 1 else 0
  {
    if m.None? || !Prunable(l, info, root, m.value) then Pruning(l, lookup, [], m)
    else
      var n := m.value;
      var l1 := if l.up[n].Some? then Unlist(l, l.up[n].value, n) else l;
      var r := Pruned(l1, info, lookup - {info[n].name}, root, l.up[n]);
      Pruning(r.links, r.lookup, [n] + r.gone, r.stop)
  }

  /** The names of the removed nodes. */
  ghost function NamesOf(info: map<NodeId, NodeInfo>, s: seq<NodeId>): set<string>
    requires forall x | x in s :: x in info
  {
    if s == [] then {} else {info[s[0]].name} + NamesOf(info, s[1..])
  }

  lemma MinusTwice(m: map<string, NodeId>, a: string, b: set<string>)
    ensures (m - {a}) - b == m - ({a} + b)
  {
  }

  /** The prune walk pops the first node of `m`'s walk and carries on from its parent. */
  lemma PrunedUnfold(l: Links, info: map<NodeId, NodeInfo>, lookup: map<string, NodeId>, root: NodeId, n: NodeId)
    requires Fits(l, info) && n in l.up && Prunable(l, info, root, n)
    ensures var l1 := if l.up[n].Some? then Unlist(l, l.up[n].value, n) else l;
      var q := Pruned(l1, info, lookup - {info[n].name}, root, l.up[n]);
      var r := Pruned(l, info, lookup, root, Some(n));
      r.links == q.links && r.lookup == q.lookup && r.gone == [n] + q.gone && r.stop == q.stop &&
      l1.kids[n] == [] && Fits(l1, info) && l1.up == l.up
  {
    if l.up[n].Some? { assert l.up[n].value != n; }
  }

  /** The lookup loses exactly the names of the removed nodes. */
  lemma {:induction false} PrunedLookup(l: Links, info: map<NodeId, NodeInfo>, lookup: map<string, NodeId>, root: NodeId, m: Option<NodeId>)
    requires Fits(l, info) && (m.Some? ==> m.value in l.up)
    ensures var r := Pruned(l, info, lookup, root, m); r.lookup == lookup - NamesOf(info, r.gone)
    decreases if m.Some? then l.rank[m.value] + 1 else 0
  {
    if m.Some? && Prunable(l, info, root, m.value) {
      var n := m.value;
      var l1 := if l.up[n].Some? then Unlist(l, l.up[n].value, n) else l;
      var lk1 := lookup - {info[n].name};
      PrunedUnfold(l, info, lookup, root, n);
      PrunedLookup(l1, info, lk1, root, l.up[n]);
      var q := Pruned(l1, info, lk1, root, l.up[n]);
      assert ([n] + q.gone)[1..] == q.gone;
      MinusTwice(lookup, info[n].name, NamesOf(info, q.gone));
    }
  }

  lemma WithinEmpty(s: seq<NodeId>, t: seq<NodeId>)
    requires t == []
    ensures (forall c | c in s :: c in t) ==> s == []
  {
    if s != [] {
      assert s[0] !in t;
    }
  }

  /** Every removed node is an empty node other than the root, and it ends up childless. */
  lemma {:induction false} PrunedEmptied(l: Links, info: map<NodeId, NodeInfo>, lookup: map<string, NodeId>, root: NodeId, m: Option<NodeId>)
    requires Fits(l, info) && (m.Some? ==> m.value in l.up)
    ensures var r := Pruned(l, info, lookup, root, m);
      forall x | x in r.gone :: x != root && info[x].images == [] && r.links.kids[x] == []
    decreases if m.Some? then l.rank[m.value] + 1 else 0
  {
    if m.Some? && Prunable(l, info, root, m.value) {
      var n := m.value;
      var l1 := if l.up[n].Some? then Unlist(l, l.up[n].value, n) else l;
      var lk1 := lookup - {info[n].name};
      PrunedUnfold(l, info, lookup, root, n);
      PrunedEmptied(l1, info, lk1, root, l.up[n]);
      PrunedShrinks(l1, info, lk1, root, l.up[n]);
      var q := Pruned(l1, info, lk1, root, l.up[n]);
      WithinEmpty(q.links.kids[n], l1.kids[n]);
    }
  }

  /** Children lists only lose entries. */
  lemma {:induction false} PrunedShrinks(l: Links, info: map<NodeId, NodeInfo>, lookup: map<string, NodeId>, root: NodeId, m: Option<NodeId>)
    requires Fits(l, info) && (m.Some? ==> m.value in l.up)
    ensures var r := Pruned(l, info, lookup, root, m);
      forall x | x in l.kids :: forall c | c in r.links.kids[x] :: c in l.kids[x]
    decreases if m.Some? then l.rank[m.value] + 1 else 0
  {
    if m.Some? && Prunable(l, info, root, m.value) {
      var n := m.value;
      var l1 := if l.up[n].Some? then Unlist(l, l.up[n].value, n) else l;
      var lk1 := lookup - {info[n].name};
      PrunedUnfold(l, info, lookup, root, n);
      PrunedShrinks(l1, info, lk1, root, l.up[n]);
    }
  }

  /** The entries children lists lose are removed nodes. */
  lemma {:induction false} PrunedOnlyGone(l: Links, info: map<NodeId, NodeInfo>, lookup: map<string, NodeId>, root: NodeId, m: Option<NodeId>)
    requires Fits(l, info) && (m.Some? ==> m.value in l.up)
    ensures var r := Pruned(l, info, lookup, root, m);
      forall x | x in l.kids :: forall c | c in l.kids[x] && c !in r.links.kids[x] :: c in r.gone
    decreases if m.Some? then l.rank[m.value] + 1 else 0
  {
    if m.Some? && Prunable(l, info, root, m.value) {
      var n := m.value;
      var l1 := if l.up[n].Some? then Unlist(l, l.up[n].value, n) else l;
      var lk1 := lookup - {info[n].name};
      PrunedUnfold(l, info, lookup, root, n);
      PrunedOnlyGone(l1, info, lk1, root, l.up[n]);
    }
  }

  /** Each node of `s` has the next one as its parent. */
  ghost predicate Chained(up: map<NodeId, Option<NodeId>>, s: seq<NodeId>)
  {
    |s| <= 1 || (s[0] in up && up[s[0]] == Some(s[1]) && Chained(up, s[1..]))
  }

  /** The removed nodes are the walk up the parent links from `m`, one after the other. */
  lemma {:induction false} PrunedChain(l: Links, info: map<NodeId, NodeInfo>, lookup: map<string, NodeId>, root: NodeId, m: Option<NodeId>)
    requires Fits(l, info) && (m.Some? ==> m.value in l.up)
    ensures var r := Pruned(l, info, lookup, root, m);
      (|r.gone| > 0 ==> m == Some(r.gone[0])) && Chained(l.up, r.gone)
    decreases if m.Some? then l.rank[m.value] + 1 else 0
  {
    if m.Some? && Prunable(l, info, root, m.value) {
      var n := m.value;
      var l1 := if l.up[n].Some? then Unlist(l, l.up[n].value, n) else l;
      var lk1 := lookup - {info[n].name};
      PrunedUnfold(l, info, lookup, root, n);
      PrunedChain(l1, info, lk1, root, l.up[n]);
      var q := Pruned(l1, info, lk1, root, l.up[n]);
      assert ([n] + q.gone)[1..] == q.gone;
    }
  }

  /** The walk ends at the parent of the last removed node, or at `m` when nothing was removed. */
  lemma {:induction false} PrunedEnd(l: Links, info: map<NodeId, NodeInfo>, lookup: map<string, NodeId>, root: NodeId, m: Option<NodeId>)
    requires Fits(l, info) && (m.Some? ==> m.value in l.up)
    ensures var r := Pruned(l, info, lookup, root, m);
      r.stop == (if |r.gone| == 0 then m else l.up[r.gone[|r.gone| - 1]])
    decreases if m.Some? then l.rank[m.value] + 1 else 0
  {
    if m.Some? && Prunable(l, info, root, m.value) {
      var n := m.value;
      var l1 := if l.up[n].Some? then Unlist(l, l.up[n].value, n) else l;
      var lk1 := lookup - {info[n].name};
      PrunedUnfold(l, info, lookup, root, n);
      PrunedEnd(l1, info, lk1, root, l.up[n]);
    }
  }

  /** The walk stops at nothing, at the root or at a node that still has images or children. */
  lemma {:induction false} PrunedStops(l: Links, info: map<NodeId, NodeInfo>, lookup: map<string, NodeId>, root: NodeId, m: Option<NodeId>)
    requires Fits(l, info) && (m.Some? ==> m.value in l.up)
    ensures var r := Pruned(l, info, lookup, root, m);
      r.stop.None? || !Prunable(r.links, info, root, r.stop.value)
    decreases if m.Some? then l.rank[m.value] + 1 else 0
  {
    if m.Some? && Prunable(l, info, root, m.value) {
      var n := m.value;
      var l1 := if l.up[n].Some? then Unlist(l, l.up[n].value, n) else l;
      var lk1 := lookup - {info[n].name};
      PrunedUnfold(l, info, lookup, root, n);
      PrunedStops(l1, info, lk1, root, l.up[n]);
    }
  }

  /** One removal of the prune loop: `n` leaves its parent's children and its name leaves the lookup. */
  method PruneOne(t: Tree, n: NodeId) returns (parent: Option<NodeId>)
    requires t.Valid() && n in t.links.up
    modifies t`links, t`nodeLookup
    ensures t.Valid() && parent == t.links.up[n]
    ensures t.links == (if parent.Some? then Unlist(old(t.links), parent.value, n) else old(t.links))
    ensures t.nodeLookup == old(t.nodeLookup) - {t.info[n].name}
  {
    parent := t.links.up[n];
    if parent.Some? {
      t.links := Unlist(t.links, parent.value, n);
    }
    t.nodeLookup := t.nodeLookup - {t.info[n].name};
  }

  /** The prune loop of `handle_grafting`, from the old parent of the grafted node. */
  method PruneEmpty(t: Tree, start: Option<NodeId>)
    requires t.Valid() && (start.Some? ==> start.value in t.links.up)
    modifies t`links, t`nodeLookup
    ensures t.Valid()
    ensures var p := Pruned(old(t.links), t.info, old(t.nodeLookup), t.root, start);
      t.links == p.links && t.nodeLookup == p.lookup
  {
    ghost var target := Pruned(t.links, t.info, t.nodeLookup, t.root, start);
    var node := start;
    while node.Some? && Prunable(t.links, t.info, t.root, node.value)
      invariant t.Valid() && (node.Some? ==> node.value in t.links.up)
      invariant LeadsTo(Pruned(t.links, t.info, t.nodeLookup, t.root, node), target)
      decreases if node.Some? then t.links.rank[node.value] + 1 else 0
    {
      node := PruneStep(t, node.value, target);
    }
    PrunedHalted(t.links, t.info, t.nodeLookup, t.root, node);
  }

  /** The prune walk from a node it does not remove changes nothing. */
  lemma PrunedHalted(l: Links, info: map<NodeId, NodeInfo>, lookup: map<string, NodeId>, root: NodeId, m: Option<NodeId>)
    requires Fits(l, info) && (m.Some? ==> m.value in l.up)
    requires m.None? || !Prunable(l, info, root, m.value)
    ensures Pruned(l, info, lookup, root, m) == Pruning(l, lookup, [], m)
  {
  }

  /** Two prune walks end with the same links and name lookup. */
  ghost predicate LeadsTo(p: Pruning, target: Pruning)
  {
    p.links == target.links && p.lookup == target.lookup
  }

  /** One turn of the prune loop: the walk from the parent ends where the walk from `n` did. */
  method PruneStep(t: Tree, n: NodeId, ghost target: Pruning) returns (next: Option<NodeId>)
    requires t.Valid() && n in t.links.up && Prunable(t.links, t.info, t.root, n)
    requires LeadsTo(Pruned(t.links, t.info, t.nodeLookup, t.root, Some(n)), target)
    modifies t`links, t`nodeLookup
    ensures t.Valid() && (next.Some? ==> next.value in t.links.up)
    ensures LeadsTo(Pruned(t.links, t.info, t.nodeLookup, t.root, next), target)
    ensures t.links.rank == old(t.links.rank) && (next.Some? ==> t.links.rank[next.value] < old(t.links.rank[n]))
  {
    PrunedUnfold(t.links, t.info, t.nodeLookup, t.root, n);
    next := PruneOne(t, n);
  }

  // ---------------------------------------------------- mode modifiers

  /** The attributes after `child.mode_modifier = {k: e}` on every node listed in `ns`. */
  ghost function Marked(info: map<NodeId, NodeInfo>, ns: seq<NodeId>, k: int, e: ModeEntry): (r: map<NodeId, NodeInfo>)
    ensures r.Keys == info.Keys
  {
    map m | m in info :: if m in ns then info[m].(modeModifier := Some(map[k := e])) else info[m]
  }

  /**
   * The attributes after the mode modifiers of the levels in `done` are applied:
   * a node of the subtree of `top` at such a level holds exactly that level's entry.
   */
  ghost function Modified(l: Links, info: map<NodeId, NodeInfo>, top: NodeId, mm: ModeTable, done: set<int>): (r: map<NodeId, NodeInfo>)
    requires Fits(l, info) && top in l.up
    ensures r.Keys == info.Keys
  {
    map m | m in info ::
      if m in PreOrder(l, top) && Level(l, m) in done && Level(l, m) in mm
      then info[m].(modeModifier := Some(map[Level(l, m) := mm[Level(l, m)]]))
      else info[m]
  }

  /** Only mode modifiers change, and each to the one-level table of the node's own level. */
  lemma ModifiedOnly(l: Links, info: map<NodeId, NodeInfo>, top: NodeId, mm: ModeTable, done: set<int>)
    requires Fits(l, info) && top in l.up
    ensures var r := Modified(l, info, top, mm, done);
      (forall m | m in info :: r[m] == info[m].(modeModifier := r[m].modeModifier)) &&
      (forall m | m in info && r[m] != info[m] :: Level(l, m) in mm && r[m].modeModifier == Some(map[Level(l, m) := mm[Level(l, m)]]))
  {
  }

  /** Nodes outside the subtree of `top` keep their attributes. */
  lemma ModifiedOutside(l: Links, info: map<NodeId, NodeInfo>, top: NodeId, mm: ModeTable, done: set<int>)
    requires Fits(l, info) && top in l.up
    ensures var r := Modified(l, info, top, mm, done);
      forall m | m in info && !Reaches(l, m, top) :: r[m] == info[m]
  {
    forall m | m in info && m in PreOrder(l, top) ensures Reaches(l, m, top) {
      PreOrderBelow(l, top, m);
    }
  }

  /** `for child in current_node.get_nodes_at_level(level): child.mode_modifier = {level: mode}` */
  method MarkLevel(t: Tree, ns: seq<NodeId>, k: int, e: ModeEntry)
    requires forall i | 0 <= i < |ns| :: ns[i] in t.info
    modifies t`info
    ensures t.info == Marked(old(t.info), ns, k, e)
  {
    ghost var info0 := t.info;
    for i := 0 to |ns|
      invariant t.info == Marked(info0, ns[..i], k, e)
    {
      assert forall m :: m in ns[..i + 1] <==> m in ns[..i] || m == ns[i];
      t.info := t.info[ns[i] := t.info[ns[i]].(modeModifier := Some(map[k := e]))];
    }
    assert ns[..|ns|] == ns;
  }

  /** Applying one more level's modifier moves `Modified` from `done` to `done + {k}`. */
  lemma ModifiedStep(l: Links, info: map<NodeId, NodeInfo>, top: NodeId, mm: ModeTable, done: set<int>, k: int)
    requires Fits(l, info) && top in l.up && k in mm && k !in done
    ensures Marked(Modified(l, info, top, mm, done), NodesAtLevel(l, top, k), k, mm[k]) == Modified(l, info, top, mm, done + {k})
  {
    var after := Marked(Modified(l, info, top, mm, done), NodesAtLevel(l, top, k), k, mm[k]);
    var goal := Modified(l, info, top, mm, done + {k});
    forall x | x in info ensures after[x] == goal[x] {
      ModifiedStepAt(l, info, top, mm, done, k, x);
    }
  }

  lemma ModifiedStepAt(l: Links, info: map<NodeId, NodeInfo>, top: NodeId, mm: ModeTable, done: set<int>, k: int, x: NodeId)
    requires Fits(l, info) && top in l.up && k in mm && k !in done && x in info
    ensures Marked(Modified(l, info, top, mm, done), NodesAtLevel(l, top, k), k, mm[k])[x] == Modified(l, info, top, mm, done + {k})[x]
  {
    NodesAtLevelIsPreOrder(l, top, k);
    AtLevelMembers(l, PreOrder(l, top), k, x);
  }

  /** One level of the mode-modifier loop: the subtree nodes at level `k` take that level's entry. */
  method ApplyLevel(t: Tree, top: NodeId, mm: ModeTable, k: int, ghost info0: map<NodeId, NodeInfo>, ghost done: set<int>)
    requires Fits(t.links, info0) && top in t.links.up && k in mm && k !in done
    requires t.info == Modified(t.links, info0, top, mm, done)
    modifies t`info
    ensures t.info == Modified(t.links, info0, top, mm, done + {k})
  {
    var ns := NodesAtLevel(t.links, top, k);
    MarkLevel(t, ns, k, mm[k]);
    ModifiedStep(t.links, info0, top, mm, done, k);
  }

  lemma ModifiedNone(l: Links, info: map<NodeId, NodeInfo>, top: NodeId, mm: ModeTable)
    requires Fits(l, info) && top in l.up
    ensures Modified(l, info, top, mm, {}) == info
  {
  }

  /**
   * The mode-modifier loop of `handle_grafting`: every level of the group's
   * table, in any order, marks the subtree nodes at that level. Levels are
   * disjoint, so the order of the table does not matter.
   */
  method ApplyModeModifiers(t: Tree, top: NodeId, mm: ModeTable)
    requires Fits(t.links, t.info) && top in t.links.up
    modifies t`info
    ensures t.info == Modified(t.links, old(t.info), top, mm, mm.Keys)
  {
    ghost var info0 := t.info;
    ModifiedNone(t.links, info0, top, mm);
    var todo := mm.Keys;
    while todo != {}
      invariant todo <= mm.Keys
      invariant t.info == Modified(t.links, info0, top, mm, mm.Keys - todo)
      decreases |todo|
    {
      ghost var some := Pick(todo);
      var k :| k in todo;
      ApplyLevel(t, top, mm, k, info0, mm.Keys - todo);
      DoneGrows(mm.Keys, todo, k);
      todo := todo - {k};
    }
  }

  // ---------------------------------------------------- set_proportion

  /**
   * The level `set_proportion` writes at: the group's graft level if set,
   * else the smallest mode-modifier level. Child graft levels never count:
   * the enkan `TreeNode` has no `graft_level` attribute.
   */
  function EffectiveLevel(c: GroupConfig): (r: Option<int>)
    ensures c.graftLevel.Some? ==> r == c.graftLevel
    ensures c.graftLevel.None? ==> (r.Some? <==> c.modeModifier != map[])
    ensures c.graftLevel.None? && r.Some? ==> r.value in c.modeModifier && forall k | k in c.modeModifier :: r.value <= k
  {
    if c.graftLevel.Some? then c.graftLevel
    else if c.modeModifier != map[] then Some(MinKey(c.modeModifier))
    else None
  }

  /** The walk of `set_proportion`: up while the level is above the target, then the node if it is exactly there. */
  function AncestorAt(l: Links, n: NodeId, level: int): (r: Option<NodeId>)
    requires Wf(l) && n in l.up
    ensures r.Some? ==> r.value in l.up
    decreases l.rank[n]
  {
    if Level(l, n) > level && l.up[n].Some? then AncestorAt(l, l.up[n].value, level)
    else if Level(l, n) == level then Some(n)
    else None
  }

  /** An ancestor is never deeper than its descendant. */
  lemma {:induction false} ReachesLevel(l: Links, n: NodeId, a: NodeId)
    requires Wf(l) && n in l.up && Reaches(l, n, a)
    ensures a in l.up && Level(l, a) <= Level(l, n)
    decreases l.rank[n]
  {
    if n != a {
      ReachesLevel(l, l.up[n].value, a);
    }
  }

  /** The walk finds `a` exactly when `a` is an ancestor (or the node itself) at the target level. */
  lemma {:induction false} AncestorAtExactly(l: Links, n: NodeId, level: int, a: NodeId)
    requires Wf(l) && n in l.up && a in l.up
    ensures AncestorAt(l, n, level) == Some(a) <==> Reaches(l, n, a) && Level(l, a) == level
    decreases l.rank[n]
  {
    if l.up[n].Some? {
      var p := l.up[n].value;
      AncestorAtExactly(l, p, level, a);
      if Reaches(l, n, a) && n != a {
        ReachesLevel(l, p, a);
      }
    }
  }

  /** The attributes after `set_proportion(group, current)`. */
  ghost function ProportionSet(l: Links, info: map<NodeId, NodeInfo>, groups: map<string, GroupConfig>,
                               group: Option<string>, current: NodeId): (r: map<NodeId, NodeInfo>)
    requires Fits(l, info) && current in l.up
    ensures r.Keys == info.Keys
  {
    if group.Some? && group.value in groups && groups[group.value].proportion.Some? &&
       EffectiveLevel(groups[group.value]).Some? &&
       AncestorAt(l, current, EffectiveLevel(groups[group.value]).value).Some?
    then
      var a := AncestorAt(l, current, EffectiveLevel(groups[group.value]).value).value;
      info[a := info[a].(proportion := Some(groups[group.value].proportion.value as real))]
    else info
  }

  /**
   * `set_proportion` writes the group's proportion on the ancestor of
   * `current` at the effective level and on no other node, and changes
   * nothing when the group has no proportion or no ancestor sits at exactly
   * that level.
   */
  lemma ProportionSetOnly(l: Links, info: map<NodeId, NodeInfo>, groups: map<string, GroupConfig>,
                          group: Option<string>, current: NodeId)
    requires Fits(l, info) && current in l.up
    ensures var r := ProportionSet(l, info, groups, group, current);
      (forall m | m in info && r[m] != info[m] ::
        m in l.up && group.Some? && group.value in groups && groups[group.value].proportion.Some? &&
        EffectiveLevel(groups[group.value]).Some? &&
        Reaches(l, current, m) && Level(l, m) == EffectiveLevel(groups[group.value]).value &&
        r[m] == info[m].(proportion := Some(groups[group.value].proportion.value as real))) &&
      (group.Some? && group.value in groups && groups[group.value].proportion.None? ==> r == info)
  {
    var r := ProportionSet(l, info, groups, group, current);
    forall m | m in info && r[m] != info[m]
      ensures Reaches(l, current, m) && Level(l, m) == EffectiveLevel(groups[group.value]).value
    {
      AncestorAtExactly(l, current, EffectiveLevel(groups[group.value]).value, m);
    }
  }

  /** The walk of `set_proportion`, with `level` recomputed at every step. */
  method WalkToLevel(l: Links, current: NodeId, target: int) returns (node: Option<NodeId>)
    requires Wf(l) && current in l.up
    ensures node == AncestorAt(l, current, target)
  {
    node := Some(current);
    var level := LevelWalk(l, current);
    while node.Some? && level > target
      invariant node.Some? ==> node.value in l.up && level == Level(l, node.value)
      invariant node.Some? ==> AncestorAt(l, node.value, target) == AncestorAt(l, current, target)
      invariant node.None? ==> AncestorAt(l, current, target).None?
      decreases if node.Some? then l.rank[node.value] + 1 else 0
    {
      node := l.up[node.value];
      if node.Some? {
        level := LevelWalk(l, node.value);
      }
    }
    if node.Some? && level != target {
      node := None;
    }
  }

  /** `set_proportion(group, current_node)`: nothing without a group proportion or an effective level. */
  method SetProportion(t: Tree, group: Option<string>, current: NodeId)
    requires Fits(t.links, t.info) && current in t.links.up
    modifies t`info
    ensures t.info == ProportionSet(t.links, old(t.info), t.defaults.groups, group, current)
  {
    if group.None? || group.value !in t.defaults.groups {
      return;
    }
    var config := t.defaults.groups[group.value];
    if config.proportion.None? {
      return;
    }
    var effective := EffectiveLevel(config);
    if effective.None? {
      return;
    }
    var node := WalkToLevel(t.links, current, effective.value);
    if node.Some? {
      t.info := t.info[node.value := t.info[node.value].(proportion := Some(config.proportion.value as real))];
    }
  }

  // -------------------------------------------------- handle_grafting

  /** The attributes after the group bundle is applied to the grafted node `c`. */
  ghost function GroupApplied(l: Links, info: map<NodeId, NodeInfo>, groups: map<string, GroupConfig>,
                              group: Option<string>, c: NodeId): (r: map<NodeId, NodeInfo>)
    requires Fits(l, info) && c in l.up
    ensures r.Keys == info.Keys
  {
    if group.Some? && group.value in groups then
      var mm := groups[group.value].modeModifier;
      ProportionSet(l, if mm != map[] then Modified(l, info, c, mm, mm.Keys) else info, groups, group, c)
    else info
  }

  /** Applying the group bundle touches only mode modifiers and proportions. */
  lemma GroupAppliedOnly(l: Links, info: map<NodeId, NodeInfo>, groups: map<string, GroupConfig>, group: Option<string>, c: NodeId)
    requires Fits(l, info) && c in l.up
    ensures var r := GroupApplied(l, info, groups, group, c);
      forall m | m in info :: r[m] == info[m].(modeModifier := r[m].modeModifier, proportion := r[m].proportion)
  {
    if group.Some? && group.value in groups {
      var mm := groups[group.value].modeModifier;
      if mm != map[] {
        ModifiedOnly(l, info, c, mm, mm.Keys);
      }
    }
  }

  /** The group part of `handle_grafting`: mode modifiers when the table is non-empty, then `set_proportion`. */
  method ApplyGroup(t: Tree, c: NodeId, group: Option<string>)
    requires t.Valid() && c in t.links.up
    modifies t`info
    ensures t.Valid()
    ensures t.info == GroupApplied(t.links, old(t.info), t.defaults.groups, group, c)
    ensures t.info[c].path == old(t.info)[c].path
  {
    GroupAppliedOnly(t.links, t.info, t.defaults.groups, group, c);
    if group.Some? && group.value in t.defaults.groups {
      var mm := t.defaults.groups[group.value].modeModifier;
      if mm != map[] {
        ApplyModeModifiers(t, c, mm);
      }
      SetProportion(t, group, c);
    }
  }

  /** Walking up over links that differ only in the parent of `c` reaches `c` only if the old links did. */
  lemma {:induction false} ReachesOtherParent(l: Links, l2: Links, q: NodeId, c: NodeId)
    requires Wf(l) && Wf(l2) && q in l.up && q in l2.up && l.up.Keys == l2.up.Keys
    requires forall x | x in l.up && x != c :: l2.up[x] == l.up[x]
    requires Reaches(l2, q, c)
    ensures Reaches(l, q, c)
    decreases l2.rank[q]
  {
    if q != c {
      ReachesOtherParent(l, l2, l2.up[q].value, c);
    }
  }

  /** `Reaches` depends only on the parent links. */
  lemma {:induction false} ReachesSameUp(l: Links, l2: Links, q: NodeId, a: NodeId)
    requires Wf(l) && Wf(l2) && q in l.up && l2.up == l.up
    ensures Reaches(l2, q, a) == Reaches(l, q, a)
    decreases l.rank[q]
  {
    if q != a && l.up[q].Some? {
      ReachesSameUp(l, l2, l.up[q].value, a);
    }
  }

  /** Dropping another node keeps the last entry of a list. */
  lemma RemoveKeepsLast(s: seq<NodeId>, n: NodeId, c: NodeId)
    requires LastIs(s, c) && n != c
    ensures LastIs(Remove(s, n), c)
  {
    if |s| > 1 {
      RemoveKeepsLast(s[1..], n, c);
    }
  }

  /** `c` is the last entry of `s`. */
  predicate LastIs(s: seq<NodeId>, c: NodeId)
  {
    |s| > 0 && s[|s| - 1] == c
  }

  /** Pruning from a node below which `c` does not lie keeps `c` as the last child of `x`. */
  lemma {:induction false} PrunedKeepsLast(l: Links, info: map<NodeId, NodeInfo>, lookup: map<string, NodeId>, root: NodeId,
                                           m: Option<NodeId>, x: NodeId, c: NodeId)
    requires Fits(l, info) && (m.Some? ==> m.value in l.up && !Reaches(l, m.value, c))
    requires x in l.kids && LastIs(l.kids[x], c)
    ensures LastIs(Pruned(l, info, lookup, root, m).links.kids[x], c)
    decreases if m.Some? then l.rank[m.value] + 1 else 0, 1
  {
    if m.Some? && Prunable(l, info, root, m.value) {
      PrunedKeepsLastStep(l, info, lookup, root, m.value, x, c);
    }
  }

  /** One pruned node: the step of `PrunedKeepsLast`. */
  lemma {:induction false} PrunedKeepsLastStep(l: Links, info: map<NodeId, NodeInfo>, lookup: map<string, NodeId>, root: NodeId,
                                               n: NodeId, x: NodeId, c: NodeId)
    requires Fits(l, info) && n in l.up && !Reaches(l, n, c) && Prunable(l, info, root, n)
    requires x in l.kids && LastIs(l.kids[x], c)
    ensures LastIs(Pruned(l, info, lookup, root, Some(n)).links.kids[x], c)
    decreases l.rank[n] + 1, 0
  {
    assert n != c;
    var l1 := if l.up[n].Some? then Unlist(l, l.up[n].value, n) else l;
    var lk1 := lookup - {info[n].name};
    PrunedUnfold(l, info, lookup, root, n);
    if l.up[n].Some? {
      if l.up[n].value == x {
        RemoveKeepsLast(l.kids[x], n, c);
      }
      ReachesSameUp(l, l1, l.up[n].value, c);
    }
    PrunedKeepsLast(l1, info, lk1, root, l.up[n], x, c);
    var q := Pruned(l1, info, lk1, root, l.up[n]);
    assert Pruned(l, info, lookup, root, Some(n)).links.kids[x] == q.links.kids[x];
  }

  /** The old parent of a node does not lie below it. */
  lemma ParentNotBelow(l: Links, c: NodeId)
    requires Wf(l) && c in l.up && l.up[c].Some?
    ensures !Reaches(l, l.up[c].value, c)
  {
    if Reaches(l, l.up[c].value, c) {
      ReachesRank(l, l.up[c].value, c);
    }
  }

  /** `detach_node(c)` then `p.add_child(c)`: `c` becomes the last child of `p`. */
  function Moved(l: Links, c: NodeId, p: NodeId): (r: Links)
    requires Wf(l) && c in l.up && p in l.up && !Reaches(l, p, c)
    ensures Wf(r) && r.up == l.up[c := Some(p)]
  {
    DetachKeepsApart(l, c, p);
    DetachedUp(l, c, p);
    Attach(Detach(l, c), p, c)
  }

  /**
   * `rename_node_in_lookup(c.name, levelled)`, `c.path = root` and
   * `rename_children(c)`: the name lookup and the attributes afterwards.
   */
  ghost function RenamedAt(l: Links, lookup: map<string, NodeId>, info: map<NodeId, NodeInfo>, c: NodeId,
                           levelled: string, rootPath: string): (r: (map<string, NodeId>, map<NodeId, NodeInfo>))
    requires Fits(l, info) && LookupInto(lookup, l.up) && c in l.up
    ensures r.1.Keys == info.Keys && forall k | k in r.0 :: r.0[k] in r.1
  {
    var once := RenameInLookup(lookup, info, info[c].name, levelled);
    Renamed(l, once.0, once.1[c := once.1[c].(path := rootPath)], c, levelled)
  }

  /**
   * The prune loop from `start`, then the group bundle on `c`: the links,
   * the attributes and the name lookup afterwards.
   */
  ghost function Settled(l: Links, info: map<NodeId, NodeInfo>, lookup: map<string, NodeId>, root: NodeId,
                         groups: map<string, GroupConfig>, start: Option<NodeId>, c: NodeId, group: Option<string>)
    : (r: (Links, map<NodeId, NodeInfo>, map<string, NodeId>))
    requires Fits(l, info) && c in l.up && (start.Some? ==> start.value in l.up)
  {
    var pr := Pruned(l, info, lookup, root, start);
    (pr.links, GroupApplied(pr.links, info, groups, group, c), pr.lookup)
  }

  /** The fields of a `Tree` that `handle_grafting` may change. */
  datatype TreeState = TreeState(links: Links, info: map<NodeId, NodeInfo>, nextId: NodeId,
                                 nodeLookup: map<string, NodeId>, pathLookup: map<string, NodeId>)

  /** The attributes cover the links and the name lookup names their nodes. */
  ghost predicate StateFits(s: TreeState)
  {
    Fits(s.links, s.info) && LookupInto(s.nodeLookup, s.links.up)
  }

  /**
   * From state `s0` to `s`, `c` is grafted below `p` with the tree-form name
   * `levelled`: moved (giving `moved`), renamed with its subtree, the old
   * parent chain pruned and the group bundle applied. Ids and the path
   * lookup are untouched.
   */
  ghost predicate GraftedFrom(s0: TreeState, moved: Links, s: TreeState, root: NodeId, groups: map<string, GroupConfig>,
                              c: NodeId, p: NodeId, levelled: string, rootPath: string, group: Option<string>)
    requires StateFits(s0) && c in s0.links.up && p in s0.links.up && !Reaches(s0.links, p, c)
  {
    moved == Moved(s0.links, c, p) &&
    (var ren := RenamedAt(moved, s0.nodeLookup, s0.info, c, levelled, rootPath);
     (s.links, s.info, s.nodeLookup) == Settled(moved, ren.1, ren.0, root, groups, s0.links.up[c], c, group)) &&
    s.nextId == s0.nextId && s.pathLookup == s0.pathLookup
  }

  /**
   * What `ensure_parent_exists(path)` promises, from state `s0` to `s1` with
   * result `r`: the root for the root plan, a `ValueError` and no change for
   * a rejected path, and the prefix chain built otherwise.
   */
  ghost predicate ParentEnsured(path: string, root: NodeId, s0: TreeState, s1: TreeState, r: Result<NodeId>)
  {
    KeysGrow(s0.pathLookup, s1.pathLookup) && OldUntouched(s0.links.up, s0.info, s1.links.up, s1.info) &&
    (r.Ok? ==> r.value in s1.links.up) &&
    (PlanParent(path).RootPlan? ==> r == Ok(root) && s1 == s0) &&
    (PlanParent(path).Reject? ==> r.Err? && r.error.ValueError? && s1 == s0) &&
    (PlanParent(path).ChainPlan? ==>
      var plan := PlanParent(path);
      var chain := Chain(plan.kind, plan.start, plan.segments);
      r.Ok? && ChainBuilt(chain, |chain|, root, s0.nodeLookup, s0.links.up, s0.info, s0.pathLookup,
                          s1.nodeLookup, s1.links.up, s1.info, s1.pathLookup) &&
      r.value == if |chain| == 0 then root else s1.nodeLookup[chain[|chain| - 1].0])
  }

  /**
   * Once the new parent `p` exists, from state `mid` to `s`: a parent in the
   * node's own subtree (or the root as the node) stops there; otherwise the
   * node is grafted below `p`.
   */
  ghost predicate GraftedBelow(mid: TreeState, s: TreeState, moved: Links, o: GraftOutcome, root: NodeId,
                               groups: map<string, GroupConfig>, c: NodeId, p: NodeId, levelled: string, rootPath: string,
                               group: Option<string>)
    requires StateFits(mid) && c in mid.links.up && p in mid.links.up
  {
    if c == root || Reaches(mid.links, p, c) then o == Cyclic && s == mid
    else o == Grafted(c, p) && GraftedFrom(mid, moved, s, root, groups, c, p, levelled, rootPath, group)
  }

  /**
   * From the tree-form name `levelled` on, from state `s0` to `s`: the parent
   * chain of the name is ensured (giving `mid`), its error changes nothing,
   * and otherwise the node is grafted below the parent.
   */
  ghost predicate GraftedUnder(s0: TreeState, s: TreeState, mid: TreeState, ensured: Result<NodeId>, moved: Links, o: GraftOutcome,
                               root: NodeId, groups: map<string, GroupConfig>, c: NodeId, levelled: string, rootPath: string,
                               group: Option<string>)
    requires StateFits(s0) && c in s0.links.up
  {
    ParentEnsured(DirName(levelled), root, s0, mid, ensured) &&
    if ensured.Err? then o == Failed(ensured.error) && s == s0
    else
      StateFits(mid) && c in mid.links.up && ensured.value in mid.links.up &&
      GraftedBelow(mid, s, moved, o, root, groups, c, ensured.value, levelled, rootPath, group)
  }

  /**
   * `handle_grafting` once the node `c` and the level are known, from state
   * `s0` to `s`: a failed re-levelling changes nothing, and otherwise the
   * node is grafted under the tree form of its re-levelled path.
   */
  ghost predicate GraftResult(s0: TreeState, s: TreeState, mid: TreeState, ensured: Result<NodeId>, moved: Links, o: GraftOutcome,
                              root: NodeId, groups: map<string, GroupConfig>, c: NodeId, rootPath: string, level: int, group: Option<string>)
    requires StateFits(s0) && c in s0.links.up
  {
    var named := SetPathToLevel(rootPath, level, group);
    if named.Err? then o == Failed(named.error) && s == s0
    else GraftedUnder(s0, s, mid, ensured, moved, o, root, groups, c, ConvertPathToTreeFormat(named.value), rootPath, group)
  }

  /** After the move `c` is the last child of `p`, and its old parent does not lie below it. */
  lemma MovedFacts(l: Links, c: NodeId, p: NodeId)
    requires Wf(l) && c in l.up && p in l.up && !Reaches(l, p, c)
    ensures p in Moved(l, c, p).kids && LastIs(Moved(l, c, p).kids[p], c)
    ensures l.up[c].Some? ==> !Reaches(Moved(l, c, p), l.up[c].value, c)
  {
    if l.up[c].Some? {
      MovedApart(l, Moved(l, c, p), c, p);
    }
  }

  /** The renames leave the root path on the grafted node. */
  lemma RenamedAtPath(l: Links, lookup: map<string, NodeId>, info: map<NodeId, NodeInfo>, c: NodeId, levelled: string, rootPath: string)
    requires Fits(l, info) && LookupInto(lookup, l.up) && c in l.up
    ensures c in RenamedAt(l, lookup, info, c, levelled, rootPath).1
    ensures RenamedAt(l, lookup, info, c, levelled, rootPath).1[c].path == rootPath
  {
    var once := RenameInLookup(lookup, info, info[c].name, levelled);
    RenamedOnlyNames(l, once.0, once.1[c := once.1[c].(path := rootPath)], c, levelled);
  }

  /** Settling from a node `c` does not lie above keeps the parent links and `c` as the last child of `p`. */
  lemma SettledLinks(l: Links, info: map<NodeId, NodeInfo>, lookup: map<string, NodeId>, root: NodeId,
                     groups: map<string, GroupConfig>, start: Option<NodeId>, c: NodeId, p: NodeId, group: Option<string>)
    requires Fits(l, info) && c in l.up && (start.Some? ==> start.value in l.up && !Reaches(l, start.value, c))
    requires p in l.kids && LastIs(l.kids[p], c)
    ensures var st := Settled(l, info, lookup, root, groups, start, c, group);
      st.0.up == l.up && p in st.0.kids && LastIs(st.0.kids[p], c)
  {
    PrunedKeepsLast(l, info, lookup, root, start, p, c);
  }

  /** Settling keeps the path of `c`. */
  lemma SettledPath(l: Links, info: map<NodeId, NodeInfo>, lookup: map<string, NodeId>, root: NodeId,
                    groups: map<string, GroupConfig>, start: Option<NodeId>, c: NodeId, group: Option<string>)
    requires Fits(l, info) && c in l.up && (start.Some? ==> start.value in l.up)
    ensures var st := Settled(l, info, lookup, root, groups, start, c, group);
      c in st.1 && st.1[c].path == info[c].path
  {
    GroupAppliedOnly(Pruned(l, info, lookup, root, start).links, info, groups, group, c);
  }

  /** A grafted node is the last child of its new parent. */
  lemma GraftedLinks(s0: TreeState, moved: Links, s: TreeState, root: NodeId, groups: map<string, GroupConfig>,
                     c: NodeId, p: NodeId, levelled: string, rootPath: string, group: Option<string>)
    requires StateFits(s0) && c in s0.links.up && p in s0.links.up && !Reaches(s0.links, p, c)
    requires GraftedFrom(s0, moved, s, root, groups, c, p, levelled, rootPath, group)
    ensures c in s.links.up && s.links.up[c] == Some(p) && p in s.links.kids && LastIs(s.links.kids[p], c)
  {
    MovedFacts(s0.links, c, p);
    var ren := RenamedAt(moved, s0.nodeLookup, s0.info, c, levelled, rootPath);
    SettledLinks(moved, ren.1, ren.0, root, groups, s0.links.up[c], c, p, group);
  }

  /** A grafted node carries the root path. */
  lemma GraftedPath(s0: TreeState, moved: Links, s: TreeState, root: NodeId, groups: map<string, GroupConfig>,
                    c: NodeId, p: NodeId, levelled: string, rootPath: string, group: Option<string>)
    requires StateFits(s0) && c in s0.links.up && p in s0.links.up && !Reaches(s0.links, p, c)
    requires GraftedFrom(s0, moved, s, root, groups, c, p, levelled, rootPath, group)
    ensures c in s.info && s.info[c].path == rootPath
  {
    RenamedAtPath(moved, s0.nodeLookup, s0.info, c, levelled, rootPath);
    var ren := RenamedAt(moved, s0.nodeLookup, s0.info, c, levelled, rootPath);
    SettledPath(moved, ren.1, ren.0, root, groups, s0.links.up[c], c, group);
  }

  /** What `GraftResult` says of a grafted outcome: the node found by the root path, under its new parent, with the root path. */
  lemma GraftResultFacts(s0: TreeState, s: TreeState, mid: TreeState, ensured: Result<NodeId>, moved: Links, o: GraftOutcome,
                         root: NodeId, groups: map<string, GroupConfig>, c: NodeId, rootPath: string, level: int, group: Option<string>)
    requires StateFits(s0) && c in s0.links.up
    requires GraftResult(s0, s, mid, ensured, moved, o, root, groups, c, rootPath, level, group) && o.Grafted?
    ensures o.node == c && c in s.links.up && s.links.up[c] == Some(o.parent) && o.parent in s.links.kids &&
      LastIs(s.links.kids[o.parent], c) && c in s.info && s.info[c].path == rootPath
  {
    var named := SetPathToLevel(rootPath, level, group);
    var levelled := ConvertPathToTreeFormat(named.value);
    GraftedLinks(mid, moved, s, root, groups, c, ensured.value, levelled, rootPath, group);
    GraftedPath(mid, moved, s, root, groups, c, ensured.value, levelled, rootPath, group);
  }

  /** `detach_node(current_node)` and `parent_node.add_child(current_node)`. */
  method Move(t: Tree, c: NodeId, p: NodeId)
    requires t.Valid() && c in t.links.up && p in t.links.up && c != t.root && !Reaches(t.links, p, c)
    modifies t`links
    ensures t.Valid()
    ensures t.links == Moved(old(t.links), c, p)
    ensures t.links.up == old(t.links.up)[c := Some(p)]
    ensures p in t.links.kids && LastIs(t.links.kids[p], c)
    ensures old(t.links.up[c]).Some? ==> !Reaches(t.links, old(t.links.up[c]).value, c)
  {
    ghost var l0 := t.links;
    DetachKeepsApart(t.links, c, p);
    t.DetachNode(c);
    t.AddChild(p, c);
    DetachedUp(l0, c, p);
    if l0.up[c].Some? {
      MovedApart(l0, t.links, c, p);
    }
  }

  /** Re-parenting after `detach_node` only changes the node's own parent link. */
  lemma DetachedUp(l: Links, c: NodeId, p: NodeId)
    requires Wf(l) && c in l.up
    ensures Detach(l, c).up[c := Some(p)] == l.up[c := Some(p)]
  {
  }

  /** After `c` is moved below `p`, its old parent still does not lie below it. */
  lemma MovedApart(l0: Links, l1: Links, c: NodeId, p: NodeId)
    requires Wf(l0) && Wf(l1) && c in l0.up && l0.up[c].Some? && l1.up == l0.up[c := Some(p)]
    ensures !Reaches(l1, l0.up[c].value, c)
  {
    ParentNotBelow(l0, c);
    if Reaches(l1, l0.up[c].value, c) {
      ReachesOtherParent(l0, l1, l0.up[c].value, c);
    }
  }

  /**
   * The renames of `handle_grafting`: the node is renamed through the lookup
   * to `levelled`, takes `rootPath` as its path, and its subtree is renamed
   * below the new name.
   */
  method Rename(t: Tree, c: NodeId, levelled: string, rootPath: string)
    requires t.Valid() && c in t.links.up
    modifies t`nodeLookup, t`info
    ensures t.Valid()
    ensures (t.nodeLookup, t.info) == RenamedAt(t.links, old(t.nodeLookup), old(t.info), c, levelled, rootPath)
    ensures t.info[c].path == rootPath
  {
    t.RenameNodeInLookup(t.info[c].name, levelled);
    t.info := t.info[c := t.info[c].(path := rootPath)];
    RenamedOnlyNames(t.links, t.nodeLookup, t.info, c, levelled);
    t.RenameChildren(c, levelled);
  }

  /** `rename_node_in_lookup(current_node.name, levelled)` on a node its own name finds: it is now found, and named, by the new name. */
  lemma RenamedInLookup(lookup: map<string, NodeId>, info: map<NodeId, NodeInfo>, c: NodeId, levelled: string)
    requires (forall k | k in lookup :: lookup[k] in info) && c in info
    requires info[c].name in lookup && lookup[info[c].name] == c
    ensures var once := RenameInLookup(lookup, info, info[c].name, levelled);
      levelled in once.0 && once.0[levelled] == c && once.1[c].name == levelled && once.1[c].path == info[c].path
  {
  }

  /** How `handle_grafting` ends. */
  datatype GraftOutcome =
    | NoLevel                              // neither level is set: nothing happens
    | NotFound                             // no node has the root path: a warning, nothing else
    | Failed(error: Error)                 // re-levelling or the parent chain raised
    | Cyclic                               // the new parent lies in the node's own subtree
    | Grafted(node: NodeId, parent: NodeId)

  /**
   * `handle_grafting(root, graft_level, group)`. The model refuses a move
   * into the node's own subtree (Python would link a cycle); the parent
   * chain of the new name has then already been created.
   */
  method HandleGrafting(t: Tree, rootPath: string, graftLevel: Option<int>, group: Option<string>)
    returns (o: GraftOutcome, ghost mid: TreeState, ghost ensured: Result<NodeId>, ghost moved: Links)
    requires t.Valid()
    modifies t`links, t`info, t`nextId, t`nodeLookup, t`pathLookup
    ensures t.Valid()
    ensures o.NoLevel? <==> GraftLevel(t.defaults.groups, graftLevel, group).None?
    ensures o.NoLevel? || o.NotFound? || o.Failed? ==> unchanged(t)
    ensures GraftLevel(t.defaults.groups, graftLevel, group).Some? && rootPath !in old(t.pathLookup) ==> o.NotFound?
    ensures GraftLevel(t.defaults.groups, graftLevel, group).Some? && rootPath in old(t.pathLookup) ==>
      GraftResult(old(TreeState(t.links, t.info, t.nextId, t.nodeLookup, t.pathLookup)),
                  TreeState(t.links, t.info, t.nextId, t.nodeLookup, t.pathLookup), mid, ensured, moved, o, t.root, t.defaults.groups,
                  old(t.pathLookup)[rootPath], rootPath, GraftLevel(t.defaults.groups, graftLevel, group).value, group)
    ensures o.Grafted? ==>
      rootPath in old(t.pathLookup) && o.node == old(t.pathLookup)[rootPath] &&
      o.node in t.links.up && o.parent in t.links.kids && t.links.up[o.node] == Some(o.parent) &&
      LastIs(t.links.kids[o.parent], o.node) &&
      t.info[o.node].path == rootPath
  {
    mid, ensured, moved := TreeState(t.links, t.info, t.nextId, t.nodeLookup, t.pathLookup), Err(ValueError("")), t.links;
    var level := GraftLevel(t.defaults.groups, graftLevel, group);
    if level.None? {
      return NoLevel, mid, ensured, moved;
    }
    if rootPath !in t.pathLookup {
      return NotFound, mid, ensured, moved;
    }
    o, mid, ensured, moved := GraftAt(t, t.pathLookup[rootPath], rootPath, level.value, group);
  }

  /** `handle_grafting` once the node to move, `c`, and the level are known. */
  method GraftAt(t: Tree, c: NodeId, rootPath: string, level: int, group: Option<string>)
    returns (o: GraftOutcome, ghost mid: TreeState, ghost ensured: Result<NodeId>, ghost moved: Links)
    requires t.Valid() && c in t.links.up
    modifies t`links, t`info, t`nextId, t`nodeLookup, t`pathLookup
    ensures t.Valid()
    ensures o.Failed? || o.Cyclic? || o.Grafted?
    ensures o.Failed? ==> unchanged(t)
    ensures GraftResult(old(TreeState(t.links, t.info, t.nextId, t.nodeLookup, t.pathLookup)),
                        TreeState(t.links, t.info, t.nextId, t.nodeLookup, t.pathLookup),
                        mid, ensured, moved, o, t.root, t.defaults.groups, c, rootPath, level, group)
    ensures o.Grafted? ==>
      o.node == c && c in t.links.up && o.parent in t.links.kids && t.links.up[c] == Some(o.parent) &&
      LastIs(t.links.kids[o.parent], c) && t.info[c].path == rootPath
  {
    var named := SetPathToLevel(rootPath, level, group);
    if named.Err? {
      return Failed(named.error), TreeState(t.links, t.info, t.nextId, t.nodeLookup, t.pathLookup), Err(named.error), t.links;
    }
    ghost var s0 := TreeState(t.links, t.info, t.nextId, t.nodeLookup, t.pathLookup);
    o, mid, ensured, moved := GraftUnder(t, c, ConvertPathToTreeFormat(named.value), rootPath, group);
    if o.Grafted? {
      GraftResultFacts(s0, TreeState(t.links, t.info, t.nextId, t.nodeLookup, t.pathLookup), mid, ensured, moved, o,
                       t.root, t.defaults.groups, c, rootPath, level, group);
    }
  }

  /** `handle_grafting` from the tree form `levelled` of the re-levelled path on: the parent chain, then the graft. */
  method GraftUnder(t: Tree, c: NodeId, levelled: string, rootPath: string, group: Option<string>)
    returns (o: GraftOutcome, ghost mid: TreeState, ghost ensured: Result<NodeId>, ghost moved: Links)
    requires t.Valid() && c in t.links.up
    modifies t`links, t`info, t`nextId, t`nodeLookup, t`pathLookup
    ensures t.Valid()
    ensures o.Failed? || o.Cyclic? || o.Grafted?
    ensures o.Failed? ==> unchanged(t)
    ensures GraftedUnder(old(TreeState(t.links, t.info, t.nextId, t.nodeLookup, t.pathLookup)),
                         TreeState(t.links, t.info, t.nextId, t.nodeLookup, t.pathLookup),
                         mid, ensured, moved, o, t.root, t.defaults.groups, c, levelled, rootPath, group)
  {
    var parent := ParentFor(t, DirName(levelled));
    mid, ensured := TreeState(t.links, t.info, t.nextId, t.nodeLookup, t.pathLookup), parent;
    if parent.Err? {
      return Failed(parent.error), mid, ensured, t.links;
    }
    o, moved := GraftBelow(t, c, parent.value, levelled, rootPath, group);
  }

  /** The cycle check of the model, then the graft below `p`. */
  method GraftBelow(t: Tree, c: NodeId, p: NodeId, levelled: string, rootPath: string, group: Option<string>)
    returns (o: GraftOutcome, ghost moved: Links)
    requires t.Valid() && c in t.links.up && p in t.links.up
    modifies t`links, t`info, t`nodeLookup
    ensures t.Valid()
    ensures o.Cyclic? || o.Grafted?
    ensures GraftedBelow(old(TreeState(t.links, t.info, t.nextId, t.nodeLookup, t.pathLookup)),
                         TreeState(t.links, t.info, t.nextId, t.nodeLookup, t.pathLookup),
                         moved, o, t.root, t.defaults.groups, c, p, levelled, rootPath, group)
  {
    if c == t.root || Reaches(t.links, p, c) {
      return Cyclic, t.links;
    }
    o, moved := Graft(t, c, p, levelled, rootPath, group);
  }

  /** `ensure_parent_exists(parent_path)`, as grafting uses it. */
  method ParentFor(t: Tree, path: string) returns (r: Result<NodeId>)
    requires t.Valid()
    modifies t`links, t`info, t`nextId, t`nodeLookup, t`pathLookup
    ensures t.Valid()
    ensures r.Ok? ==> r.value in t.links.up
    ensures old(t.links.up).Keys <= t.links.up.Keys
    ensures r.Err? ==> unchanged(t)
    ensures ParentEnsured(path, t.root, old(TreeState(t.links, t.info, t.nextId, t.nodeLookup, t.pathLookup)),
                          TreeState(t.links, t.info, t.nextId, t.nodeLookup, t.pathLookup), r)
  {
    r := t.EnsureParentExists(path);
  }

  /** The part of `handle_grafting` after the new parent is known: move, prune, apply the group. */
  method Graft(t: Tree, c: NodeId, p: NodeId, levelled: string, rootPath: string, group: Option<string>)
    returns (o: GraftOutcome, ghost moved: Links)
    requires t.Valid() && c in t.links.up && p in t.links.up && c != t.root && !Reaches(t.links, p, c)
    modifies t`links, t`info, t`nodeLookup
    ensures t.Valid()
    ensures o == Grafted(c, p)
    ensures GraftedFrom(TreeState(old(t.links), old(t.info), t.nextId, old(t.nodeLookup), t.pathLookup), moved,
                        TreeState(t.links, t.info, t.nextId, t.nodeLookup, t.pathLookup), t.root, t.defaults.groups, c, p, levelled, rootPath, group)
  {
    var oldParent := t.links.up[c];
    Move(t, c, p);
    moved := t.links;
    RenameAndSettle(t, oldParent, p, c, levelled, rootPath, group);
    o := Grafted(c, p);
  }

  /** The renames, the prune loop from the old parent and the group settings, once `c` is the last child of `p`. */
  method RenameAndSettle(t: Tree, oldParent: Option<NodeId>, p: NodeId, c: NodeId, levelled: string, rootPath: string, group: Option<string>)
    requires t.Valid() && c in t.links.up && (oldParent.Some? ==> oldParent.value in t.links.up && !Reaches(t.links, oldParent.value, c))
    requires p in t.links.kids && LastIs(t.links.kids[p], c)
    modifies t`links, t`info, t`nodeLookup
    ensures t.Valid() && t.links.up == old(t.links.up)
    ensures p in t.links.kids && LastIs(t.links.kids[p], c)
    ensures t.info[c].path == rootPath
    ensures var ren := RenamedAt(old(t.links), old(t.nodeLookup), old(t.info), c, levelled, rootPath);
      (t.links, t.info, t.nodeLookup) == Settled(old(t.links), ren.1, ren.0, t.root, t.defaults.groups, oldParent, c, group)
  {
    Rename(t, c, levelled, rootPath);
    Settle(t, oldParent, p, c, group);
  }

  /** The prune loop from the old parent, then the group settings. */
  method Settle(t: Tree, oldParent: Option<NodeId>, p: NodeId, c: NodeId, group: Option<string>)
    requires t.Valid() && c in t.links.up && (oldParent.Some? ==> oldParent.value in t.links.up && !Reaches(t.links, oldParent.value, c))
    requires p in t.links.kids && LastIs(t.links.kids[p], c)
    modifies t`links, t`info, t`nodeLookup
    ensures t.Valid() && t.links.up == old(t.links.up)
    ensures p in t.links.kids && LastIs(t.links.kids[p], c)
    ensures t.info[c].path == old(t.info)[c].path
    ensures (t.links, t.info, t.nodeLookup) ==
      Settled(old(t.links), old(t.info), old(t.nodeLookup), t.root, t.defaults.groups, oldParent, c, group)
  {
    PruneKeeping(t, oldParent, p, c);
    ApplyGroup(t, c, group);
  }

  /** The prune loop, run from a node `c` does not lie above: the links and lookup of `Pruned`, which keep every parent link and `c` as the last child of `p`. */
  method PruneKeeping(t: Tree, start: Option<NodeId>, p: NodeId, c: NodeId)
    requires t.Valid() && (start.Some? ==> start.value in t.links.up && !Reaches(t.links, start.value, c))
    requires p in t.links.kids && LastIs(t.links.kids[p], c)
    modifies t`links, t`nodeLookup
    ensures t.Valid() && t.links.up == old(t.links.up)
    ensures p in t.links.kids && LastIs(t.links.kids[p], c)
    ensures var pr := Pruned(old(t.links), t.info, old(t.nodeLookup), t.root, start);
      t.links == pr.links && t.nodeLookup == pr.lookup
  {
    PrunedKeepsLast(t.links, t.info, t.nodeLookup, t.root, start, p, c);
    PruneEmpty(t, start);
  }
}
