/**
 * What `calculate_weights` and `extract_image_paths_and_weights_from_tree`
 * of `enkan/tree/tree_logic.py` compute, stated as functions of the links
 * and the node attributes of a tree: the reset of the proportions, the
 * filling of one group of nodes, the top-down apportioning of weights, and
 * the flattening into images and weights. The methods of `TreeLogic`
 * perform these steps in place and are proved equal to them.
 */
module Weights {
  import opened Common
  import opened Modes
  import opened Nodes
  import opened Proportions

  /** `TOTAL_WEIGHT`: the weight shared out among the starting nodes. */
  const TotalWeight: real := 100.0

  predicate AllIn(info: map<NodeId, NodeInfo>, ns: seq<NodeId>)
  {
    forall k :: 0 <= k < |ns| ==> ns[k] in info
  }

  /** A node's attributes apart from its proportion. */
  function Unproportioned(i: NodeInfo): NodeInfo
  {
    i.(proportion := None)
  }

  /** A node's attributes apart from its proportion and its weight: what the calculation never changes. */
  function Fixed(i: NodeInfo): NodeInfo
  {
    i.(proportion := None, weight := None)
  }

  /** `b` differs from `a` at most in proportions. */
  ghost predicate OnlyProps(a: map<NodeId, NodeInfo>, b: map<NodeId, NodeInfo>)
  {
    a.Keys == b.Keys && forall m | m in a :: Unproportioned(b[m]) == Unproportioned(a[m])
  }

  /** `b` differs from `a` at most in proportions and weights. */
  ghost predicate Retains(a: map<NodeId, NodeInfo>, b: map<NodeId, NodeInfo>)
  {
    a.Keys == b.Keys && forall m | m in a :: Fixed(b[m]) == Fixed(a[m])
  }

  lemma RetainsTrans(a: map<NodeId, NodeInfo>, b: map<NodeId, NodeInfo>, c: map<NodeId, NodeInfo>)
    requires Retains(a, b) && Retains(b, c)
    ensures Retains(a, c)
  {
  }

  // ------------------------------------------------------------ groups

  /** The proportions of a group of nodes, in the group's order. */
  function Props(info: map<NodeId, NodeInfo>, ns: seq<NodeId>): (r: seq<Option<real>>)
    requires AllIn(info, ns)
    ensures |r| == |ns| && forall k :: 0 <= k < |ns| ==> r[k] == info[ns[k]].proportion
  {
    seq(|ns|, k requires 0 <= k < |ns| => info[ns[k]].proportion)
  }

  /** The nodes of a group that have no proportion, in order. */
  function UnsetNodes(info: map<NodeId, NodeInfo>, ns: seq<NodeId>): (r: seq<NodeId>)
    requires AllIn(info, ns)
    ensures |r| == NumUnset(Props(info, ns))
    ensures forall k :: 0 <= k < |r| ==> r[k] in ns && info[r[k]].proportion.None?
  {
    if ns == [] then []
    else
      var init := ns[..|ns| - 1];
      assert Props(info, init) == Props(info, ns)[..|ns| - 1];
      var r0 := UnsetNodes(info, init);
      if info[ns[|ns| - 1]].proportion.None? then r0 + [ns[|ns| - 1]] else r0
  }

  /** The number of images below each node of `us`: what `count_fn` gives. */
  function Counts(l: Links, info: map<NodeId, NodeInfo>, us: seq<NodeId>): (r: seq<nat>)
    requires Wf(l) && Described(l, info) && forall k :: 0 <= k < |us| ==> us[k] in l.up
    ensures |r| == |us|
  {
    seq(|us|, k requires 0 <= k < |us| => CountBranches(l, info, us[k]).1)
  }

  /** Gives the nodes of `ns` the proportions `ps`, in order. */
  function SetProps(info: map<NodeId, NodeInfo>, ns: seq<NodeId>, ps: seq<Option<real>>): (r: map<NodeId, NodeInfo>)
    requires AllIn(info, ns) && |ps| == |ns|
    ensures r.Keys == info.Keys
  {
    if ns == [] then info
    else
      var r0 := SetProps(info, ns[..|ns| - 1], ps[..|ps| - 1]);
      var last := ns[|ns| - 1];
      r0[last := r0[last].(proportion := ps[|ps| - 1])]
  }

  /** One more node: the prefix of length `k + 1` is the prefix of length `k` and then node `k`. */
  lemma SetPropsStep(info: map<NodeId, NodeInfo>, ns: seq<NodeId>, ps: seq<Option<real>>, k: nat)
    requires AllIn(info, ns) && |ps| == |ns| && k < |ns|
    ensures AllIn(info, ns[..k]) && AllIn(info, ns[..k + 1])
    ensures var r0 := SetProps(info, ns[..k], ps[..k]);
      SetProps(info, ns[..k + 1], ps[..k + 1]) == r0[ns[k] := r0[ns[k]].(proportion := ps[k])]
  {
    assert ns[..k + 1][..k] == ns[..k] && ps[..k + 1][..k] == ps[..k];
  }

  /**
   * `_fill_missing_proportions(ns, letter, slope, count_fn)` on the tree:
   * the group's proportions become those `FillGroup` computes, the counts
   * being the image counts below the unset nodes.
   */
  function FillTree(l: Links, info: map<NodeId, NodeInfo>, ns: seq<NodeId>, letter: string, slope: int,
                    useCount: bool, pow: Power): (r: map<NodeId, NodeInfo>)
    requires Fits(l, info) && AllIn(info, ns)
    ensures r.Keys == info.Keys
  {
    var us := UnsetNodes(info, ns);
    SetProps(info, ns, FillGroup(Props(info, ns), Counts(l, info, us), letter, slope, useCount, pow))
  }

  /** Writing the proportions of distinct nodes changes exactly those proportions. */
  lemma {:induction false} SetPropsEffect(info: map<NodeId, NodeInfo>, ns: seq<NodeId>, ps: seq<Option<real>>)
    requires AllIn(info, ns) && |ps| == |ns| && NoDup(ns)
    ensures OnlyProps(info, SetProps(info, ns, ps))
    ensures Props(SetProps(info, ns, ps), ns) == ps
    ensures forall m | m in info && m !in ns :: SetProps(info, ns, ps)[m] == info[m]
  {
    if ns != [] {
      var init, pinit := ns[..|ns| - 1], ps[..|ps| - 1];
      var last := ns[|ns| - 1];
      assert NoDup(init) by {
        forall i, j | 0 <= i < j < |init| ensures init[i] != init[j] { assert init[i] == ns[i] && init[j] == ns[j]; }
      }
      assert last !in init by {
        forall j | 0 <= j < |init| ensures init[j] != last { assert init[j] == ns[j]; }
      }
      SetPropsEffect(info, init, pinit);
      var r := SetProps(info, ns, ps);
      forall k | 0 <= k < |ns| ensures r[ns[k]].proportion == ps[k] {
        if k < |ns| - 1 {
          assert ns[k] == init[k] && ps[k] == pinit[k];
        }
      }
    }
  }

  /** Two results of writing the same proportions into the same group agree everywhere. */
  lemma SameProps(info: map<NodeId, NodeInfo>, a: map<NodeId, NodeInfo>, b: map<NodeId, NodeInfo>, ns: seq<NodeId>)
    requires OnlyProps(info, a) && OnlyProps(info, b) && AllIn(info, ns)
    requires forall m | m in info && m !in ns :: a[m] == info[m] && b[m] == info[m]
    requires Props(a, ns) == Props(b, ns)
    ensures a == b
  {
    forall m | m in info ensures a[m] == b[m] {
      if m in ns {
        var k :| 0 <= k < |ns| && ns[k] == m;
        assert Props(a, ns)[k] == Props(b, ns)[k];
      }
    }
  }

  /**
   * Filling a group of distinct nodes changes only their proportions,
   * and they become what `FillGroup` computes from the old ones.
   */
  lemma FillTreeEffect(l: Links, info: map<NodeId, NodeInfo>, ns: seq<NodeId>, letter: string, slope: int,
                       useCount: bool, pow: Power)
    requires Fits(l, info) && AllIn(info, ns) && NoDup(ns)
    ensures var r := FillTree(l, info, ns, letter, slope, useCount, pow);
      OnlyProps(info, r) &&
      Props(r, ns) == FillGroup(Props(info, ns), Counts(l, info, UnsetNodes(info, ns)), letter, slope, useCount, pow) &&
      forall m | m in info && m !in ns :: r[m] == info[m]
  {
    var us := UnsetNodes(info, ns);
    SetPropsEffect(info, ns, FillGroup(Props(info, ns), Counts(l, info, us), letter, slope, useCount, pow));
  }

  // ------------------------------------------------------------ weights

  /** A node's own weight from what it is apportioned: scaled by its modifier when that is a percentage. */
  function NodeWeight(i: NodeInfo, aw: real): real
  {
    if i.isPercentage then aw * ((i.weightModifier as real) / 100.0) else aw
  }

  /** What a child is apportioned out of its parent's weight `w`: its proportion, none counting as 0, in hundredths of `w`. */
  function ChildShare(w: real, p: Option<real>): real
  {
    w * (PropOr0(p) / 100.0)
  }

  /** A node's mode modifier, with none read as the empty table. */
  function ModifierOf(i: NodeInfo): ModeTable
  {
    if i.modeModifier.Some? then i.modeModifier.value else map[]
  }

  /** The policy for the children of `n`: the global table merged with the first child's modifier, at the child level. */
  function ChildPolicy(l: Links, info: map<NodeId, NodeInfo>, n: NodeId, mode: ModeTable): (p: Policy)
    requires Fits(l, info) && n in l.up && l.kids[n] != []
  {
    ListedChildPoints(l, n, l.kids[n][0]);
    ResolveMode(mode + ModifierOf(info[l.kids[n][0]]), Level(l, n) + 1)
  }

  /**
   * `_process_node(n, aw)`: the node takes its weight; a node with
   * children fills their proportions under the child policy, counting
   * images only in the weighted mode, and hands each child, in order, its
   * share of the node's weight.
   */
  ghost function Weigh(l: Links, info: map<NodeId, NodeInfo>, n: NodeId, aw: real, mode: ModeTable, pow: Power): (r: map<NodeId, NodeInfo>)
    requires Fits(l, info) && n in l.up
    ensures r.Keys == info.Keys
    decreases l.bound - l.rank[n], 1, 0
  {
    var w := NodeWeight(info[n], aw);
    var info1 := info[n := info[n].(weight := Some(w))];
    if l.kids[n] == [] then info1 else WeighKids(l, FillKids(l, info1, n, mode, pow), n, 0, w, mode, pow)
  }

  /** The children of `n` filled as one group under the child policy, counting images only in the weighted mode. */
  function FillKids(l: Links, info: map<NodeId, NodeInfo>, n: NodeId, mode: ModeTable, pow: Power): (r: map<NodeId, NodeInfo>)
    requires Fits(l, info) && n in l.up && l.kids[n] != []
    ensures r.Keys == info.Keys
  {
    var p := ChildPolicy(l, info, n, mode);
    KidsIn(l, info, n);
    FillTree(l, info, l.kids[n], p.letter, p.slopes[0], p.letter == "w", pow)
  }

  lemma KidsIn(l: Links, info: map<NodeId, NodeInfo>, n: NodeId)
    requires Fits(l, info) && n in l.up
    ensures AllIn(info, l.kids[n]) && NoDup(l.kids[n]) && n !in l.kids[n]
  {
    forall k | 0 <= k < |l.kids[n]| ensures l.kids[n][k] in info && l.kids[n][k] != n {
      ListedChildPoints(l, n, l.kids[n][k]);
    }
  }

  /** Filling the children changes only their proportions. */
  lemma FillKidsEffect(l: Links, info: map<NodeId, NodeInfo>, n: NodeId, mode: ModeTable, pow: Power)
    requires Fits(l, info) && n in l.up && l.kids[n] != []
    ensures var r := FillKids(l, info, n, mode, pow);
      OnlyProps(info, r) && forall m | m in info && m !in l.kids[n] :: r[m] == info[m]
  {
    var p := ChildPolicy(l, info, n, mode);
    KidsIn(l, info, n);
    FillTreeEffect(l, info, l.kids[n], p.letter, p.slopes[0], p.letter == "w", pow);
  }

  /** The loop of `_process_node` over the children of `n` from the `i`-th on, `w` being the weight of `n`. */
  ghost function WeighKids(l: Links, info: map<NodeId, NodeInfo>, n: NodeId, i: nat, w: real, mode: ModeTable, pow: Power): (r: map<NodeId, NodeInfo>)
    requires Fits(l, info) && n in l.up && i <= |l.kids[n]|
    ensures r.Keys == info.Keys
    decreases l.bound - l.rank[n], 0, |l.kids[n]| - i
  {
    if i == |l.kids[n]| then info
    else
      var c := l.kids[n][i];
      ListedChildPoints(l, n, c);
      var info1 := Weigh(l, info, c, ChildShare(w, info[c].proportion), mode, pow);
      WeighKids(l, info1, n, i + 1, w, mode, pow)
  }

  // -------------------------------------------------------------- reset

  /** `_reset_proportions` on one node: the user proportion unless it is ignored or missing, else none. */
  function ResetOne(i: NodeInfo, ignoreUser: bool): NodeInfo
  {
    i.(proportion := if !ignoreUser && i.userProportion.Some? then i.userProportion else None)
  }

  /** `_reset_proportions(n)`: the node, then each child's subtree in order. */
  ghost function ResetTree(l: Links, info: map<NodeId, NodeInfo>, n: NodeId, ignoreUser: bool): (r: map<NodeId, NodeInfo>)
    requires Fits(l, info) && n in l.up
    ensures r.Keys == info.Keys
    decreases l.bound - l.rank[n], 1, 0
  {
    ResetKids(l, info[n := ResetOne(info[n], ignoreUser)], n, 0, ignoreUser)
  }

  ghost function ResetKids(l: Links, info: map<NodeId, NodeInfo>, n: NodeId, i: nat, ignoreUser: bool): (r: map<NodeId, NodeInfo>)
    requires Fits(l, info) && n in l.up && i <= |l.kids[n]|
    ensures r.Keys == info.Keys
    decreases l.bound - l.rank[n], 0, |l.kids[n]| - i
  {
    if i == |l.kids[n]| then info
    else
      ListedChildPoints(l, n, l.kids[n][i]);
      ResetKids(l, ResetTree(l, info, l.kids[n][i], ignoreUser), n, i + 1, ignoreUser)
  }

  // --------------------------------------------------------- calculate

  /** The starting nodes: those at the lowest rung of the table, or the root when there are none. */
  function Starts(l: Links, root: NodeId, mode: ModeTable): (r: seq<NodeId>)
    requires Wf(l) && root in l.up && mode != map[]
    ensures forall k :: 0 <= k < |r| ==> r[k] in l.up
    ensures NoDup(r) && r != []
  {
    var found := CollectAtLevel(l, root, MinKey(mode));
    CollectSameAsNodesAtLevel(l, root, MinKey(mode));
    NodesAtLevelIsPreOrder(l, root, MinKey(mode));
    PreOrderNoDup(l, root);
    AtLevelNoDup(l, PreOrder(l, root), MinKey(mode));
    if found == [] then [root] else found
  }

  /** A starting node left without a proportion by the fill is given all of 100. */
  function Seed(info: map<NodeId, NodeInfo>, s: NodeId): (r: map<NodeId, NodeInfo>)
    requires s in info
    ensures r.Keys == info.Keys && r[s].proportion.Some?
  {
    if info[s].proportion.None? then info[s := info[s].(proportion := Some(100.0))] else info
  }

  /** What a starting node of proportion `p` is apportioned: `p` hundredths of `TOTAL_WEIGHT`. */
  function StartShare(p: real): real
  {
    TotalWeight * (p / 100.0)
  }

  /** The weights given to the starting nodes from the `i`-th on, each starting from its share of `TOTAL_WEIGHT`. */
  ghost function WeighStarts(l: Links, info: map<NodeId, NodeInfo>, starts: seq<NodeId>, i: nat, mode: ModeTable, pow: Power): (r: map<NodeId, NodeInfo>)
    requires Fits(l, info) && i <= |starts| && forall k :: 0 <= k < |starts| ==> starts[k] in l.up
    ensures r.Keys == info.Keys
    decreases |starts| - i
  {
    if i == |starts| then info
    else
      var s := starts[i];
      var info1 := Seed(info, s);
      WeighStarts(l, Weigh(l, info1, s, StartShare(info1[s].proportion.value), mode, pow), starts, i + 1, mode, pow)
  }

  /**
   * `calculate_weights`, once the proportions are reset and the mode table
   * is known not to be empty: the starting nodes are filled as one group
   * under the policy of the lowest rung, then weighed in order.
   */
  ghost function Calc(l: Links, info: map<NodeId, NodeInfo>, root: NodeId, mode: ModeTable, pow: Power): (r: map<NodeId, NodeInfo>)
    requires Fits(l, info) && root in l.up && mode != map[]
    ensures r.Keys == info.Keys
  {
    var starts := Starts(l, root, mode);
    var p := ResolveMode(mode, MinKey(mode));
    var info1 := FillTree(l, info, starts, p.letter, p.slopes[0], p.letter == "w", pow);
    WeighStarts(l, info1, starts, 0, mode, pow)
  }

  /** The whole of `calculate_weights`: reset, then fail on an empty table (`min` of no keys), else `Calc`. */
  ghost function CalculateWeights(l: Links, info: map<NodeId, NodeInfo>, root: NodeId, mode: ModeTable,
                                  ignoreUser: bool, pow: Power): (r: (Option<Error>, map<NodeId, NodeInfo>))
    requires Fits(l, info) && root in l.up
    ensures r.1.Keys == info.Keys
    ensures r.0.Some? <==> mode == map[]
    ensures r.0.Some? ==> r.0.value.ValueError?
  {
    var info1 := ResetTree(l, info, root, ignoreUser);
    if mode == map[] then (Some(ValueError("min() arg is an empty sequence")), info1) else (None, Calc(l, info1, root, mode, pow))
  }

  // -------------------------------------------------------- extraction

  /** The images of one node with their normalised weight, or the error the division raises. */
  function NodeEntries(i: NodeInfo): (r: Result<(seq<string>, seq<real>)>)
    ensures r.Ok? ==> r.value.0 == i.images && |r.value.1| == |i.images|
    ensures r.Err? <==> i.images != [] && (i.weight.None? || (!i.isPercentage && i.weightModifier == 0))
    ensures r.Err? ==> if i.weight.None? then r.error.TypeError? else r.error.ZeroDivisionError?
  {
    if i.images == [] then Ok(([], []))
    else if i.weight.None? then Err(TypeError("unsupported operand type(s) for /: 'NoneType' and 'int'"))
    else
      var divisor := if i.isPercentage then |i.images| else i.weightModifier;
      if divisor == 0 then Err(ZeroDivisionError("float division by zero"))
      else Ok((i.images, Repeat(i.weight.value / (divisor as real), |i.images|)))
  }

  /** Two results in sequence: the first error, or both lists joined. */
  function Then(a: Result<(seq<string>, seq<real>)>, b: Result<(seq<string>, seq<real>)>): Result<(seq<string>, seq<real>)>
  {
    if a.Err? then a else if b.Err? then b else Ok((a.value.0 + b.value.0, a.value.1 + b.value.1))
  }

  /** The images and weights of the nodes of `s`, in order, stopping at the first error. */
  function Entries(info: map<NodeId, NodeInfo>, s: seq<NodeId>): (r: Result<(seq<string>, seq<real>)>)
    requires AllIn(info, s)
    ensures r.Ok? ==> |r.value.0| == |r.value.1|
  {
    if s == [] then Ok(([], [])) else Then(NodeEntries(info[s[0]]), Entries(info, s[1..]))
  }

  // ------------------------------------------------------------ frames

  lemma OnlyPropsRetains(a: map<NodeId, NodeInfo>, b: map<NodeId, NodeInfo>)
    requires OnlyProps(a, b)
    ensures Retains(a, b)
  {
    forall m | m in a ensures Fixed(b[m]) == Fixed(a[m]) {
      assert Fixed(b[m]) == Unproportioned(b[m]).(weight := None);
      assert Fixed(a[m]) == Unproportioned(a[m]).(weight := None);
    }
  }

  /** A node strictly below `c` is not a sibling of `c`. */
  lemma BelowNotSibling(l: Links, n: NodeId, c: NodeId, m: NodeId)
    requires Wf(l) && n in l.up && c in l.kids[n] && m in l.up && Reaches(l, m, c) && m != c
    ensures m !in l.kids[n]
  {
    ListedChildPoints(l, n, c);
    if m in l.kids[n] {
      ListedChildPoints(l, n, m);
      ReachesRank(l, n, c);
    }
  }

  /**
   * `_process_node(n, aw)` gives `n` its weight and changes only
   * proportions and weights, and only of the nodes below `n`.
   */
  lemma {:induction false} WeighFrame(l: Links, info: map<NodeId, NodeInfo>, n: NodeId, aw: real, mode: ModeTable, pow: Power)
    requires Fits(l, info) && n in l.up
    ensures var r := Weigh(l, info, n, aw, mode, pow);
      Retains(info, r) && r[n].weight == Some(NodeWeight(info[n], aw)) &&
      forall m | m in l.up && !Reaches(l, m, n) :: r[m] == info[m]
    decreases l.bound - l.rank[n], 1, 0
  {
    var w := NodeWeight(info[n], aw);
    var info1 := info[n := info[n].(weight := Some(w))];
    if l.kids[n] == [] {
      WeightRetains(info, n, w);
      forall m | m in l.up && !Reaches(l, m, n) ensures info1[m] == info[m] {
        OtherKept(info, n, w, m);
      }
    } else {
      var info2 := FillKids(l, info1, n, mode, pow);
      FillKidsEffect(l, info1, n, mode, pow);
      WeighKidsFrame(l, info2, n, 0, w, mode, pow);
      WeighCompose(l, info, info2, WeighKids(l, info2, n, 0, w, mode, pow), n, w);
    }
  }

  /** The frame of `_process_node` out of the frames of its steps. */
  lemma WeighCompose(l: Links, info: map<NodeId, NodeInfo>, info2: map<NodeId, NodeInfo>,
                     r: map<NodeId, NodeInfo>, n: NodeId, w: real)
    requires Fits(l, info) && n in l.up
    requires OnlyProps(info[n := info[n].(weight := Some(w))], info2)
    requires forall m | m in info && m !in l.kids[n] :: info2[m] == info[n := info[n].(weight := Some(w))][m]
    requires Retains(info2, r) && forall m | m in l.up && !BelowKidFrom(l, m, n, 0) :: r[m] == info2[m]
    ensures Retains(info, r) && r[n].weight == Some(w)
    ensures forall m | m in l.up && !Reaches(l, m, n) :: r[m] == info[m]
  {
    ChainRetains(info, info2, r, n, w);
    NotBelow(l, n, n);
    forall m | m in l.up && !Reaches(l, m, n) ensures r[m] == info[m] {
      NotBelow(l, n, m);
      assert m in info && m != n && m !in l.kids[n];
      OtherKept(info, n, w, m);
    }
  }

  lemma OtherKept(info: map<NodeId, NodeInfo>, n: NodeId, w: real, m: NodeId)
    requires n in info && m in info && m != n
    ensures info[n := info[n].(weight := Some(w))][m] == info[m]
  {
  }

  lemma ChainRetains(info: map<NodeId, NodeInfo>, info2: map<NodeId, NodeInfo>,
                     r: map<NodeId, NodeInfo>, n: NodeId, w: real)
    requires n in info
    requires OnlyProps(info[n := info[n].(weight := Some(w))], info2) && Retains(info2, r)
    ensures Retains(info, r)
  {
    var info1 := info[n := info[n].(weight := Some(w))];
    WeightRetains(info, n, w);
    OnlyPropsRetains(info1, info2);
    RetainsTrans(info, info1, info2);
    RetainsTrans(info, info2, r);
  }

  /** Setting one weight changes nothing else. */
  lemma WeightRetains(info: map<NodeId, NodeInfo>, n: NodeId, w: real)
    requires n in info
    ensures Retains(info, info[n := info[n].(weight := Some(w))])
  {
  }

  /** A node not below `n` is neither `n`, nor one of its children, nor below one of them. */
  lemma NotBelow(l: Links, n: NodeId, m: NodeId)
    requires Wf(l) && n in l.up && m in l.up && (m == n || !Reaches(l, m, n))
    ensures m !in l.kids[n] && !BelowKidFrom(l, m, n, 0)
    ensures m != n ==> m !in l.kids[n]
  {
    if BelowKidFrom(l, m, n, 0) {
      BelowKidReaches(l, m, n, 0);
    }
    if m in l.kids[n] {
      ListedChildPoints(l, n, m);
    }
  }

  /** The loop over the children from the `i`-th on changes only nodes below those children. */
  lemma {:induction false} WeighKidsFrame(l: Links, info: map<NodeId, NodeInfo>, n: NodeId, i: nat, w: real, mode: ModeTable, pow: Power)
    requires Fits(l, info) && n in l.up && i <= |l.kids[n]|
    ensures var r := WeighKids(l, info, n, i, w, mode, pow);
      Retains(info, r) && forall m | m in l.up && !BelowKidFrom(l, m, n, i) :: r[m] == info[m]
    decreases l.bound - l.rank[n], 0, |l.kids[n]| - i
  {
    if i < |l.kids[n]| {
      var c := l.kids[n][i];
      ListedChildPoints(l, n, c);
      var info1 := Weigh(l, info, c, ChildShare(w, info[c].proportion), mode, pow);
      WeighFrame(l, info, c, ChildShare(w, info[c].proportion), mode, pow);
      WeighKidsFrame(l, info1, n, i + 1, w, mode, pow);
      var r := WeighKids(l, info1, n, i + 1, w, mode, pow);
      RetainsTrans(info, info1, r);
      forall m | m in l.up && !BelowKidFrom(l, m, n, i) ensures r[m] == info[m] {
        assert !BelowKidFrom(l, m, n, i + 1) && !Reaches(l, m, c);
      }
    }
  }

  lemma ResetOneTwice(i: NodeInfo, ignoreUser: bool)
    ensures ResetOne(ResetOne(i, ignoreUser), ignoreUser) == ResetOne(i, ignoreUser)
  {
  }

  /** `_reset_proportions(n)` resets exactly the nodes of the pre-order of `n`. */
  lemma {:induction false} ResetEffect(l: Links, info: map<NodeId, NodeInfo>, n: NodeId, ignoreUser: bool)
    requires Fits(l, info) && n in l.up
    ensures forall m | m in info ::
      ResetTree(l, info, n, ignoreUser)[m] == if m in PreOrder(l, n) then ResetOne(info[m], ignoreUser) else info[m]
    decreases l.bound - l.rank[n], 1, 0
  {
    var info1 := info[n := ResetOne(info[n], ignoreUser)];
    ResetKidsEffect(l, info1, n, 0, ignoreUser);
    ResetOneTwice(info[n], ignoreUser);
  }

  lemma {:induction false} ResetKidsEffect(l: Links, info: map<NodeId, NodeInfo>, n: NodeId, i: nat, ignoreUser: bool)
    requires Fits(l, info) && n in l.up && i <= |l.kids[n]|
    ensures forall m | m in info ::
      ResetKids(l, info, n, i, ignoreUser)[m] == if m in PreOrderFrom(l, n, i) then ResetOne(info[m], ignoreUser) else info[m]
    decreases l.bound - l.rank[n], 0, |l.kids[n]| - i
  {
    if i < |l.kids[n]| {
      var c := l.kids[n][i];
      ListedChildPoints(l, n, c);
      var info1 := ResetTree(l, info, c, ignoreUser);
      ResetEffect(l, info, c, ignoreUser);
      ResetKidsEffect(l, info1, n, i + 1, ignoreUser);
      forall m | m in info
        ensures ResetKids(l, info, n, i, ignoreUser)[m] ==
          if m in PreOrderFrom(l, n, i) then ResetOne(info[m], ignoreUser) else info[m]
      {
        ResetOneTwice(info[m], ignoreUser);
      }
    }
  }

  /** Resetting twice is resetting once. */
  lemma ResetIdempotent(l: Links, info: map<NodeId, NodeInfo>, n: NodeId, ignoreUser: bool)
    requires Fits(l, info) && n in l.up
    ensures ResetTree(l, ResetTree(l, info, n, ignoreUser), n, ignoreUser) == ResetTree(l, info, n, ignoreUser)
  {
    var r := ResetTree(l, info, n, ignoreUser);
    ResetEffect(l, info, n, ignoreUser);
    ResetEffect(l, r, n, ignoreUser);
    forall m | m in info ensures ResetTree(l, r, n, ignoreUser)[m] == r[m] {
      ResetOneTwice(info[m], ignoreUser);
    }
  }

  // ------------------------------------------------- extraction facts

  lemma ThenAssoc(a: Result<(seq<string>, seq<real>)>, b: Result<(seq<string>, seq<real>)>, c: Result<(seq<string>, seq<real>)>)
    ensures Then(Then(a, b), c) == Then(a, Then(b, c))
  {
    if a.Ok? && b.Ok? && c.Ok? {
      assert (a.value.0 + b.value.0) + c.value.0 == a.value.0 + (b.value.0 + c.value.0);
      assert (a.value.1 + b.value.1) + c.value.1 == a.value.1 + (b.value.1 + c.value.1);
    }
  }

  /** Extracting from two runs of nodes is extracting from each in turn. */
  lemma {:induction false} EntriesAppend(info: map<NodeId, NodeInfo>, a: seq<NodeId>, b: seq<NodeId>)
    requires AllIn(info, a) && AllIn(info, b)
    ensures AllIn(info, a + b) && Entries(info, a + b) == Then(Entries(info, a), Entries(info, b))
  {
    if a == [] {
      assert a + b == b;
      var e := Entries(info, b);
      if e.Ok? {
        assert [] + e.value.0 == e.value.0 && [] + e.value.1 == e.value.1;
      }
    } else {
      assert (a + b)[0] == a[0] && (a + b)[1..] == a[1..] + b;
      EntriesAppend(info, a[1..], b);
      ThenAssoc(NodeEntries(info[a[0]]), Entries(info, a[1..]), Entries(info, b));
    }
  }

  /** Extraction reads only the nodes it visits. */
  lemma {:induction false} EntriesAgree(a: map<NodeId, NodeInfo>, b: map<NodeId, NodeInfo>, s: seq<NodeId>)
    requires AllIn(a, s) && AllIn(b, s) && forall k :: 0 <= k < |s| ==> a[s[k]] == b[s[k]]
    ensures Entries(a, s) == Entries(b, s)
  {
    if s != [] {
      assert forall k :: 0 <= k < |s[1..]| ==> s[1..][k] == s[k + 1];
      EntriesAgree(a, b, s[1..]);
    }
  }

  // --------------------------------------------------- the total weight

  /** The letters whose fill shares out all of 100: balanced and weighted. */
  predicate Sharing(letter: string)
  {
    letter == "b" || letter == "w"
  }

  /**
   * The shape under which a node's images carry exactly its apportioned
   * weight: a percentage node at 100%, with images exactly when it has no
   * children, and children filled in a sharing mode.
   */
  ghost predicate EvenNode(l: Links, info: map<NodeId, NodeInfo>, mode: ModeTable, m: NodeId)
    requires Fits(l, info) && m in l.up
  {
    info[m].isPercentage && info[m].weightModifier == 100 &&
    (info[m].images == [] <==> l.kids[m] != []) &&
    (l.kids[m] != [] ==> SharesOut(l, info, mode, m))
  }

  /**
   * The tables the policy for the children of `m` is drawn from: the mode
   * table, from level 1 up, and the first child's modifier hold sharing
   * letters only (`ChildPolicySharing` turns this into the policy's letter).
   */
  ghost predicate SharesOut(l: Links, info: map<NodeId, NodeInfo>, mode: ModeTable, m: NodeId)
    requires Fits(l, info) && m in l.up && l.kids[m] != []
  {
    1 in mode && SharingTable(mode) && l.kids[m][0] in info && SharingTable(ModifierOf(info[l.kids[m][0]]))
  }

  ghost predicate Even(l: Links, info: map<NodeId, NodeInfo>, mode: ModeTable, s: seq<NodeId>)
    requires Fits(l, info)
  {
    forall m | m in s :: m in l.up && EvenNode(l, info, mode, m)
  }

  /** The attributes `Fixed` keeps. */
  lemma FixedFields(a: NodeInfo, b: NodeInfo)
    requires Fixed(a) == Fixed(b)
    ensures a.isPercentage == b.isPercentage && a.weightModifier == b.weightModifier
    ensures a.images == b.images && a.modeModifier == b.modeModifier
  {
    assert a.isPercentage == Fixed(a).isPercentage && b.isPercentage == Fixed(b).isPercentage;
    assert a.images == Fixed(a).images && b.images == Fixed(b).images;
  }

  /** The shape does not depend on proportions and weights. */
  lemma EvenRetains(l: Links, a: map<NodeId, NodeInfo>, b: map<NodeId, NodeInfo>, mode: ModeTable, s: seq<NodeId>)
    requires Fits(l, a) && Fits(l, b) && Retains(a, b) && Even(l, a, mode, s)
    ensures Even(l, b, mode, s)
  {
    forall m | m in s ensures m in l.up && EvenNode(l, b, mode, m) {
      assert m in a;
      FixedFields(a[m], b[m]);
      if l.kids[m] != [] {
        var c := l.kids[m][0];
        ListedChildPoints(l, m, c);
        assert c in a;
        FixedFields(a[c], b[c]);
      }
    }
  }

  /** `w` hundredths of `t`. */
  function Hundredths(w: real, t: real): real
  {
    w * (t / 100.0)
  }

  lemma HundredthsAll(w: real)
    ensures Hundredths(w, 100.0) == w
  {
  }

  lemma ShareSplit(w: real, p: Option<real>, t: real, total: real)
    requires total == PropOr0(p) + t
    ensures ChildShare(w, p) + Hundredths(w, t) == Hundredths(w, total)
  {
  }

  /** The proportions of the children of `n` from the `i`-th on, added up, none counting as 0. */
  function KidsTotal(l: Links, info: map<NodeId, NodeInfo>, n: NodeId, i: nat): real
    requires Fits(l, info) && n in l.up && i <= |l.kids[n]|
    decreases |l.kids[n]| - i
  {
    if i == |l.kids[n]| then 0.0
    else
      ListedChildPoints(l, n, l.kids[n][i]);
      PropOr0(info[l.kids[n][i]].proportion) + KidsTotal(l, info, n, i + 1)
  }

  lemma {:induction false} KidsTotalIsSetSum(l: Links, info: map<NodeId, NodeInfo>, n: NodeId, i: nat)
    requires Fits(l, info) && n in l.up && i <= |l.kids[n]| && AllIn(info, l.kids[n])
    ensures KidsTotal(l, info, n, i) == SetSum(Props(info, l.kids[n])[i..])
    decreases |l.kids[n]| - i
  {
    var ps := Props(info, l.kids[n]);
    if i < |l.kids[n]| {
      KidsTotalIsSetSum(l, info, n, i + 1);
      SetSumFront(ps[i..]);
      assert ps[i..][1..] == ps[i + 1..];
    }
  }

  /** The total reads only the proportions of the children it adds up. */
  lemma {:induction false} KidsTotalAgree(l: Links, a: map<NodeId, NodeInfo>, b: map<NodeId, NodeInfo>, n: NodeId, i: nat)
    requires Fits(l, a) && Fits(l, b) && n in l.up && i <= |l.kids[n]|
    requires forall j | i <= j < |l.kids[n]| :: a[l.kids[n][j]].proportion == b[l.kids[n][j]].proportion
    ensures KidsTotal(l, a, n, i) == KidsTotal(l, b, n, i)
    decreases |l.kids[n]| - i
  {
    if i < |l.kids[n]| {
      KidsTotalAgree(l, a, b, n, i + 1);
    }
  }

  /** Filling children none of which is set, in a sharing mode, gives them proportions adding up to 100. */
  lemma FillKidsTotal(l: Links, info: map<NodeId, NodeInfo>, n: NodeId, mode: ModeTable, pow: Power)
    requires Fits(l, info) && n in l.up && l.kids[n] != []
    requires Sharing(ChildPolicy(l, info, n, mode).letter)
    requires forall c | c in l.kids[n] :: c in info && info[c].proportion.None?
    ensures KidsTotal(l, FillKids(l, info, n, mode, pow), n, 0) == 100.0
  {
    var p := ChildPolicy(l, info, n, mode);
    KidsIn(l, info, n);
    var ns := l.kids[n];
    var ps := Props(info, ns);
    NothingSet(ps);
    var counts := Counts(l, info, UnsetNodes(info, ns));
    FillSumsTo100(ps, counts, p.letter, p.slopes[0], p.letter == "w", pow);
    FillTreeEffect(l, info, ns, p.letter, p.slopes[0], p.letter == "w", pow);
    var r := FillKids(l, info, n, mode, pow);
    KidsIn(l, r, n);
    KidsTotalIsSetSum(l, r, n, 0);
    assert Props(r, ns)[0..] == Props(r, ns);
  }

  /** Two extractions in sequence add up. */
  lemma ThenSum(e1: Result<(seq<string>, seq<real>)>, e2: Result<(seq<string>, seq<real>)>, a: real, b: real)
    requires e1.Ok? && e2.Ok? && SumReal(e1.value.1) == a && SumReal(e2.value.1) == b
    ensures Then(e1, e2).Ok? && SumReal(Then(e1, e2).value.1) == a + b
  {
    SumRealAppend(e1.value.1, e2.value.1);
  }

  /** A childless 100% node that has its weight spreads it evenly over its images. */
  lemma LeafSum(i: NodeInfo, aw: real)
    requires i.isPercentage && i.images != [] && i.weight == Some(aw)
    ensures NodeEntries(i).Ok? && SumReal(NodeEntries(i).value.1) == aw
  {
    var k := |i.images|;
    SumRepeat(aw / (k as real), k);
    WholeOfParts(aw, k as real);
  }

  /** A 100% node keeps all it is apportioned. */
  lemma FullWeight(i: NodeInfo, aw: real)
    requires i.isPercentage && i.weightModifier == 100
    ensures NodeWeight(i, aw) == aw
  {
  }

  /** Nothing is set below the children of `n` from the `i`-th on. */
  ghost predicate UnsetBelowKids(l: Links, info: map<NodeId, NodeInfo>, n: NodeId, i: nat)
    requires Wf(l) && n in l.up && i <= |l.kids[n]|
  {
    forall m | m in PreOrderFrom(l, n, i) && m !in l.kids[n] :: m in info && info[m].proportion.None?
  }

  /** Nothing is set strictly below `n`. */
  ghost predicate UnsetBelow(l: Links, info: map<NodeId, NodeInfo>, n: NodeId)
    requires Wf(l) && n in l.up
  {
    forall m | m in PreOrderFrom(l, n, 0) :: m in info && info[m].proportion.None?
  }

  /** Ready to weigh `n`: the even shape below it and nothing set strictly below it. */
  ghost predicate NodeReady(l: Links, info: map<NodeId, NodeInfo>, mode: ModeTable, n: NodeId)
  {
    Fits(l, info) && n in l.up && Even(l, info, mode, PreOrder(l, n)) && UnsetBelow(l, info, n)
  }

  /** Ready to weigh the children of `n` from the `i`-th on. */
  ghost predicate KidsReady(l: Links, info: map<NodeId, NodeInfo>, mode: ModeTable, n: NodeId, i: nat)
  {
    Fits(l, info) && n in l.up && i <= |l.kids[n]| &&
    Even(l, info, mode, PreOrderFrom(l, n, i)) && UnsetBelowKids(l, info, n, i)
  }

  /** The images and weights of the nodes of `s` come out without error, the weights adding up to `total`. */
  ghost predicate SumsTo(info: map<NodeId, NodeInfo>, s: seq<NodeId>, total: real)
  {
    AllIn(info, s) && Entries(info, s).Ok? && SumReal(Entries(info, s).value.1) == total
  }

  /** The `i`-th child of a ready group is ready. */
  lemma KidHypotheses(l: Links, info: map<NodeId, NodeInfo>, mode: ModeTable, n: NodeId, i: nat)
    requires KidsReady(l, info, mode, n, i) && i < |l.kids[n]|
    ensures NodeReady(l, info, mode, l.kids[n][i])
  {
    var c := l.kids[n][i];
    ListedChildPoints(l, n, c);
    forall m | m in PreOrder(l, c) ensures m in PreOrderFrom(l, n, i) {
      KidPreOrderWithin(l, n, i, i, m);
    }
    forall m | m in PreOrderFrom(l, c, 0) ensures m in info && info[m].proportion.None? {
      PreOrderFromBelow(l, c, 0, m);
      BelowKidReaches(l, m, c, 0);
      BelowNotSibling(l, n, c, m);
      assert m in PreOrder(l, c);
      KidPreOrderWithin(l, n, i, i, m);
    }
  }

  /** Nodes after the subtree of the `i`-th child of `n` do not lie below it. */
  lemma RestApart(l: Links, n: NodeId, i: nat)
    requires Wf(l) && n in l.up && i < |l.kids[n]|
    ensures forall m | m in PreOrderFrom(l, n, i + 1) :: !Reaches(l, m, l.kids[n][i])
    ensures forall j | i + 1 <= j < |l.kids[n]| :: !Reaches(l, l.kids[n][j], l.kids[n][i])
  {
    var c := l.kids[n][i];
    forall m | m in PreOrderFrom(l, n, i + 1) ensures !Reaches(l, m, c) {
      PreOrderFromBelow(l, n, i + 1, m);
      if Reaches(l, m, c) {
        BelowOneKid(l, m, n, i);
      }
    }
    forall j | i + 1 <= j < |l.kids[n]| ensures !Reaches(l, l.kids[n][j], c) {
      var d := l.kids[n][j];
      assert BelowKidFrom(l, d, n, i + 1);
      if Reaches(l, d, c) {
        BelowOneKid(l, d, n, i);
      }
    }
  }

  /** Weighing the `i`-th child puts its share into the images below it. */
  lemma {:induction false} KidStepSum(l: Links, info: map<NodeId, NodeInfo>, n: NodeId, i: nat, w: real,
                                      mode: ModeTable, pow: Power)
    requires KidsReady(l, info, mode, n, i) && i < |l.kids[n]|
    ensures l.kids[n][i] in info
    ensures var c := l.kids[n][i];
      var share := ChildShare(w, info[c].proportion);
      SumsTo(Weigh(l, info, c, share, mode, pow), PreOrder(l, c), share)
    decreases l.bound - l.rank[n], 0, |l.kids[n]| - i, 0
  {
    var c := l.kids[n][i];
    ListedChildPoints(l, n, c);
    KidHypotheses(l, info, mode, n, i);
    WeighSum(l, info, c, ChildShare(w, info[c].proportion), mode, pow);
  }

  /** Weighing the `i`-th child keeps the later children ready and their proportions as they were. */
  lemma KidStepKeep(l: Links, info: map<NodeId, NodeInfo>, n: NodeId, i: nat, w: real, mode: ModeTable, pow: Power)
    requires KidsReady(l, info, mode, n, i) && i < |l.kids[n]|
    ensures l.kids[n][i] in info
    ensures var c := l.kids[n][i];
      var info1 := Weigh(l, info, c, ChildShare(w, info[c].proportion), mode, pow);
      KidsReady(l, info1, mode, n, i + 1) && KidsTotal(l, info1, n, i + 1) == KidsTotal(l, info, n, i + 1)
  {
    var c := l.kids[n][i];
    ListedChildPoints(l, n, c);
    var info1 := Weigh(l, info, c, ChildShare(w, info[c].proportion), mode, pow);
    WeighFrame(l, info, c, ChildShare(w, info[c].proportion), mode, pow);
    KeepAfterKid(l, info, info1, mode, n, i);
  }

  /** What lies outside the subtree of the `i`-th child, kept, keeps the later children ready. */
  lemma KeepAfterKid(l: Links, info: map<NodeId, NodeInfo>, info1: map<NodeId, NodeInfo>, mode: ModeTable, n: NodeId, i: nat)
    requires KidsReady(l, info, mode, n, i) && i < |l.kids[n]| && Fits(l, info1) && Retains(info, info1)
    requires forall m | m in l.up && !Reaches(l, m, l.kids[n][i]) :: info1[m] == info[m]
    ensures KidsReady(l, info1, mode, n, i + 1) && KidsTotal(l, info1, n, i + 1) == KidsTotal(l, info, n, i + 1)
  {
    var c := l.kids[n][i];
    assert PreOrderFrom(l, n, i) == PreOrder(l, c) + PreOrderFrom(l, n, i + 1);
    RestApart(l, n, i);
    EvenRetains(l, info, info1, mode, PreOrderFrom(l, n, i + 1));
    KidsTotalAgree(l, info1, info, n, i + 1);
  }

  /** The later children leave the subtree of the `i`-th child alone. */
  lemma HereKept(l: Links, info: map<NodeId, NodeInfo>, n: NodeId, i: nat, w: real, mode: ModeTable, pow: Power)
    requires Fits(l, info) && n in l.up && i < |l.kids[n]|
    ensures Entries(WeighKids(l, info, n, i + 1, w, mode, pow), PreOrder(l, l.kids[n][i])) == Entries(info, PreOrder(l, l.kids[n][i]))
  {
    var c := l.kids[n][i];
    var here := PreOrder(l, c);
    var r := WeighKids(l, info, n, i + 1, w, mode, pow);
    WeighKidsFrame(l, info, n, i + 1, w, mode, pow);
    forall k | 0 <= k < |here| ensures r[here[k]] == info[here[k]] {
      PreOrderBelow(l, c, here[k]);
      BelowOneKid(l, here[k], n, i);
    }
    EntriesAgree(r, info, here);
  }

  /** What one step of the loop over the children leaves: the share of the `i`-th child weighed into `info1`. */
  ghost predicate StepDone(l: Links, info: map<NodeId, NodeInfo>, info1: map<NodeId, NodeInfo>, n: NodeId, i: nat,
                           w: real, share: real)
  {
    Fits(l, info) && Fits(l, info1) && n in l.up && i < |l.kids[n]|
    && l.kids[n][i] in info && share == ChildShare(w, info[l.kids[n][i]].proportion)
    && SumsTo(info1, PreOrder(l, l.kids[n][i]), share)
    && KidsTotal(l, info1, n, i + 1) == KidsTotal(l, info, n, i + 1)
  }

  /** One step of the loop over the children, in sums: the `i`-th child's share and then the rest. */
  lemma KidsJoin(l: Links, info: map<NodeId, NodeInfo>, info1: map<NodeId, NodeInfo>, n: NodeId, i: nat,
                 w: real, share: real, mode: ModeTable, pow: Power)
    requires StepDone(l, info, info1, n, i, w, share)
    requires SumsTo(WeighKids(l, info1, n, i + 1, w, mode, pow), PreOrderFrom(l, n, i + 1), Hundredths(w, KidsTotal(l, info1, n, i + 1)))
    ensures SumsTo(WeighKids(l, info1, n, i + 1, w, mode, pow), PreOrderFrom(l, n, i), Hundredths(w, KidsTotal(l, info, n, i)))
  {
    var c := l.kids[n][i];
    var r := WeighKids(l, info1, n, i + 1, w, mode, pow);
    var here, rest := PreOrder(l, c), PreOrderFrom(l, n, i + 1);
    HereKept(l, info1, n, i, w, mode, pow);
    assert PreOrderFrom(l, n, i) == here + rest;
    EntriesAppend(r, here, rest);
    var total := KidsTotal(l, info, n, i + 1);
    ThenSum(Entries(r, here), Entries(r, rest), share, Hundredths(w, total));
    ShareSplit(w, info[c].proportion, total, KidsTotal(l, info, n, i));
  }

  /** The `i`-th step of the loop over the children: the child's share, and the state it leaves. */
  lemma KidStep(l: Links, info: map<NodeId, NodeInfo>, n: NodeId, i: nat, w: real, mode: ModeTable, pow: Power)
    returns (share: real, info1: map<NodeId, NodeInfo>)
    requires KidsReady(l, info, mode, n, i) && i < |l.kids[n]|
    ensures StepDone(l, info, info1, n, i, w, share) && KidsReady(l, info1, mode, n, i + 1)
    ensures WeighKids(l, info1, n, i + 1, w, mode, pow) == WeighKids(l, info, n, i, w, mode, pow)
    decreases l.bound - l.rank[n], 0, |l.kids[n]| - i, 1
  {
    var c := l.kids[n][i];
    ListedChildPoints(l, n, c);
    share := ChildShare(w, info[c].proportion);
    info1 := Weigh(l, info, c, share, mode, pow);
    KidStepSum(l, info, n, i, w, mode, pow);
    KidStepKeep(l, info, n, i, w, mode, pow);
    WeighKidsStep(l, info, n, i, w, mode, pow);
  }

  /** The loop over the children, one step unrolled. */
  lemma WeighKidsStep(l: Links, info: map<NodeId, NodeInfo>, n: NodeId, i: nat, w: real, mode: ModeTable, pow: Power)
    requires Fits(l, info) && n in l.up && i < |l.kids[n]|
    ensures l.kids[n][i] in info
    ensures var c := l.kids[n][i];
      WeighKids(l, Weigh(l, info, c, ChildShare(w, info[c].proportion), mode, pow), n, i + 1, w, mode, pow)
      == WeighKids(l, info, n, i, w, mode, pow)
  {
    ListedChildPoints(l, n, l.kids[n][i]);
  }

  /**
   * The loop over the children from the `i`-th on, under the even shape
   * and with nothing set below the children, hands out in images exactly
   * the children's proportions of `w`.
   */
  lemma {:induction false} WeighKidsSum(l: Links, info: map<NodeId, NodeInfo>, n: NodeId, i: nat, w: real,
                                        mode: ModeTable, pow: Power)
    requires KidsReady(l, info, mode, n, i)
    ensures SumsTo(WeighKids(l, info, n, i, w, mode, pow), PreOrderFrom(l, n, i), Hundredths(w, KidsTotal(l, info, n, i)))
    decreases l.bound - l.rank[n], 0, |l.kids[n]| - i, 3
  {
    if i < |l.kids[n]| {
      KidsFromSum(l, info, n, i, w, mode, pow);
    } else {
      assert PreOrderFrom(l, n, i) == [];
    }
  }

  /** `WeighKidsSum` when there is an `i`-th child: its step, then the rest by induction. */
  lemma KidsFromSum(l: Links, info: map<NodeId, NodeInfo>, n: NodeId, i: nat, w: real, mode: ModeTable, pow: Power)
    requires KidsReady(l, info, mode, n, i) && i < |l.kids[n]|
    ensures SumsTo(WeighKids(l, info, n, i, w, mode, pow), PreOrderFrom(l, n, i), Hundredths(w, KidsTotal(l, info, n, i)))
    decreases l.bound - l.rank[n], 0, |l.kids[n]| - i, 2
  {
    var share, info1 := KidStep(l, info, n, i, w, mode, pow);
    WeighKidsSum(l, info1, n, i + 1, w, mode, pow);
    KidsJoin(l, info, info1, n, i, w, share, mode, pow);
  }

  /**
   * Filling the children of `n` once it has weight `aw` gives them
   * proportions adding up to 100 and makes them ready.
   */
  lemma FilledKids(l: Links, info: map<NodeId, NodeInfo>, n: NodeId, aw: real, mode: ModeTable, pow: Power)
    requires NodeReady(l, info, mode, n) && l.kids[n] != []
    ensures var info2 := FillKids(l, info[n := info[n].(weight := Some(aw))], n, mode, pow);
      info2[n] == info[n].(weight := Some(aw)) && KidsReady(l, info2, mode, n, 0) && KidsTotal(l, info2, n, 0) == 100.0
  {
    var info1 := info[n := info[n].(weight := Some(aw))];
    assert n in PreOrder(l, n);
    KidsIn(l, info1, n);
    var info2 := FillKids(l, info1, n, mode, pow);
    FillKidsEffect(l, info1, n, mode, pow);
    ChildPolicySharing(l, info, mode, n);
    assert ChildPolicy(l, info1, n, mode) == ChildPolicy(l, info, n, mode);
    forall c | c in l.kids[n] ensures c in info1 && info1[c].proportion.None? {
      var j :| 0 <= j < |l.kids[n]| && l.kids[n][j] == c;
      ListedChildPoints(l, n, c);
      KidPreOrderWithin(l, n, 0, j, c);
    }
    FillKidsTotal(l, info1, n, mode, pow);
    OnlyPropsRetains(info1, info2);
    WeightRetains(info, n, aw);
    RetainsTrans(info, info1, info2);
    EvenRetains(l, info, info2, mode, PreOrderFrom(l, n, 0));
    forall m | m in PreOrderFrom(l, n, 0) && m !in l.kids[n] ensures m in info2 && info2[m].proportion.None? {
      PreOrderFromBelow(l, n, 0, m);
      BelowKidReaches(l, m, n, 0);
      OtherKept(info, n, aw, m);
    }
  }

  /**
   * Under the even shape, with nothing set strictly below `n`, the images
   * below `n` carry exactly the weight `n` is apportioned.
   */
  lemma {:induction false} WeighSum(l: Links, info: map<NodeId, NodeInfo>, n: NodeId, aw: real, mode: ModeTable, pow: Power)
    requires NodeReady(l, info, mode, n)
    ensures SumsTo(Weigh(l, info, n, aw, mode, pow), PreOrder(l, n), aw)
    decreases l.bound - l.rank[n], 1, 0, 1
  {
    if l.kids[n] == [] {
      LeafWeighSum(l, info, n, aw, mode, pow);
    } else {
      InnerWeighSum(l, info, n, aw, mode, pow);
    }
  }

  lemma LeafWeighSum(l: Links, info: map<NodeId, NodeInfo>, n: NodeId, aw: real, mode: ModeTable, pow: Power)
    requires NodeReady(l, info, mode, n) && l.kids[n] == []
    ensures SumsTo(Weigh(l, info, n, aw, mode, pow), PreOrder(l, n), aw)
  {
    assert n in PreOrder(l, n);
    FullWeight(info[n], aw);
    var r := Weigh(l, info, n, aw, mode, pow);
    assert PreOrder(l, n) == [n];
    assert Entries(r, [n]) == Then(NodeEntries(r[n]), Entries(r, []));
    LeafSum(r[n], aw);
    ThenSum(NodeEntries(r[n]), Entries(r, []), aw, 0.0);
  }

  lemma {:induction false} InnerWeighSum(l: Links, info: map<NodeId, NodeInfo>, n: NodeId, aw: real, mode: ModeTable, pow: Power)
    requires NodeReady(l, info, mode, n) && l.kids[n] != []
    ensures SumsTo(Weigh(l, info, n, aw, mode, pow), PreOrder(l, n), aw)
    decreases l.bound - l.rank[n], 1, 0, 0
  {
    assert n in PreOrder(l, n);
    FullWeight(info[n], aw);
    var info2 := FillKids(l, info[n := info[n].(weight := Some(aw))], n, mode, pow);
    assert WeighKids(l, info2, n, 0, aw, mode, pow) == Weigh(l, info, n, aw, mode, pow);
    FilledKids(l, info, n, aw, mode, pow);
    WeighKidsSum(l, info2, n, 0, aw, mode, pow);
    InnerJoin(l, info2, n, aw, mode, pow);
  }

  /** The node itself adds no images: what its children hand out is the whole. */
  lemma InnerJoin(l: Links, info2: map<NodeId, NodeInfo>, n: NodeId, aw: real, mode: ModeTable, pow: Power)
    requires Fits(l, info2) && n in l.up && l.kids[n] != [] && info2[n].images == []
    requires KidsTotal(l, info2, n, 0) == 100.0
    requires SumsTo(WeighKids(l, info2, n, 0, aw, mode, pow), PreOrderFrom(l, n, 0), Hundredths(aw, KidsTotal(l, info2, n, 0)))
    ensures SumsTo(WeighKids(l, info2, n, 0, aw, mode, pow), PreOrder(l, n), aw)
  {
    var r := WeighKids(l, info2, n, 0, aw, mode, pow);
    var rest := PreOrderFrom(l, n, 0);
    assert PreOrder(l, n) == [n] + rest;
    assert Entries(r, PreOrder(l, n)) == Then(NodeEntries(r[n]), Entries(r, rest));
    WeighKidsFrame(l, info2, n, 0, aw, mode, pow);
    NotBelow(l, n, n);
    HundredthsAll(aw);
    ThenSum(NodeEntries(r[n]), Entries(r, rest), 0.0, aw);
  }

  // ------------------------------------------- extraction, in full

  /** The images of the nodes of `s`, in order. */
  ghost function Images(info: map<NodeId, NodeInfo>, s: seq<NodeId>): seq<string>
    requires AllIn(info, s)
  {
    if s == [] then [] else info[s[0]].images + Images(info, s[1..])
  }

  /**
   * Extraction emits one entry per image, in the order of `s`, and fails
   * exactly when some node of `s` with images has no weight or a zero divisor.
   */
  lemma {:induction false} EntriesShape(info: map<NodeId, NodeInfo>, s: seq<NodeId>)
    requires AllIn(info, s)
    ensures Entries(info, s).Ok? ==> Entries(info, s).value.0 == Images(info, s)
    ensures Entries(info, s).Err? <==> exists k :: 0 <= k < |s| && NodeEntries(info[s[k]]).Err?
  {
    if s != [] {
      EntriesShape(info, s[1..]);
      if Entries(info, s[1..]).Err? {
        var k :| 0 <= k < |s[1..]| && NodeEntries(info[s[1..][k]]).Err?;
        assert NodeEntries(info[s[k + 1]]).Err?;
      }
      if exists k :: 0 <= k < |s| && NodeEntries(info[s[k]]).Err? {
        var k :| 0 <= k < |s| && NodeEntries(info[s[k]]).Err?;
        if k > 0 {
          assert NodeEntries(info[s[1..][k - 1]]).Err?;
        }
      }
    }
  }

  /** The image total of `count_branches` is the number of entries extraction emits. */
  lemma {:induction false} TallyCountsImages(info: map<NodeId, NodeInfo>, s: seq<NodeId>)
    requires AllIn(info, s)
    ensures Tally(info, s).1 == |Images(info, s)|
  {
    if s != [] {
      TallyCountsImages(info, s[1..]);
    }
  }

  // ------------------------------------------ the whole calculation

  /** A mode table of sharing letters at positive levels. */
  predicate SharingTable(t: ModeTable)
  {
    forall k | k in t :: k >= 1 && Sharing(t[k].letter)
  }

  /**
   * Below a table whose lowest rung is 1, merged with a modifier of the
   * same kind, every level past the first is filled in a sharing mode.
   */
  lemma SharingPolicy(mode: ModeTable, modifier: ModeTable, level: int)
    requires 1 in mode && SharingTable(mode) && SharingTable(modifier) && level >= 2
    ensures Sharing(ResolveMode(mode + modifier, level).letter)
  {
    var t := mode + modifier;
    assert 1 in t;
    var lo := MinKey(t);
    assert lo <= 1;
    assert t[lo] == mode[lo] || t[lo] == modifier[lo];
  }

  /** The shape the total-weight theorem assumes, in the node attributes the calculation never changes. */
  ghost predicate EvenShape(l: Links, info: map<NodeId, NodeInfo>, n: NodeId)
    requires Wf(l) && n in l.up
  {
    forall m | m in PreOrder(l, n) :: m in info && info[m].isPercentage && info[m].weightModifier == 100 &&
      (info[m].images == [] <==> l.kids[m] != []) && SharingTable(ModifierOf(info[m]))
  }

  /** The attribute shape, under a table whose lowest rung is 1, is the even shape. */
  lemma ShapeIsEven(l: Links, info: map<NodeId, NodeInfo>, mode: ModeTable, n: NodeId)
    requires Fits(l, info) && n in l.up && EvenShape(l, info, n) && 1 in mode && SharingTable(mode)
    ensures Even(l, info, mode, PreOrder(l, n))
  {
    forall m | m in PreOrder(l, n) ensures m in l.up && EvenNode(l, info, mode, m) {
      NodeIsEven(l, info, mode, n, m);
    }
  }

  lemma NodeIsEven(l: Links, info: map<NodeId, NodeInfo>, mode: ModeTable, n: NodeId, m: NodeId)
    requires Fits(l, info) && n in l.up && EvenShape(l, info, n) && 1 in mode && SharingTable(mode)
    requires m in PreOrder(l, n)
    ensures m in l.up && EvenNode(l, info, mode, m)
  {
    PreOrderBelow(l, n, m);
    if l.kids[m] != [] {
      var c := l.kids[m][0];
      ListedChildPoints(l, m, c);
      ChildWithin(l, n, m, c);
    }
  }

  lemma ChildPolicySharing(l: Links, info: map<NodeId, NodeInfo>, mode: ModeTable, m: NodeId)
    requires Fits(l, info) && m in l.up && l.kids[m] != [] && 1 in mode && SharingTable(mode)
    requires l.kids[m][0] in info && SharingTable(ModifierOf(info[l.kids[m][0]]))
    ensures Sharing(ChildPolicy(l, info, m, mode).letter)
  {
    SharingPolicy(mode, ModifierOf(info[l.kids[m][0]]), Level(l, m) + 1);
  }

  /** Resetting changes nothing but proportions, and clears them when user proportions are ignored or absent. */
  lemma ResetClears(l: Links, info: map<NodeId, NodeInfo>, n: NodeId, ignoreUser: bool)
    requires Fits(l, info) && n in l.up
    requires ignoreUser || forall m | m in PreOrder(l, n) :: m in info && info[m].userProportion.None?
    ensures var r := ResetTree(l, info, n, ignoreUser);
      OnlyProps(info, r) && forall m | m in PreOrder(l, n) :: m in r && r[m].proportion.None?
  {
    ResetEffect(l, info, n, ignoreUser);
  }

  /** The root is the one node at level 1 of its tree, so it is the only starting node. */
  lemma StartsAtRoot(l: Links, root: NodeId, mode: ModeTable)
    requires Wf(l) && root in l.up && l.up[root].None? && 1 in mode && SharingTable(mode)
    ensures MinKey(mode) == 1 && Starts(l, root, mode) == [root]
  {
  }

  /** Filling a lone unset starting node in a sharing mode gives it all of 100. */
  lemma LoneStartFilled(l: Links, info: map<NodeId, NodeInfo>, root: NodeId, letter: string, slope: int,
                        useCount: bool, pow: Power)
    requires Fits(l, info) && root in l.up && info[root].proportion.None? && Sharing(letter)
    ensures var r := FillTree(l, info, [root], letter, slope, useCount, pow);
      r[root].proportion == Some(100.0) && OnlyProps(info, r) && forall m | m in info && m != root :: r[m] == info[m]
  {
    assert Props(info, [root]) == [None];
    LoneFill(Counts(l, info, UnsetNodes(info, [root])), letter, slope, useCount, pow);
    FillTreeEffect(l, info, [root], letter, slope, useCount, pow);
    var r := FillTree(l, info, [root], letter, slope, useCount, pow);
    assert r[root].proportion == Props(r, [root])[0];
  }

  /** Once only the root is filled, nothing strictly below it is set. */
  lemma BelowRootUnset(l: Links, info: map<NodeId, NodeInfo>, r: map<NodeId, NodeInfo>, root: NodeId)
    requires Fits(l, info) && Fits(l, r) && root in l.up
    requires forall m | m in PreOrder(l, root) :: m in info && info[m].proportion.None?
    requires forall m | m in info && m != root :: r[m] == info[m]
    ensures UnsetBelow(l, r, root)
  {
    forall m | m in PreOrderFrom(l, root, 0) ensures m in r && r[m].proportion.None? {
      PreOrderFromBelow(l, root, 0, m);
      BelowKidReaches(l, m, root, 0);
    }
  }

  /** After the reset the tree is even and nothing in it is set. */
  lemma ResetReady(l: Links, info: map<NodeId, NodeInfo>, root: NodeId, mode: ModeTable, ignoreUser: bool)
    requires Fits(l, info) && root in l.up
    requires 1 in mode && SharingTable(mode) && EvenShape(l, info, root)
    requires ignoreUser || forall m | m in PreOrder(l, root) :: m in info && info[m].userProportion.None?
    ensures var r := ResetTree(l, info, root, ignoreUser);
      Fits(l, r) && Even(l, r, mode, PreOrder(l, root)) && forall m | m in PreOrder(l, root) :: m in r && r[m].proportion.None?
  {
    var r := ResetTree(l, info, root, ignoreUser);
    ResetClears(l, info, root, ignoreUser);
    OnlyPropsRetains(info, r);
    ShapeIsEven(l, info, mode, root);
    EvenRetains(l, info, r, mode, PreOrder(l, root));
  }

  /** Filling the root alone, in the policy of level 1, gives it all of 100 and leaves it ready. */
  lemma RootReady(l: Links, info: map<NodeId, NodeInfo>, root: NodeId, mode: ModeTable, pow: Power)
    requires Fits(l, info) && root in l.up && 1 in mode && SharingTable(mode)
    requires Even(l, info, mode, PreOrder(l, root)) && forall m | m in PreOrder(l, root) :: m in info && info[m].proportion.None?
    ensures var p := ResolveMode(mode, 1);
      var r := FillTree(l, info, [root], p.letter, p.slopes[0], p.letter == "w", pow);
      r[root].proportion == Some(100.0) && NodeReady(l, r, mode, root)
  {
    var p := ResolveMode(mode, 1);
    assert root in PreOrder(l, root);
    LoneStartFilled(l, info, root, p.letter, p.slopes[0], p.letter == "w", pow);
    var r := FillTree(l, info, [root], p.letter, p.slopes[0], p.letter == "w", pow);
    ReadyAfterRoot(l, info, r, mode, root);
  }

  /** Changing nothing but the proportion of the root keeps the tree even and everything below the root unset. */
  lemma ReadyAfterRoot(l: Links, info: map<NodeId, NodeInfo>, r: map<NodeId, NodeInfo>, mode: ModeTable, root: NodeId)
    requires Fits(l, info) && root in l.up
    requires Even(l, info, mode, PreOrder(l, root)) && forall m | m in PreOrder(l, root) :: m in info && info[m].proportion.None?
    requires OnlyProps(info, r) && forall m | m in info && m != root :: r[m] == info[m]
    ensures NodeReady(l, r, mode, root)
  {
    OnlyPropsRetains(info, r);
    EvenRetains(l, info, r, mode, PreOrder(l, root));
    BelowRootUnset(l, info, r, root);
  }

  /** With the root as its one starting node, holding all of 100, the calculation is the weighing of the root from `TOTAL_WEIGHT`. */
  lemma CalcFromRoot(l: Links, info: map<NodeId, NodeInfo>, root: NodeId, mode: ModeTable, pow: Power)
    requires Fits(l, info) && root in l.up && mode != map[] && MinKey(mode) == 1 && Starts(l, root, mode) == [root]
    ensures var p := ResolveMode(mode, 1);
      var r := FillTree(l, info, [root], p.letter, p.slopes[0], p.letter == "w", pow);
      r[root].proportion == Some(100.0) ==> Calc(l, info, root, mode, pow) == Weigh(l, r, root, TotalWeight, mode, pow)
  {
    var p := ResolveMode(mode, 1);
    var r := FillTree(l, info, [root], p.letter, p.slopes[0], p.letter == "w", pow);
    if r[root].proportion == Some(100.0) {
      assert Seed(r, root) == r;
      var w := Weigh(l, r, root, StartShare(100.0), mode, pow);
      assert WeighStarts(l, r, [root], 0, mode, pow) == WeighStarts(l, w, [root], 1, mode, pow);
    }
  }

  /**
   * The sum theorem: with the lowest rung of the table at 1, every node a
   * 100% percentage node, images exactly on the childless nodes, sharing
   * letters throughout and no user proportion in force, the calculation
   * succeeds and the extracted weights add up to `TOTAL_WEIGHT`.
   */
  lemma CalculateSum(l: Links, info: map<NodeId, NodeInfo>, root: NodeId, mode: ModeTable, ignoreUser: bool, pow: Power)
    requires Fits(l, info) && root in l.up && l.up[root].None?
    requires 1 in mode && SharingTable(mode) && EvenShape(l, info, root)
    requires ignoreUser || forall m | m in PreOrder(l, root) :: m in info && info[m].userProportion.None?
    ensures var r := CalculateWeights(l, info, root, mode, ignoreUser, pow);
      r.0.None? && SumsTo(r.1, PreOrder(l, root), TotalWeight)
  {
    var info1 := ResetTree(l, info, root, ignoreUser);
    ResetReady(l, info, root, mode, ignoreUser);
    StartsAtRoot(l, root, mode);
    RootReady(l, info1, root, mode, pow);
    CalcFromRoot(l, info1, root, mode, pow);
    var p := ResolveMode(mode, 1);
    WeighSum(l, FillTree(l, info1, [root], p.letter, p.slopes[0], p.letter == "w", pow), root, TotalWeight, mode, pow);
  }
}
