/**
 * `enkan/tree/tree_logic.py` on a `Tree`: the weight calculation writes
 * proportions and weights onto the nodes in place, and the extraction
 * walks the tree collecting images and weights. Each method is proved to
 * leave exactly the state (or return exactly the result) that the
 * functions of `Weights` describe; what those functions guarantee is
 * proved there.
 */
module TreeLogic {
  import opened Common
  import opened Modes
  import opened Nodes
  import opened Proportions
  import opened Weights
  import opened TreeModel

  /** Writes the proportions `qs` onto the distinct nodes `ns`, in order. */
  method WriteProportions(t: Tree, ns: seq<NodeId>, qs: seq<Option<real>>)
    requires Fits(t.links, t.info) && AllIn(t.info, ns) && |qs| == |ns|
    modifies t`info
    ensures t.links == old(t.links)
    ensures t.info == SetProps(old(t.info), ns, qs)
  {
    ghost var info0 := t.info;
    var k := 0;
    while k < |ns|
      invariant k <= |ns| && Fits(t.links, t.info)
      invariant t.info == SetProps(info0, ns[..k], qs[..k])
    {
      SetPropsStep(info0, ns, qs, k);
      var n := ns[k];
      t.info := t.info[n := t.info[n].(proportion := qs[k])];
      k := k + 1;
    }
    assert ns[..k] == ns && qs[..k] == qs;
  }

  /**
   * `_fill_missing_proportions(ns, letter, slope, count_fn)`: nothing is
   * written when every node already has a proportion; otherwise the
   * group's new proportions, the image counts below the unset nodes
   * feeding the weighted mode, are written onto the nodes.
   */
  method FillMissingProportions(t: Tree, ns: seq<NodeId>, letter: string, slope: int, useCount: bool, pow: Power)
    requires Fits(t.links, t.info) && AllIn(t.info, ns) && NoDup(ns)
    modifies t`info
    ensures t.links == old(t.links)
    ensures t.info == FillTree(t.links, old(t.info), ns, letter, slope, useCount, pow)
  {
    assert Described(t.links, t.info);
    var ps := Props(t.info, ns);
    var unset := UnsetNodes(t.info, ns);
    if |unset| == 0 {
      FillTreeEffect(t.links, t.info, ns, letter, slope, useCount, pow);
      SameProps(t.info, t.info, FillTree(t.links, t.info, ns, letter, slope, useCount, pow), ns);
      return;
    }
    var counts := Counts(t.links, t.info, unset);
    var q := FillGroup(ps, counts, letter, slope, useCount, pow);
    WriteProportions(t, ns, q);
  }

  /**
   * `_process_node(n, aw)`: the node's weight from what it is apportioned;
   * then, for a node with children, the children filled under the child
   * policy and each weighed, in order, with its share of the node's weight.
   */
  method ProcessNode(t: Tree, n: NodeId, aw: real, mode: ModeTable, pow: Power)
    requires Fits(t.links, t.info) && n in t.links.up
    modifies t`info
    ensures t.links == old(t.links)
    ensures t.info == Weigh(t.links, old(t.info), n, aw, mode, pow)
    decreases t.links.bound - t.links.rank[n], 2
  {
    var l := t.links;
    var w := NodeWeight(t.info[n], aw);
    t.info := t.info[n := t.info[n].(weight := Some(w))];
    if l.kids[n] == [] {
      return;
    }
    ProcessFamily(t, n, w, mode, pow);
  }

  /** The children of `n` filled under the child policy, then weighed in order; `w` is the weight of `n`. */
  method ProcessFamily(t: Tree, n: NodeId, w: real, mode: ModeTable, pow: Power)
    requires Fits(t.links, t.info) && n in t.links.up && t.links.kids[n] != []
    modifies t`info
    ensures t.links == old(t.links)
    ensures t.info == WeighKids(t.links, FillKids(t.links, old(t.info), n, mode, pow), n, 0, w, mode, pow)
    decreases t.links.bound - t.links.rank[n], 1
  {
    var l := t.links;
    var kids := l.kids[n];
    var level := LevelWalk(l, n);
    var p := ChildMode(l, t.info, n, mode, level);
    KidsIn(l, t.info, n);
    FillMissingProportions(t, kids, p.letter, p.slopes[0], p.letter == "w", pow);
    ProcessChildren(t, n, w, mode, pow);
  }

  /** The loop of `_process_node` over the children of `n`, `w` being the weight of `n`. */
  method ProcessChildren(t: Tree, n: NodeId, w: real, mode: ModeTable, pow: Power)
    requires Fits(t.links, t.info) && n in t.links.up
    modifies t`info
    ensures t.links == old(t.links)
    ensures t.info == WeighKids(t.links, old(t.info), n, 0, w, mode, pow)
    decreases t.links.bound - t.links.rank[n], 0
  {
    var l := t.links;
    var kids := l.kids[n];
    ghost var target := WeighKids(l, t.info, n, 0, w, mode, pow);
    var i := 0;
    while i < |kids|
      invariant i <= |kids| && Fits(l, t.info)
      invariant WeighKids(l, t.info, n, i, w, mode, pow) == target
      decreases |kids| - i
    {
      WeighKidsStep(l, t.info, n, i, w, mode, pow);
      ListedChildPoints(l, n, kids[i]);
      ProcessNode(t, kids[i], ChildShare(w, t.info[kids[i]].proportion), mode, pow);
      i := i + 1;
    }
  }

  /** `_reset_proportions(n)`: the node's proportion from its user proportion, then each child's subtree. */
  method ResetProportions(t: Tree, n: NodeId, ignoreUser: bool)
    requires Fits(t.links, t.info) && n in t.links.up
    modifies t`info
    ensures t.links == old(t.links)
    ensures t.info == ResetTree(t.links, old(t.info), n, ignoreUser)
    decreases t.links.bound - t.links.rank[n], 1
  {
    ghost var target := ResetTree(t.links, t.info, n, ignoreUser);
    var node := t.info[n];
    if !ignoreUser && node.userProportion.Some? {
      t.info := t.info[n := node.(proportion := node.userProportion)];
    } else {
      t.info := t.info[n := node.(proportion := None)];
    }
    ResetChildren(t, n, ignoreUser);
  }

  /** The loop of `_reset_proportions` over the children of `n`. */
  method ResetChildren(t: Tree, n: NodeId, ignoreUser: bool)
    requires Fits(t.links, t.info) && n in t.links.up
    modifies t`info
    ensures t.links == old(t.links)
    ensures t.info == ResetKids(t.links, old(t.info), n, 0, ignoreUser)
    decreases t.links.bound - t.links.rank[n], 0
  {
    var l := t.links;
    var kids := l.kids[n];
    ghost var target := ResetKids(l, t.info, n, 0, ignoreUser);
    var i := 0;
    while i < |kids|
      invariant i <= |kids| && Fits(l, t.info)
      invariant ResetKids(l, t.info, n, i, ignoreUser) == target
      decreases |kids| - i
    {
      ListedChildPoints(l, n, kids[i]);
      ResetProportions(t, kids[i], ignoreUser);
      i := i + 1;
    }
  }

  /** The loop of `calculate_weights` over the starting nodes, each given 100 if still unset and weighed from its share of `TOTAL_WEIGHT`. */
  method WeighStartingNodes(t: Tree, starts: seq<NodeId>, mode: ModeTable, pow: Power)
    requires Fits(t.links, t.info) && forall k :: 0 <= k < |starts| ==> starts[k] in t.links.up
    modifies t`info
    ensures t.links == old(t.links)
    ensures t.info == WeighStarts(t.links, old(t.info), starts, 0, mode, pow)
  {
    var l := t.links;
    ghost var target := WeighStarts(l, t.info, starts, 0, mode, pow);
    var i := 0;
    while i < |starts|
      invariant i <= |starts| && Fits(l, t.info) && t.links == l
      invariant WeighStarts(l, t.info, starts, i, mode, pow) == target
    {
      WeighStart(t, starts[i], mode, pow);
      i := i + 1;
    }
  }

  /** One starting node: given 100 if still unset, then weighed from its share of `TOTAL_WEIGHT`. */
  method WeighStart(t: Tree, s: NodeId, mode: ModeTable, pow: Power)
    requires Fits(t.links, t.info) && s in t.links.up
    modifies t`info
    ensures t.links == old(t.links)
    ensures t.info == Weigh(t.links, Seed(old(t.info), s), s, StartShare(Seed(old(t.info), s)[s].proportion.value), mode, pow)
  {
    ghost var seeded := Seed(t.info, s);
    if t.info[s].proportion.None? {
      t.info := t.info[s := t.info[s].(proportion := Some(100.0))];
    }
    assert t.info == seeded;
    var aw := TotalWeight * (t.info[s].proportion.value / 100.0);
    assert aw == StartShare(seeded[s].proportion.value);
    ProcessNode(t, s, aw, mode, pow);
  }

  /**
   * `calculate_weights(tree, ignore_user_proportion)`: the proportions are
   * reset; an empty mode table fails (`min` of no keys); otherwise the
   * starting nodes, those at the lowest rung or else the root, are filled
   * as a group under the lowest rung's policy and weighed in order.
   */
  method CalculateWeights(t: Tree, ignoreUser: bool, pow: Power) returns (err: Option<Error>)
    requires t.Valid()
    modifies t`info
    ensures t.Valid() && t.links == old(t.links) && t.pathLookup == old(t.pathLookup)
    ensures (err, t.info) == Weights.CalculateWeights(t.links, old(t.info), t.root, t.defaults.Mode(), ignoreUser, pow)
  {
    ResetProportions(t, t.root, ignoreUser);
    var mode := t.defaults.Mode();
    if mode == map[] {
      return Some(ValueError("min() arg is an empty sequence"));
    }
    var lowest := MinKey(mode);
    var found := t.GetNodesAtLevel(lowest);
    var starts := if found == [] then [t.root] else found;
    assert starts == Starts(t.links, t.root, mode);
    var p := ResolveMode(mode, lowest);
    FillMissingProportions(t, starts, p.letter, p.slopes[0], p.letter == "w", pow);
    WeighStartingNodes(t, starts, mode, pow);
    err := None;
  }

  /** The images of one node, each with its normalised weight, appended one by one; the error the division raises otherwise. */
  method NodeImages(node: NodeInfo) returns (r: Result<(seq<string>, seq<real>)>)
    ensures r == NodeEntries(node)
  {
    if |node.images| == 0 {
      return Ok(([], []));
    }
    if node.weight.None? {
      return Err(TypeError("unsupported operand type(s) for /: 'NoneType' and 'int'"));
    }
    var divisor := if node.isPercentage then |node.images| else node.weightModifier;
    if divisor == 0 {
      return Err(ZeroDivisionError("float division by zero"));
    }
    var normalised := node.weight.value / (divisor as real);
    var images, weights := [], [];
    for k := 0 to |node.images|
      invariant images == node.images[..k]
      invariant |weights| == k && forall j :: 0 <= j < k ==> weights[j] == normalised
    {
      images, weights := images + [node.images[k]], weights + [normalised];
    }
    assert images == node.images;
    assert weights == Repeat(normalised, |node.images|);
    r := Ok((images, weights));
  }

  /** `traverse_node(n)`: the node's images, then each child's subtree in order, stopping at the first error. */
  method TraverseNode(t: Tree, n: NodeId) returns (r: Result<(seq<string>, seq<real>)>)
    requires Fits(t.links, t.info) && n in t.links.up
    ensures r == Entries(t.info, PreOrder(t.links, n))
    decreases t.links.bound - t.links.rank[n], 1
  {
    PreOrderIn(t.links, t.info, n);
    r := NodeImages(t.info[n]);
    EntriesFront(t.links, t.info, n);
    var kids := t.links.kids[n];
    var i := 0;
    while i < |kids|
      invariant i <= |kids|
      invariant AllIn(t.info, PreOrderFrom(t.links, n, i))
      invariant Then(r, Entries(t.info, PreOrderFrom(t.links, n, i))) == Entries(t.info, PreOrder(t.links, n))
      decreases |kids| - i
    {
      if r.Err? {
        return;
      }
      ListedChildPoints(t.links, n, kids[i]);
      var sub := TraverseNode(t, kids[i]);
      EntriesStep(t.links, t.info, n, i);
      ThenAssoc(r, sub, Entries(t.info, PreOrderFrom(t.links, n, i + 1)));
      r := Then(r, sub);
      i := i + 1;
    }
    ThenEmpty(r);
  }

  /** `extract_image_paths_and_weights_from_tree(tree, start_node)`: from the root when no start is given. */
  method ExtractImagePathsAndWeights(t: Tree, start: Option<NodeId>) returns (r: Result<(seq<string>, seq<real>)>)
    requires t.Valid() && (start.Some? ==> start.value in t.links.up)
    ensures r == Entries(t.info, PreOrder(t.links, if start.Some? then start.value else t.root))
    ensures r.Ok? ==> |r.value.0| == |r.value.1|
  {
    var n := if start.Some? then start.value else t.root;
    PreOrderIn(t.links, t.info, n);
    r := TraverseNode(t, n);
  }

  /**
   * The final steps of `build_tree` on an assembled tree: a `ValueError`
   * when the tree holds no image, else the weight calculation.
   */
  method BuildTree(t: Tree, pow: Power) returns (err: Option<Error>)
    requires t.Valid()
    modifies t`info
    ensures t.Valid()
    ensures CountBranches(t.links, old(t.info), t.root).1 == 0 ==> err.Some? && err.value.ValueError? && t.info == old(t.info)
    ensures CountBranches(t.links, old(t.info), t.root).1 != 0 ==>
      (err, t.info) == Weights.CalculateWeights(t.links, old(t.info), t.root, t.defaults.Mode(), false, pow)
  {
    var counts := t.CountBranchesOf(Some(t.root));
    if counts.1 == 0 {
      return Some(ValueError("No images found in the provided input files."));
    }
    err := CalculateWeights(t, false, pow);
  }

  /**
   * A node built by `create_node` as written has no user proportion, so
   * the reset that opens every weight calculation leaves it unset however
   * the input fixed its share; the corrected node keeps that share.
   */
  lemma UserProportionLost(name: string, path: string, d: NodeData, ignoreUser: bool)
    requires d.userProportion.Some? && !ignoreUser
    ensures ResetOne(NodeFromDataAsWritten(name, path, d), ignoreUser).proportion.None?
    ensures ResetOne(NodeFromData(name, path, d), ignoreUser).proportion == d.userProportion
  {
  }

  // ------------------------------------------------------------ helpers

  /** The child policy of `n`, its level known: the one `FillKids` uses. */
  function ChildMode(l: Links, info: map<NodeId, NodeInfo>, n: NodeId, mode: ModeTable, level: nat): (p: Policy)
    requires Fits(l, info) && n in l.up && l.kids[n] != [] && level == Level(l, n)
    ensures p == ChildPolicy(l, info, n, mode)
  {
    ListedChildPoints(l, n, l.kids[n][0]);
    ResolveMode(mode + ModifierOf(info[l.kids[n][0]]), level + 1)
  }

  lemma PreOrderIn(l: Links, info: map<NodeId, NodeInfo>, n: NodeId)
    requires Wf(l) && info.Keys == l.up.Keys && n in l.up
    ensures AllIn(info, PreOrder(l, n)) && AllIn(info, PreOrderFrom(l, n, 0))
  {
  }

  /** The entries of a subtree are the node's own, then those below it. */
  lemma EntriesFront(l: Links, info: map<NodeId, NodeInfo>, n: NodeId)
    requires Wf(l) && info.Keys == l.up.Keys && n in l.up
    requires AllIn(info, PreOrder(l, n)) && AllIn(info, PreOrderFrom(l, n, 0))
    ensures Entries(info, PreOrder(l, n)) == Then(NodeEntries(info[n]), Entries(info, PreOrderFrom(l, n, 0)))
  {
    assert PreOrder(l, n)[1..] == PreOrderFrom(l, n, 0);
  }

  /** The entries from the `i`-th child on are those of its subtree, then those of the later children. */
  lemma EntriesStep(l: Links, info: map<NodeId, NodeInfo>, n: NodeId, i: nat)
    requires Wf(l) && info.Keys == l.up.Keys && n in l.up && i < |l.kids[n]|
    requires AllIn(info, PreOrderFrom(l, n, i))
    ensures l.kids[n][i] in l.up && AllIn(info, PreOrder(l, l.kids[n][i])) && AllIn(info, PreOrderFrom(l, n, i + 1))
    ensures Entries(info, PreOrderFrom(l, n, i)) ==
      Then(Entries(info, PreOrder(l, l.kids[n][i])), Entries(info, PreOrderFrom(l, n, i + 1)))
  {
    ListedChildPoints(l, n, l.kids[n][i]);
    PreOrderIn(l, info, l.kids[n][i]);
    var a, b := PreOrder(l, l.kids[n][i]), PreOrderFrom(l, n, i + 1);
    assert PreOrderFrom(l, n, i) == a + b;
    forall k | 0 <= k < |b| ensures b[k] in info {
      assert b[k] == (a + b)[|a| + k];
    }
    EntriesAppend(info, a, b);
  }

  lemma ThenEmpty(r: Result<(seq<string>, seq<real>)>)
    ensures Then(r, Ok(([], []))) == r
  {
    if r.Ok? {
      assert r.value.0 + [] == r.value.0 && r.value.1 + [] == r.value.1;
    }
  }
}
