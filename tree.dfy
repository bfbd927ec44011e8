/**
 * The selection tree of `enkan/tree/Tree.py`: the node arena of `Nodes`
 * with a root and the three name and path indexes, the path arithmetic
 * that names nodes, and the operations that grow and rename the tree.
 *
 * Nodes that grafting prunes stay in the arena with their `parent` link,
 * exactly as the Python objects keep theirs.
 */
module TreeModel {
  import opened Common
  import opened Paths
  import opened Modes
  import opened Scan
  import Filtering
  import opened Nodes

  const RootName: string := "root"

  /** `Tree.PICKLE_VERSION` */
  const PickleVersion: int := 2

  // ------------------------------------------------------------ pickling

  /** Whether `load_tree_if_current` accepts a pickle of this version. */
  predicate IsCurrent(version: int)
  {
    version >= PickleVersion
  }

  /**
   * The version a restored tree reports: `__getstate__` stamps
   * `PICKLE_VERSION`, and `__setstate__` uses 0 for a pickle without a stamp.
   */
  function RestoredVersion(stamp: Option<int>): (v: int)
    ensures stamp.None? ==> !IsCurrent(v)
    ensures stamp == Some(PickleVersion) ==> IsCurrent(v)
    ensures stamp.Some? ==> v == stamp.value
  {
    stamp.GetOr(0)
  }

  // ------------------------------------------------------ path arithmetic

  /**
   * `convert_path_to_tree_format`: drop the drive and the empty segments,
   * put `root` in front and lower-case the result.
   */
  function ConvertPathToTreeFormat(path: string): (r: string)
    ensures AllPlain(Components(SplitDrive(path).1)) ==>
      r == JoinWith(LowerAll([RootName] + Components(SplitDrive(path).1)), Sep)
  {
    var tail := SplitDrive(path).1;
    var comps := NonEmpty(Split(StripSep(tail), Sep));
    ComponentsStrip(tail);
    var r := Lower(Join([RootName] + comps));
    if AllPlain(comps) then
      ConvertPlain(comps);
      r
    else r
  }

  lemma ConvertPlain(comps: seq<string>)
    requires AllPlain(comps)
    ensures Lower(Join([RootName] + comps)) == JoinWith(LowerAll([RootName] + comps), Sep)
  {
    var parts := [RootName] + comps;
    assert AllPlain(parts) by {
      forall i | 0 <= i < |parts| ensures Plain(parts[i]) {
        if i > 0 { assert parts[i] == comps[i - 1]; }
      }
    }
    JoinPlain(parts);
    LowerJoin(parts);
  }

  /** The components of a converted plain path: `root` and the lower-cased components. */
  lemma ConvertComponents(path: string)
    requires AllPlain(Components(SplitDrive(path).1))
    ensures Components(ConvertPathToTreeFormat(path)) == LowerAll([RootName] + Components(SplitDrive(path).1))
  {
    var parts := LowerAll([RootName] + Components(SplitDrive(path).1));
    forall i | 0 <= i < |parts| ensures parts[i] != "" && Sep !in parts[i] {
      var src := ([RootName] + Components(SplitDrive(path).1))[i];
      assert Sep !in src && src != "" by {
        if i > 0 { assert src == Components(SplitDrive(path).1)[i - 1]; }
      }
      LowerKeepsSepFree(src);
    }
    ComponentsOfJoin(parts);
  }

  /** `calculate_level` (the same count as `level_of`). */
  function CalculateLevel(path: string): nat
  {
    |NonEmpty(Split(path, Sep))|
  }

  /** Python's `s[:k]`. */
  function TakePy<T>(s: seq<T>, k: int): (r: seq<T>)
    ensures 0 <= k <= |s| ==> r == s[..k]
    ensures k > |s| ==> r == s
  {
    if k >= 0 then s[..if k < |s| then k else |s|]
    else s[..if |s| + k < 0 then 0 else |s| + k]
  }

  /** Python's `s[-1:]`. */
  function LastPy<T>(s: seq<T>): (r: seq<T>)
  {
    if s == [] then [] else [s[|s| - 1]]
  }

  /** Python's `s[:-1]`. */
  function InitPy<T>(s: seq<T>): (r: seq<T>)
  {
    if s == [] then [] else s[..|s| - 1]
  }

  /** `f"{root}_{i}"` */
  function Numbered(root: string, i: int): string
  {
    root + "_" + IntToString(i)
  }

  /** `[f"{root}_{i - 1}" for i in range(lo, hi)]` */
  function Placeholders(root: string, lo: int, hi: int): (r: seq<string>)
    ensures |r| == if hi <= lo then 0 else hi - lo
    ensures forall k :: 0 <= k < |r| ==> r[k] == Numbered(root, lo + k - 1)
    decreases if hi <= lo then 0 else hi - lo
  {
    if hi <= lo then [] else [Numbered(root, lo - 1)] + Placeholders(root, lo + 1, hi)
  }

  /** The `path.split(os.path.sep)` list of `set_path_to_level`, with a separator put back after a drive. */
  function LevelComponents(path: string): (r: seq<string>)
    ensures |r| >= 1
  {
    var comps := Split(path, Sep);
    if EndsWith(comps[0], ":") then [comps[0] + [Sep]] + comps[1..] else comps
  }

  /** A group renames every component strictly between the first and the last. */
  function GroupRenamed(comps: seq<string>, group: string): (r: seq<string>)
    ensures |r| == |comps|
  {
    seq(|comps|, i requires 0 <= i < |comps| =>
      if 1 <= i < |comps| - 1 then Numbered(group, i) else comps[i])
  }

  /** `extension_root` without a group: `unamed`, a plain component. */
  const UnnamedRoot: string := "unamed"

  lemma UnnamedPlain()
    ensures Plain(UnnamedRoot)
  {
    assert UnnamedRoot == ['u', 'n', 'a', 'm', 'e', 'd'];
  }

  /** The components `set_path_to_level` joins: truncated, or extended by placeholders. */
  function LevelledParts(comps: seq<string>, current: int, level: int, root: string): seq<string>
  {
    if level <= current then TakePy(comps, level - 1) + LastPy(comps)
    else InitPy(comps) + Placeholders(root, current, level) + LastPy(comps)
  }

  /**
   * `set_path_to_level(path, level, group)`. A group (a non-empty name)
   * renames the middle components and names the placeholders; without one
   * the empty components go and the placeholders are `unamed_<i>`. With
   * no component left, extending reads `path_components[-1]`, an
   * `IndexError`, and truncating ends in `os.path.join()` with no argument,
   * a `TypeError`.
   */
  function SetPathToLevel(path: string, level: int, group: Option<string>): (r: Result<string>)
  {
    var current := CalculateLevel(path);
    var grouped := group.Some? && group.value != "";
    var comps := if grouped then GroupRenamed(LevelComponents(path), group.value) else NonEmpty(LevelComponents(path));
    var extensionRoot := if grouped then group.value else UnnamedRoot;
    var parts := LevelledParts(comps, current, level, extensionRoot);
    if level > current && comps == [] then Err(IndexError(ListIndexOutOfRange))
    else if parts == [] then Err(TypeError("join() missing 1 required positional argument"))
    else Ok(Join(parts))
  }

  const ListIndexOutOfRange: string := "list index out of range"

  /**
   * A path with no non-empty component, such as `""` or the bare separator
   * of the current drive's root, cannot be moved to a deeper level: the
   * `IndexError` of `path_components[-1]`. Moving it to a level it already
   * has, or a shallower one, is the `TypeError` of `os.path.join()`.
   */
  lemma {:induction false} NoComponentsFail(path: string, level: int)
    requires NonEmpty(Split(path, Sep)) == []
    ensures var r := SetPathToLevel(path, level, None);
      r.Err? && (r.error.IndexError? <==> level > 0)
  {
    var split := Split(path, Sep);
    AllEmpty(split);
    assert split[0] == "";
    assert LevelComponents(path) == split;
  }

  /** A list whose filtered form is empty holds only empty pieces. */
  lemma {:induction false} AllEmpty(parts: seq<string>)
    requires NonEmpty(parts) == []
    ensures forall i | 0 <= i < |parts| :: parts[i] == ""
  {
    if parts != [] && parts[0] == "" {
      AllEmpty(parts[1..]);
      assert forall i | 1 <= i < |parts| :: parts[i] == parts[1..][i - 1];
    }
  }

  /** The placeholders of a plain root are plain components. */
  lemma {:induction false} PlaceholdersPlain(root: string, lo: int, hi: int)
    requires Plain(root)
    ensures AllPlain(Placeholders(root, lo, hi))
    decreases if hi <= lo then 0 else hi - lo
  {
    if hi > lo {
      var t := IntToString(lo - 1);
      assert forall k :: 0 <= k < |t| ==> IsDigit(t[k]) || t[k] == '-';
      assert Plain(Numbered(root, lo - 1));
      PlaceholdersPlain(root, lo + 1, hi);
    }
  }

  lemma LevelledPartsShape(comps: seq<string>, level: int, root: string)
    requires level >= 1 && comps != [] && AllPlain(comps) && Plain(root)
    ensures var parts := LevelledParts(comps, |comps|, level, root);
      |parts| == level && AllPlain(parts) && parts[level - 1] == comps[|comps| - 1] &&
      (forall k :: 0 <= k < level - 1 && k < |comps| - 1 ==> parts[k] == comps[k]) &&
      (forall k :: |comps| - 1 <= k < level - 1 ==> parts[k] == Numbered(root, k))
  {
    var n := |comps|;
    var last := [comps[n - 1]];
    if level <= n {
      var parts := comps[..level - 1] + last;
      assert LevelledParts(comps, n, level, root) == parts;
      assert forall k :: 0 <= k < level - 1 ==> parts[k] == comps[k];
    } else {
      var ph := Placeholders(root, n, level);
      PlaceholdersPlain(root, n, level);
      var parts := comps[..n - 1] + ph + last;
      assert LevelledParts(comps, n, level, root) == parts;
      assert forall k :: 0 <= k < n - 1 ==> parts[k] == comps[k];
      assert forall k :: n - 1 <= k < level - 1 ==> parts[k] == ph[k - (n - 1)];
    }
  }

  /**
   * Without a group, `set_path_to_level` moves a drive-less path of plain
   * components to exactly `level` components: the basename stays last, the
   * leading components it keeps are unchanged, and `unamed_<i>` fills in
   * when the path was shallower.
   */
  lemma SetPathToLevelDepth(path: string, level: int)
    requires level >= 1 && Components(path) != [] && AllPlain(Components(path))
    requires !EndsWith(Split(path, Sep)[0], ":")
    ensures var r := SetPathToLevel(path, level, None);
      var comps := Components(path);
      r.Ok? && CalculateLevel(r.value) == level &&
      Components(r.value)[level - 1] == comps[|comps| - 1] &&
      (forall k :: 0 <= k < level - 1 && k < |comps| - 1 ==> Components(r.value)[k] == comps[k]) &&
      (forall k :: |comps| - 1 <= k < level - 1 ==> Components(r.value)[k] == Numbered(UnnamedRoot, k))
  {
    var comps := Components(path);
    var parts := LevelledParts(comps, |comps|, level, UnnamedRoot);
    assert SetPathToLevel(path, level, None) == Ok(Join(parts)) by {
      assert NonEmpty(LevelComponents(path)) == comps && CalculateLevel(path) == |comps|;
    }
    UnnamedPlain();
    LevelledPartsShape(comps, level, UnnamedRoot);
    JoinPlain(parts);
    ComponentsOfJoin(parts);
    assert Components(Join(parts)) == parts;
  }

  // ------------------------------------------------- ensure_parent_exists

  /** Which branch of `ensure_parent_exists` a path takes. */
  datatype ChainKind = TreeFormat | DriveFormat

  datatype ParentPlan =
    | RootPlan
    | ChainPlan(kind: ChainKind, start: string, segments: seq<string>)
    | Reject(msg: string)

  /** The path of the next prefix node: the segment alone first, then joined on. */
  function ChainStep(built: string, segment: string): string
  {
    if built == "" then segment else Join([built, segment])
  }

  /** The `node_lookup` key of a prefix node in each branch. */
  function ChainName(kind: ChainKind, next: string): string
  {
    match kind
    case TreeFormat => Lower(Join([RootName] + Split(next, Sep)))
    case DriveFormat => ConvertPathToTreeFormat(next)
  }

  /** The (name, path) of every prefix node `ensure_parent_exists` visits, in order. */
  function Chain(kind: ChainKind, built: string, segments: seq<string>): (r: seq<(string, string)>)
    ensures |r| == |segments|
    decreases |segments|
  {
    if segments == [] then []
    else
      var next := ChainStep(built, segments[0]);
      [(ChainName(kind, next), next)] + Chain(kind, next, segments[1..])
  }

  /** The decisions `ensure_parent_exists` takes before touching the tree. */
  function PlanParent(path: string): (r: ParentPlan)
    ensures path == "" ==> r == RootPlan
    ensures path != "" && Lower(NormPath(path)) == RootName ==> r == RootPlan
    ensures (path != "" && Lower(NormPath(path)) != RootName &&
             !StartsWith(Lower(NormPath(path)), RootName + [Sep]) &&
             !StartsWith(NormPath(path), [Sep, Sep]) && SplitDrive(NormPath(path)).0 == "") ==> r.Reject?
  {
    if path == "" then RootPlan
    else
      var norm := NormPath(path);
      if Lower(norm) == RootName then RootPlan
      else if StartsWith(Lower(norm), RootName + [Sep]) then
        var parts := NonEmpty(Split(norm, Sep));
        ChainPlan(TreeFormat, "", if parts == [] then [] else parts[1..])
      else
        var isUnc := StartsWith(norm, [Sep, Sep]);
        var (drive, tail) := SplitDrive(norm);
        if isUnc && drive == "" then
          var parts := NonEmpty(Split(norm, Sep));
          if |parts| < 2 then Reject("Malformed UNC path")
          else ChainPlan(DriveFormat, [Sep, Sep] + parts[0] + [Sep] + parts[1], parts[2..])
        else if drive != "" then ChainPlan(DriveFormat, drive + [Sep], NonEmpty(Split(tail, Sep)))
        else Reject("Relative paths not supported")
  }

  /**
   * The malformed UNC branch of `ensure_parent_exists` cannot be taken: a
   * normalised path starting with two separators always has a drive, so
   * the only rejection is that of a relative path.
   */
  lemma PlanParentRejectsOnlyRelative(path: string)
    ensures PlanParent(path).Reject? ==> PlanParent(path).msg == "Relative paths not supported"
  {
    if path != "" {
      var norm := NormPath(path);
      if StartsWith(norm, [Sep, Sep]) {
        UncHasDrive(norm);
      }
    }
  }

  // ------------------------------------------------------------ the tree

  /** Every id in use is below the next fresh one. */
  ghost predicate IdsBelow(up: map<NodeId, Option<NodeId>>, nextId: NodeId)
  {
    forall n | n in up :: n < nextId
  }

  /** Every value of a lookup is a node. */
  ghost predicate LookupInto(m: map<string, NodeId>, up: map<NodeId, Option<NodeId>>)
  {
    forall k | k in m :: m[k] in up
  }

  /** A later lookup that keeps every entry of an earlier one. */
  ghost predicate Keeps(before: map<string, NodeId>, after: map<string, NodeId>)
  {
    forall k | k in before :: k in after && after[k] == before[k]
  }

  /** A later lookup that still has every key of an earlier one. */
  ghost predicate KeysGrow(before: map<string, NodeId>, after: map<string, NodeId>)
  {
    forall k | k in before :: k in after
  }

  lemma KeysGrowTrans(a: map<string, NodeId>, b: map<string, NodeId>, c: map<string, NodeId>)
    requires KeysGrow(a, b) && KeysGrow(b, c)
    ensures KeysGrow(a, c)
  {
  }

  /** The names of a chain of prefix nodes. */
  ghost function Names(chain: seq<(string, string)>): set<string>
  {
    set k | 0 <= k < |chain| :: chain[k].0
  }

  /** The `node_data` dictionary the builders hand to `create_node`. */
  datatype NodeData = NodeData(
    weightModifier: int,
    isPercentage: bool,
    proportion: Option<real>,
    userProportion: Option<real>,
    modeModifier: Option<ModeTable>,
    flat: bool,
    video: Option<bool>,
    images: seq<string>)

  /**
   * The node `create_node` builds, as written: of the keys it is given it
   * reads the weight modifier, the percentage flag, the proportion, the
   * mode modifier and the images, and drops the user proportion.
   */
  function NodeFromDataAsWritten(name: string, path: string, d: NodeData): (r: NodeInfo)
    ensures r.name == name && r.path == path && r.images == d.images
    ensures r.proportion == d.proportion && r.userProportion.None? && r.weight.None?
  {
    NewInfo(name, path, d.proportion, d.weightModifier, d.isPercentage, d.modeModifier, d.images)
  }

  /** The node `create_node` is meant to build: the user proportion is carried over as well. */
  function NodeFromData(name: string, path: string, d: NodeData): (r: NodeInfo)
    ensures r.name == name && r.path == path && r.images == d.images
    ensures r.proportion == d.proportion && r.userProportion == d.userProportion && r.weight.None?
  {
    NodeFromDataAsWritten(name, path, d).(userProportion := d.userProportion)
  }

  /** The keys present in an `update_node` dictionary, each with its value (a present None is a value too). */
  datatype NodeUpdate = NodeUpdate(
    weightModifier: Option<int>,
    isPercentage: Option<bool>,
    proportion: Option<Option<real>>,
    modeModifier: Option<Option<ModeTable>>,
    images: Option<seq<string>>)

  /** An empty (falsy) `node_data`. */
  predicate IsEmptyUpdate(u: NodeUpdate)
  {
    u.weightModifier.None? && u.isPercentage.None? && u.proportion.None? && u.modeModifier.None? && u.images.None?
  }

  /** `update_node` on one node: a present key overwrites its attribute, an absent key leaves it. */
  function ApplyUpdate(n: NodeInfo, u: NodeUpdate): (r: NodeInfo)
    ensures r.name == n.name && r.path == n.path && r.group == n.group && r.flat == n.flat
    ensures r.userProportion == n.userProportion && r.weight == n.weight
    ensures u.weightModifier.Some? ==> r.weightModifier == u.weightModifier.value
    ensures u.isPercentage.Some? ==> r.isPercentage == u.isPercentage.value
    ensures u.proportion.Some? ==> r.proportion == u.proportion.value
    ensures u.modeModifier.Some? ==> r.modeModifier == u.modeModifier.value
    ensures u.images.Some? ==> r.images == u.images.value
    ensures IsEmptyUpdate(u) ==> r == n
  {
    NodeInfo(n.name, n.path, n.group, u.proportion.GetOr(n.proportion), n.userProportion, n.weight,
             u.weightModifier.GetOr(n.weightModifier), u.isPercentage.GetOr(n.isPercentage),
             u.modeModifier.GetOr(n.modeModifier), n.flat, u.images.GetOr(n.images))
  }

  /** Applying the same update twice is applying it once. */
  lemma UpdateIdempotent(n: NodeInfo, u: NodeUpdate)
    ensures ApplyUpdate(ApplyUpdate(n, u), u) == ApplyUpdate(n, u)
  {
    var once := ApplyUpdate(n, u);
    var twice := ApplyUpdate(once, u);
    assert twice.weightModifier == once.weightModifier && twice.images == once.images;
  }

  // ------------------------------------------------------ rename_children

  /** The attributes differ at most in node names. */
  ghost predicate SameButNames(a: map<NodeId, NodeInfo>, b: map<NodeId, NodeInfo>)
  {
    a.Keys == b.Keys && forall m | m in a :: b[m] == a[m].(name := b[m].name)
  }

  /** `rename_node_in_lookup` on the lookup and the attributes. */
  function RenameInLookup(lookup: map<string, NodeId>, info: map<NodeId, NodeInfo>, oldName: string, newName: string)
    : (r: (map<string, NodeId>, map<NodeId, NodeInfo>))
    requires forall k | k in lookup :: lookup[k] in info
    ensures forall k | k in r.0 :: r.0[k] in r.1
    ensures r.1.Keys == info.Keys && SameButNames(info, r.1)
    ensures oldName !in lookup ==> r == (lookup, info)
    ensures oldName in lookup ==>
      r.0 == (lookup - {oldName})[newName := lookup[oldName]] &&
      r.1 == info[lookup[oldName] := info[lookup[oldName]].(name := newName)]
  {
    if oldName in lookup then
      var n := lookup[oldName];
      var info' := info[n := info[n].(name := newName)];
      assert forall m | m in info :: info'[m] == info[m].(name := info'[m].name);
      ((lookup - {oldName})[newName := n], info')
    else
      assert forall m | m in info :: info[m] == info[m].(name := info[m].name);
      (lookup, info)
  }

  /**
   * `rename_children(node, new_name)`: each child, in order, is renamed
   * through the lookup to `new_name` joined with the basename of its current
   * name, and then its own children follow.
   */
  ghost function Renamed(l: Links, lookup: map<string, NodeId>, info: map<NodeId, NodeInfo>, n: NodeId, newName: string)
    : (r: (map<string, NodeId>, map<NodeId, NodeInfo>))
    requires Wf(l) && Described(l, info) && n in l.up
    requires forall k | k in lookup :: lookup[k] in info
    ensures forall k | k in r.0 :: r.0[k] in r.1
    ensures r.1.Keys == info.Keys
    decreases l.bound - l.rank[n], 1, 0
  {
    RenamedFrom(l, lookup, info, n, newName, 0)
  }

  ghost function RenamedFrom(l: Links, lookup: map<string, NodeId>, info: map<NodeId, NodeInfo>, n: NodeId, newName: string, i: nat)
    : (r: (map<string, NodeId>, map<NodeId, NodeInfo>))
    requires Wf(l) && Described(l, info) && n in l.up && i <= |l.kids[n]|
    requires forall k | k in lookup :: lookup[k] in info
    ensures forall k | k in r.0 :: r.0[k] in r.1
    ensures r.1.Keys == info.Keys
    decreases l.bound - l.rank[n], 0, |l.kids[n]| - i
  {
    if i == |l.kids[n]| then (lookup, info)
    else
      var c := l.kids[n][i];
      var childName := Join([newName, BaseName(info[c].name)]);
      var once := RenameInLookup(lookup, info, info[c].name, childName);
      var below := Renamed(l, once.0, once.1, c, childName);
      RenamedFrom(l, below.0, below.1, n, newName, i + 1)
  }

  /** Renaming a subtree changes node names and lookup keys, nothing else of any node. */
  lemma {:induction false} RenamedOnlyNames(l: Links, lookup: map<string, NodeId>, info: map<NodeId, NodeInfo>, n: NodeId, newName: string)
    requires Wf(l) && Described(l, info) && n in l.up
    requires forall k | k in lookup :: lookup[k] in info
    ensures SameButNames(info, Renamed(l, lookup, info, n, newName).1)
    decreases l.bound - l.rank[n], 1, 0
  {
    RenamedFromOnlyNames(l, lookup, info, n, newName, 0);
  }

  lemma {:induction false} RenamedFromOnlyNames(l: Links, lookup: map<string, NodeId>, info: map<NodeId, NodeInfo>, n: NodeId, newName: string, i: nat)
    requires Wf(l) && Described(l, info) && n in l.up && i <= |l.kids[n]|
    requires forall k | k in lookup :: lookup[k] in info
    ensures SameButNames(info, RenamedFrom(l, lookup, info, n, newName, i).1)
    decreases l.bound - l.rank[n], 0, |l.kids[n]| - i
  {
    if i < |l.kids[n]| {
      var c := l.kids[n][i];
      ListedChildPoints(l, n, c);
      var childName := Join([newName, BaseName(info[c].name)]);
      var once := RenameInLookup(lookup, info, info[c].name, childName);
      assert Described(l, once.1);
      RenamedOnlyNames(l, once.0, once.1, c, childName);
      var below := Renamed(l, once.0, once.1, c, childName);
      RenamedFromOnlyNames(l, below.0, below.1, n, newName, i + 1);
      SameButNamesTrans(info, once.1, below.1);
      SameButNamesTrans(info, below.1, RenamedFrom(l, below.0, below.1, n, newName, i + 1).1);
    } else {
      assert forall m | m in info :: info[m] == info[m].(name := info[m].name);
    }
  }

  lemma SameButNamesTrans(a: map<NodeId, NodeInfo>, b: map<NodeId, NodeInfo>, c: map<NodeId, NodeInfo>)
    requires SameButNames(a, b) && SameButNames(b, c)
    ensures SameButNames(a, c)
  {
    forall m | m in a ensures c[m] == a[m].(name := c[m].name) {
      assert c[m] == b[m].(name := c[m].name);
    }
  }

  // ------------------------------------------------- ensure_parent_exists

  /** In a chain the name of a prefix node is a function of its path. */
  ghost predicate NamedByPath(chain: seq<(string, string)>)
  {
    forall j, k | 0 <= j < |chain| && 0 <= k < |chain| && chain[j].1 == chain[k].1 :: chain[j].0 == chain[k].0
  }

  /** Each name in the chain is `name` applied to its path. */
  ghost predicate NamedBy(chain: seq<(string, string)>, name: string -> string)
  {
    forall k | 0 <= k < |chain| :: chain[k].0 == name(chain[k].1)
  }

  lemma NamedByNamesByPath(chain: seq<(string, string)>, name: string -> string)
    requires NamedBy(chain, name)
    ensures NamedByPath(chain)
  {
  }

  lemma NamedByCons(x: (string, string), rest: seq<(string, string)>, name: string -> string)
    requires x.0 == name(x.1) && NamedBy(rest, name)
    ensures NamedBy([x] + rest, name)
  {
    assert forall k | 0 < k < |rest| + 1 :: ([x] + rest)[k] == rest[k - 1];
  }

  /** Every prefix node of a chain carries the name its branch gives its path. */
  lemma {:induction false} ChainNamedBy(kind: ChainKind, built: string, segments: seq<string>)
    ensures NamedBy(Chain(kind, built, segments), p => ChainName(kind, p))
    decreases |segments|
  {
    if segments != [] {
      var next := ChainStep(built, segments[0]);
      ChainNamedBy(kind, next, segments[1..]);
      NamedByCons((ChainName(kind, next), next), Chain(kind, next, segments[1..]), p => ChainName(kind, p));
    }
  }

  /** Position `k` of the chain is the first occurrence of a name the lookup did not know before. */
  ghost predicate Missing(chain: seq<(string, string)>, k: nat, L0: map<string, NodeId>)
    requires k < |chain|
  {
    chain[k].0 !in L0 && !exists j | 0 <= j < k :: chain[j].0 == chain[k].0
  }

  /** Every prefix name so far is registered, and the lookup only grew by those names. */
  ghost predicate ChainKeys(chain: seq<(string, string)>, upto: nat, L0: map<string, NodeId>, L: map<string, NodeId>)
    requires upto <= |chain|
  {
    (forall k | 0 <= k < upto :: chain[k].0 in L) && Keeps(L0, L) && L.Keys == L0.Keys + Names(chain[..upto])
  }

  /** The nodes that existed before keep their parent and attributes. */
  ghost predicate OldUntouched(U0: map<NodeId, Option<NodeId>>, I0: map<NodeId, NodeInfo>,
                               U: map<NodeId, Option<NodeId>>, I: map<NodeId, NodeInfo>)
  {
    forall n | n in U0 :: n in U && U[n] == U0[n] && n in I && n in I0 && I[n] == I0[n]
  }

  /** Each missing prefix got a fresh node below the previous prefix node (or the root), registered under its name and path. */
  ghost predicate ChainFresh(chain: seq<(string, string)>, upto: nat, root: NodeId, L0: map<string, NodeId>, U0: map<NodeId, Option<NodeId>>,
                             L: map<string, NodeId>, U: map<NodeId, Option<NodeId>>, I: map<NodeId, NodeInfo>, P: map<string, NodeId>)
    requires upto <= |chain| && forall k | 0 <= k < upto :: chain[k].0 in L
  {
    forall k {:trigger Missing(chain, k, L0)} | 0 <= k < upto && Missing(chain, k, L0) ::
      var n := L[chain[k].0];
      n !in U0 && n in I && I[n] == BareInfo(chain[k].0, chain[k].1) &&
      chain[k].1 in P && P[chain[k].1] == n &&
      n in U && U[n] == Some(if k == 0 then root else L[chain[k - 1].0])
  }

  /** Every new node is the node of a missing prefix. */
  ghost predicate ChainOnly(chain: seq<(string, string)>, upto: nat, L0: map<string, NodeId>, U0: map<NodeId, Option<NodeId>>,
                            L: map<string, NodeId>, U: map<NodeId, Option<NodeId>>)
    requires upto <= |chain|
  {
    forall n | n in U && n !in U0 :: exists k | 0 <= k < upto :: chain[k].0 !in L0 && chain[k].0 in L && L[chain[k].0] == n
  }

  /**
   * The first `upto` prefixes of a chain are built, from the lookup `L0`,
   * parents `U0` and attributes `I0` to `L`, `U`, `I` and paths `P`.
   */
  ghost predicate ChainBuilt(chain: seq<(string, string)>, upto: nat, root: NodeId,
                             L0: map<string, NodeId>, U0: map<NodeId, Option<NodeId>>, I0: map<NodeId, NodeInfo>, P0: map<string, NodeId>,
                             L: map<string, NodeId>, U: map<NodeId, Option<NodeId>>, I: map<NodeId, NodeInfo>, P: map<string, NodeId>)
    requires upto <= |chain|
  {
    ChainKeys(chain, upto, L0, L) && OldUntouched(U0, I0, U, I) && KeysGrow(P0, P) &&
    ChainFresh(chain, upto, root, L0, U0, L, U, I, P) && ChainOnly(chain, upto, L0, U0, L, U)
  }

  /** Nothing built yet. */
  lemma ChainStart(chain: seq<(string, string)>, root: NodeId, L0: map<string, NodeId>, U0: map<NodeId, Option<NodeId>>,
                   I0: map<NodeId, NodeInfo>, P0: map<string, NodeId>)
    requires U0.Keys <= I0.Keys
    ensures ChainBuilt(chain, 0, root, L0, U0, I0, P0, L0, U0, I0, P0)
  {
    assert chain[..0] == [];
  }

  /** One more prefix name is registered. */
  lemma ChainKeysStep(chain: seq<(string, string)>, i: nat, L0: map<string, NodeId>, L1: map<string, NodeId>, L: map<string, NodeId>)
    requires i < |chain| && ChainKeys(chain, i, L0, L1) && chain[i].0 in L
    requires L == L1 || (chain[i].0 !in L1 && L == L1[chain[i].0 := L[chain[i].0]])
    ensures ChainKeys(chain, i + 1, L0, L)
  {
    assert chain[..i + 1] == chain[..i] + [chain[i]];
    assert Names(chain[..i + 1]) == Names(chain[..i]) + {chain[i].0} by {
      forall x | x in Names(chain[..i + 1]) ensures x in Names(chain[..i]) + {chain[i].0} {
        var k :| 0 <= k < i + 1 && chain[..i + 1][k].0 == x;
        if k < i { assert chain[..i][k] == chain[..i + 1][k]; }
      }
      forall x | x in Names(chain[..i]) ensures x in Names(chain[..i + 1]) {
        var k :| 0 <= k < i && chain[..i][k].0 == x;
        assert chain[..i + 1][k] == chain[..i][k];
      }
      assert chain[..i + 1][i] == chain[i];
    }
  }

  /** A prefix the lookup already knows is reused and nothing changes. */
  lemma ChainFound(chain: seq<(string, string)>, i: nat, root: NodeId,
                   L0: map<string, NodeId>, U0: map<NodeId, Option<NodeId>>, I0: map<NodeId, NodeInfo>, P0: map<string, NodeId>,
                   L: map<string, NodeId>, U: map<NodeId, Option<NodeId>>, I: map<NodeId, NodeInfo>, P: map<string, NodeId>)
    requires i < |chain| && ChainBuilt(chain, i, root, L0, U0, I0, P0, L, U, I, P) && chain[i].0 in L
    ensures ChainBuilt(chain, i + 1, root, L0, U0, I0, P0, L, U, I, P)
  {
    ChainKeysStep(chain, i, L0, L, L);
    assert !Missing(chain, i, L0) by {
      if chain[i].0 !in L0 {
        assert chain[i].0 in Names(chain[..i]);
        var j :| 0 <= j < i && chain[..i][j].0 == chain[i].0;
        assert chain[j].0 == chain[i].0;
      }
    }
    ChainFreshSame(chain, i, root, L0, U0, L, U, I, P);
    ChainOnlySame(chain, i, L0, U0, L, U);
  }

  lemma ChainFreshSame(chain: seq<(string, string)>, i: nat, root: NodeId, L0: map<string, NodeId>, U0: map<NodeId, Option<NodeId>>,
                       L: map<string, NodeId>, U: map<NodeId, Option<NodeId>>, I: map<NodeId, NodeInfo>, P: map<string, NodeId>)
    requires i < |chain| && forall k | 0 <= k < i + 1 :: chain[k].0 in L
    requires ChainFresh(chain, i, root, L0, U0, L, U, I, P) && !Missing(chain, i, L0)
    ensures ChainFresh(chain, i + 1, root, L0, U0, L, U, I, P)
  {
    forall k | 0 <= k < i + 1 && Missing(chain, k, L0)
      ensures var n := L[chain[k].0];
        n !in U0 && n in I && I[n] == BareInfo(chain[k].0, chain[k].1) &&
        chain[k].1 in P && P[chain[k].1] == n &&
        n in U && U[n] == Some(if k == 0 then root else L[chain[k - 1].0])
    {
      assert k < i;
    }
  }

  lemma ChainOnlySame(chain: seq<(string, string)>, i: nat, L0: map<string, NodeId>, U0: map<NodeId, Option<NodeId>>,
                      L: map<string, NodeId>, U: map<NodeId, Option<NodeId>>)
    requires i < |chain| && ChainOnly(chain, i, L0, U0, L, U)
    ensures ChainOnly(chain, i + 1, L0, U0, L, U)
  {
    forall n | n in U && n !in U0
      ensures exists k | 0 <= k < i + 1 :: chain[k].0 !in L0 && chain[k].0 in L && L[chain[k].0] == n
    {
      var k :| 0 <= k < i && chain[k].0 !in L0 && chain[k].0 in L && L[chain[k].0] == n;
    }
  }

  /** The fresh node of position `i` sits where the chain wants it. */
  lemma ChainFreshNew(chain: seq<(string, string)>, i: nat, root: NodeId, L1: map<string, NodeId>,
                      U1: map<NodeId, Option<NodeId>>, I1: map<NodeId, NodeInfo>, P1: map<string, NodeId>,
                      current: NodeId, c: NodeId,
                      L: map<string, NodeId>, U: map<NodeId, Option<NodeId>>, I: map<NodeId, NodeInfo>, P: map<string, NodeId>)
    requires i < |chain| && chain[i].0 !in L1 && (i > 0 ==> chain[i - 1].0 in L1)
    requires current == if i == 0 then root else L1[chain[i - 1].0]
    requires L == L1[chain[i].0 := c] && U == U1[c := Some(current)]
    requires I == I1[c := BareInfo(chain[i].0, chain[i].1)] && P == P1[chain[i].1 := c]
    ensures var n := L[chain[i].0];
      n == c && n in I && I[n] == BareInfo(chain[i].0, chain[i].1) &&
      chain[i].1 in P && P[chain[i].1] == n &&
      n in U && U[n] == Some(if i == 0 then root else L[chain[i - 1].0])
  {
    if i > 0 { assert chain[i - 1].0 != chain[i].0; }
  }

  /** An earlier missing prefix keeps its node: the new step writes other keys. */
  lemma ChainFreshOld(chain: seq<(string, string)>, k: nat, i: nat, root: NodeId, U0: map<NodeId, Option<NodeId>>,
                      L1: map<string, NodeId>, U1: map<NodeId, Option<NodeId>>, I1: map<NodeId, NodeInfo>, P1: map<string, NodeId>,
                      c: NodeId,
                      L: map<string, NodeId>, U: map<NodeId, Option<NodeId>>, I: map<NodeId, NodeInfo>, P: map<string, NodeId>)
    requires k < i < |chain| && chain[k].0 in L1 && (k > 0 ==> chain[k - 1].0 in L1) && chain[i].0 !in L1
    requires chain[k].1 != chain[i].1 && c in U && c in I
    requires var n := L1[chain[k].0];
      n !in U0 && n in I1 && I1[n] == BareInfo(chain[k].0, chain[k].1) &&
      chain[k].1 in P1 && P1[chain[k].1] == n &&
      n in U1 && U1[n] == Some(if k == 0 then root else L1[chain[k - 1].0])
    requires c !in U1 && L == L1[chain[i].0 := c] && U == U1[c := U[c]] && I == I1[c := I[c]] && P == P1[chain[i].1 := c]
    ensures var n := L[chain[k].0];
      n !in U0 && n in I && I[n] == BareInfo(chain[k].0, chain[k].1) &&
      chain[k].1 in P && P[chain[k].1] == n &&
      n in U && U[n] == Some(if k == 0 then root else L[chain[k - 1].0])
  {
    assert chain[k].0 != chain[i].0;
    if k > 0 { assert chain[k - 1].0 != chain[i].0; }
  }

  /** The new entry of each lookup does not disturb the missing prefixes before it. */
  lemma ChainFreshStep(chain: seq<(string, string)>, i: nat, root: NodeId, L0: map<string, NodeId>, U0: map<NodeId, Option<NodeId>>,
                       L1: map<string, NodeId>, U1: map<NodeId, Option<NodeId>>, I1: map<NodeId, NodeInfo>, P1: map<string, NodeId>,
                       current: NodeId, c: NodeId,
                       L: map<string, NodeId>, U: map<NodeId, Option<NodeId>>, I: map<NodeId, NodeInfo>, P: map<string, NodeId>)
    requires i < |chain| && NamedByPath(chain) && forall k | 0 <= k < i :: chain[k].0 in L1
    requires ChainFresh(chain, i, root, L0, U0, L1, U1, I1, P1)
    requires chain[i].0 !in L1 && c !in U1 && U0.Keys <= U1.Keys
    requires current == if i == 0 then root else L1[chain[i - 1].0]
    requires L == L1[chain[i].0 := c] && U == U1[c := Some(current)]
    requires I == I1[c := BareInfo(chain[i].0, chain[i].1)] && P == P1[chain[i].1 := c]
    ensures ChainFresh(chain, i + 1, root, L0, U0, L, U, I, P)
  {
    forall k | 0 <= k < i + 1 && Missing(chain, k, L0)
      ensures var n := L[chain[k].0];
        n !in U0 && n in I && I[n] == BareInfo(chain[k].0, chain[k].1) &&
        chain[k].1 in P && P[chain[k].1] == n &&
        n in U && U[n] == Some(if k == 0 then root else L[chain[k - 1].0])
    {
      if k == i {
        ChainFreshNew(chain, i, root, L1, U1, I1, P1, current, c, L, U, I, P);
      } else {
        assert chain[k].0 in L1;
        assert chain[k].1 != chain[i].1 by {
          assert chain[k].0 != chain[i].0;
        }
        ChainFreshOld(chain, k, i, root, U0, L1, U1, I1, P1, c, L, U, I, P);
      }
    }
  }

  /** A missing prefix gets a fresh node below the current one, registered under its name and path. */
  lemma ChainMade(chain: seq<(string, string)>, i: nat, root: NodeId,
                  L0: map<string, NodeId>, U0: map<NodeId, Option<NodeId>>, I0: map<NodeId, NodeInfo>, P0: map<string, NodeId>,
                  L1: map<string, NodeId>, U1: map<NodeId, Option<NodeId>>, I1: map<NodeId, NodeInfo>, P1: map<string, NodeId>,
                  current: NodeId, c: NodeId,
                  L: map<string, NodeId>, U: map<NodeId, Option<NodeId>>, I: map<NodeId, NodeInfo>, P: map<string, NodeId>)
    requires i < |chain| && NamedByPath(chain) && ChainBuilt(chain, i, root, L0, U0, I0, P0, L1, U1, I1, P1)
    requires chain[i].0 !in L1 && c !in U1 && LookupInto(L1, U1)
    requires current == if i == 0 then root else L1[chain[i - 1].0]
    requires L == L1[chain[i].0 := c] && U == U1[c := Some(current)]
    requires I == I1[c := BareInfo(chain[i].0, chain[i].1)] && P == P1[chain[i].1 := c]
    ensures ChainBuilt(chain, i + 1, root, L0, U0, I0, P0, L, U, I, P)
  {
    ChainKeysStep(chain, i, L0, L1, L);
    OldUntouchedStep(U0, I0, U1, I1, c, U, I);
    ChainFreshStep(chain, i, root, L0, U0, L1, U1, I1, P1, current, c, L, U, I, P);
    ChainOnlyStep(chain, i, L0, U0, L1, U1, c, L, U);
  }

  lemma OldUntouchedStep(U0: map<NodeId, Option<NodeId>>, I0: map<NodeId, NodeInfo>,
                         U1: map<NodeId, Option<NodeId>>, I1: map<NodeId, NodeInfo>, c: NodeId,
                         U: map<NodeId, Option<NodeId>>, I: map<NodeId, NodeInfo>)
    requires OldUntouched(U0, I0, U1, I1) && c !in U1 && c in U && c in I && U == U1[c := U[c]] && I == I1[c := I[c]]
    ensures OldUntouched(U0, I0, U, I) && U0.Keys <= U1.Keys
  {
  }

  lemma ChainOnlyStep(chain: seq<(string, string)>, i: nat, L0: map<string, NodeId>, U0: map<NodeId, Option<NodeId>>,
                      L1: map<string, NodeId>, U1: map<NodeId, Option<NodeId>>, c: NodeId,
                      L: map<string, NodeId>, U: map<NodeId, Option<NodeId>>)
    requires i < |chain| && ChainOnly(chain, i, L0, U0, L1, U1) && Keeps(L0, L1)
    requires chain[i].0 !in L1 && c !in U1 && LookupInto(L1, U1)
    requires L == L1[chain[i].0 := c] && U.Keys == U1.Keys + {c}
    ensures ChainOnly(chain, i + 1, L0, U0, L, U)
  {
    forall n | n in U && n !in U0
      ensures exists k | 0 <= k < i + 1 :: chain[k].0 !in L0 && chain[k].0 in L && L[chain[k].0] == n
    {
      if n == c {
        assert L[chain[i].0] == n;
      } else {
        var k :| 0 <= k < i && chain[k].0 !in L0 && chain[k].0 in L1 && L1[chain[k].0] == n;
        assert L[chain[k].0] == n;
      }
    }
  }

  /** The links of a fresh tree: its lone root `0`. */
  function RootLinks(): (r: Links)
    ensures Wf(r) && r.kids == map[0 := []] && r.up == map[0 := None]
  {
    Links(map[0 := []], map[0 := None], map[0 := 0], 1)
  }

  /** The attributes of a fresh tree: its root, named and pathed `root`. */
  function RootInfo(): map<NodeId, NodeInfo>
  {
    map[0 := BareInfo(RootName, RootName)]
  }

  /** The lookups of a fresh tree: `root` filed under the root. */
  function RootLookup(): map<string, NodeId>
  {
    map[RootName := 0]
  }

  class Tree {
    var links: Links
    var info: map<NodeId, NodeInfo>
    var root: NodeId
    var nodeLookup: map<string, NodeId>
    var pathLookup: map<string, NodeId>
    var virtualImageLookup: map<string, NodeId>
    var nextId: NodeId
    var builtMode: Option<ModeTable>
    const defaults: Defaults
    const filters: Filtering.Filters

    /** The tree invariant: well-formed links, attributes for every node, a parentless root, ids below `nextId`, lookups naming nodes. */
    ghost predicate Valid()
      reads this
    {
      Wf(links) && Described(links, info) && info.Keys == links.up.Keys &&
      root in links.up && links.up[root].None? && IdsBelow(links.up, nextId) &&
      LookupInto(nodeLookup, links.up) && LookupInto(pathLookup, links.up) && LookupInto(virtualImageLookup, links.up)
    }

    /** `Tree(defaults, filters)`: a lone root named and pathed `root`, registered in all three lookups. */
    constructor (defaults: Defaults, filters: Filtering.Filters)
      ensures Valid()
      ensures root == 0 && links == RootLinks() && info == RootInfo()
      ensures nodeLookup == RootLookup() && pathLookup == RootLookup() && virtualImageLookup == RootLookup()
      ensures nextId == 1 && builtMode.None?
      ensures this.defaults == defaults && this.filters == filters
    {
      links := RootLinks();
      info := RootInfo();
      root := 0;
      nodeLookup := RootLookup();
      pathLookup := RootLookup();
      virtualImageLookup := RootLookup();
      nextId := 1;
      builtMode := None;
      this.defaults := defaults;
      this.filters := filters;
    }

    /** `Tree.get_nodes_at_level(target)`: from the root, stopping at each match. */
    function GetNodesAtLevel(target: int): (r: seq<NodeId>)
      reads this
      requires Valid()
      ensures r == NodesAtLevel(links, root, target)
      ensures forall k :: 0 <= k < |r| ==> r[k] in links.up && Level(links, r[k]) == target
    {
      CollectSameAsNodesAtLevel(links, root, target);
      CollectAtLevel(links, root, target)
    }

    /** `count_branches(node)`, with None counting nothing. */
    function CountBranchesOf(n: Option<NodeId>): (r: (nat, nat))
      reads this
      requires Valid() && (n.Some? ==> n.value in links.up)
      ensures n.None? ==> r == (0, 0)
      ensures n.Some? ==> r == Tally(info, PreOrder(links, n.value))
    {
      if n.None? then (0, 0) else CountBranches(links, info, n.value)
    }

    // ---------------------------------------------------------- mutation

    /** `TreeNode(...)` followed by `parent.add_child(node)`: the fresh node becomes the parent's last child. */
    method NewChild(p: NodeId, node: NodeInfo) returns (c: NodeId)
      requires Valid() && p in links.up
      modifies this`links, this`info, this`nextId
      ensures Valid()
      ensures c == old(nextId) && nextId == c + 1 && c !in old(links.up)
      ensures links.kids == old(links.kids)[p := old(links.kids)[p] + [c]][c := []]
      ensures links.up == old(links.up)[c := Some(p)]
      ensures info == old(info)[c := node]
    {
      c := nextId;
      links, info, nextId := AllocChild(links, p, c), info[c := node], nextId + 1;
    }

    /**
     * `parent.add_child(node)` on a node already in the arena (grafting):
     * the child names the new parent and is appended as its last child. The
     * child must be listed nowhere, and the parent must not lie in its subtree.
     */
    method AddChild(p: NodeId, c: NodeId)
      requires Valid() && p in links.up && c in links.up && c != root
      requires !Reaches(links, p, c)
      requires forall n | n in links.kids :: c !in links.kids[n]
      modifies this`links
      ensures Valid()
      ensures links == Attach(old(links), p, c)
      ensures links.kids == old(links.kids)[p := old(links.kids)[p] + [c]]
      ensures links.up == old(links.up)[c := Some(p)]
    {
      links := Attach(links, p, c);
    }

    /** `detach_node`: the node leaves its parent's children (by identity) and loses its parent. */
    method DetachNode(n: NodeId)
      requires Valid() && n in links.up
      modifies this`links
      ensures Valid()
      ensures links == Detach(old(links), n)
      ensures forall m | m in links.kids :: n !in links.kids[m]
    {
      links := Detach(links, n);
    }

    /** `rename_node_in_lookup`: the node under the old key moves to the new key and takes the new name. */
    method RenameNodeInLookup(oldName: string, newName: string)
      requires Valid()
      modifies this`nodeLookup, this`info
      ensures Valid()
      ensures (nodeLookup, info) == RenameInLookup(old(nodeLookup), old(info), oldName, newName)
    {
      if oldName in nodeLookup {
        var n := nodeLookup[oldName];
        nodeLookup, info := (nodeLookup - {oldName})[newName := n], info[n := info[n].(name := newName)];
      }
    }

    /** `rename_children`: a loop over the children, each renamed and then recursed into. */
    method RenameChildren(n: NodeId, newName: string)
      requires Valid() && n in links.up
      modifies this`nodeLookup, this`info
      ensures Valid()
      ensures (nodeLookup, info) == Renamed(links, old(nodeLookup), old(info), n, newName)
      decreases links.bound - links.rank[n]
    {
      var i := 0;
      while i < |links.kids[n]|
        invariant Valid() && i <= |links.kids[n]|
        invariant RenamedFrom(links, nodeLookup, info, n, newName, i) == Renamed(links, old(nodeLookup), old(info), n, newName)
        decreases |links.kids[n]| - i
      {
        var c := links.kids[n][i];
        ListedChildPoints(links, n, c);
        var childName := Join([newName, BaseName(info[c].name)]);
        RenameNodeInLookup(info[c].name, childName);
        RenameChildren(c, childName);
        i := i + 1;
      }
    }

    /** `update_node(node, data)`: nothing for a None node, else the present keys overwrite the node's attributes. */
    method UpdateNode(n: Option<NodeId>, u: NodeUpdate)
      requires Valid() && (n.Some? ==> n.value in links.up)
      modifies this`info
      ensures Valid()
      ensures n.None? ==> info == old(info)
      ensures n.Some? ==> info == old(info)[n.value := ApplyUpdate(old(info)[n.value], u)]
    {
      if n.Some? && !IsEmptyUpdate(u) {
        info := info[n.value := ApplyUpdate(info[n.value], u)];
      }
    }

    /** `virtual_image_lookup[img] = node`: a specific image is looked up as the node made for it. */
    method RegisterVirtualImage(img: string, n: NodeId)
      requires Valid() && n in links.up
      modifies this`virtualImageLookup
      ensures Valid()
      ensures virtualImageLookup == old(virtualImageLookup)[img := n]
    {
      virtualImageLookup := virtualImageLookup[img := n];
    }

    /**
     * `add_node(new_node, parent_name)` for a fresh node: the parent is
     * looked up by name (`ValueError` when missing), the node becomes its
     * last child and is registered by name and by path.
     */
    method AddNode(node: NodeInfo, parentName: string) returns (r: Result<NodeId>)
      requires Valid()
      modifies this`links, this`info, this`nextId, this`nodeLookup, this`pathLookup
      ensures Valid()
      ensures parentName !in old(nodeLookup) ==> r.Err? && r.error.ValueError? && unchanged(this)
      ensures parentName in old(nodeLookup) ==>
        var p := old(nodeLookup)[parentName];
        var c := old(nextId);
        r == Ok(c) && c !in old(links.up) && nextId == c + 1 &&
        links.kids == old(links.kids)[p := old(links.kids)[p] + [c]][c := []] &&
        links.up == old(links.up)[c := Some(p)] && info == old(info)[c := node] &&
        nodeLookup == old(nodeLookup)[node.name := c] && pathLookup == old(pathLookup)[node.path := c]
    {
      if parentName !in nodeLookup {
        return Err(ValueError("Parent node not found."));
      }
      var p := nodeLookup[parentName];
      var c := NewChild(p, node);
      nodeLookup, pathLookup := nodeLookup[node.name := c], pathLookup[node.path := c];
      r := Ok(c);
    }

    /** A prefix node of `ensure_parent_exists`: a fresh child of `p`, registered by name and by path. */
    method RegisterChild(p: NodeId, name: string, path: string) returns (c: NodeId)
      requires Valid() && p in links.up
      modifies this`links, this`info, this`nextId, this`nodeLookup, this`pathLookup
      ensures Valid()
      ensures c == old(nextId) && nextId == c + 1 && c !in old(links.up)
      ensures links.kids == old(links.kids)[p := old(links.kids)[p] + [c]][c := []]
      ensures links.up == old(links.up)[c := Some(p)]
      ensures info == old(info)[c := BareInfo(name, path)]
      ensures nodeLookup == old(nodeLookup)[name := c] && pathLookup == old(pathLookup)[path := c]
    {
      c := NewChild(p, BareInfo(name, path));
      nodeLookup, pathLookup := nodeLookup[name := c], pathLookup[path := c];
    }

    /** One prefix of `ensure_parent_exists`: the node the lookup knows under `name`, or a fresh child of `current`. */
    /**
     * After `i` prefixes: the tree is valid, they are built, and `node` is
     * the last of them (the root before the first). Where it is to be
     * proved it is written `Walked(...) == true`, so that the verifier
     * proves it as one fact instead of clause by clause.
     */
    ghost predicate Walked(chain: seq<(string, string)>, i: nat, L0: map<string, NodeId>, U0: map<NodeId, Option<NodeId>>,
                           I0: map<NodeId, NodeInfo>, P0: map<string, NodeId>, node: NodeId)
      reads this
    {
      Valid() && i <= |chain| && node in links.up &&
      ChainBuilt(chain, i, root, L0, U0, I0, P0, nodeLookup, links.up, info, pathLookup) &&
      (i > 0 ==> chain[i - 1].0 in nodeLookup && node == nodeLookup[chain[i - 1].0]) && (i == 0 ==> node == root)
    }

    /** What a finished walk guarantees, clause by clause. */
    lemma WalkedParts(chain: seq<(string, string)>, i: nat, L0: map<string, NodeId>, U0: map<NodeId, Option<NodeId>>,
                      I0: map<NodeId, NodeInfo>, P0: map<string, NodeId>, node: NodeId)
      requires Walked(chain, i, L0, U0, I0, P0, node)
      ensures Valid() && node in links.up && i <= |chain|
      ensures KeysGrow(P0, pathLookup) && OldUntouched(U0, I0, links.up, info)
      ensures ChainBuilt(chain, i, root, L0, U0, I0, P0, nodeLookup, links.up, info, pathLookup)
      ensures node == if i == 0 then root else nodeLookup[chain[i - 1].0]
    {
    }

    /** One step of the walk: the node of prefix `i` is reused when its name is known, and created below `current` otherwise. */
    method VisitPrefix(ghost chain: seq<(string, string)>, ghost names: string -> string, ghost i: nat, ghost L0: map<string, NodeId>,
                       ghost U0: map<NodeId, Option<NodeId>>, ghost I0: map<NodeId, NodeInfo>, ghost P0: map<string, NodeId>,
                       current: NodeId, name: string, next: string) returns (node: NodeId)
      requires i < |chain| && chain[i] == (name, next) && NamedBy(chain, names)
      requires Walked(chain, i, L0, U0, I0, P0, current) == true
      modifies this`links, this`info, this`nextId, this`nodeLookup, this`pathLookup
      ensures Walked(chain, i + 1, L0, U0, I0, P0, node) && root == old(root)
      ensures name in nodeLookup && node == nodeLookup[name]
    {
      NamedByNamesByPath(chain, names);
      if name in nodeLookup {
        node := nodeLookup[name];
        ChainFound(chain, i, root, L0, U0, I0, P0, nodeLookup, links.up, info, pathLookup);
      } else {
        ghost var L1, U1, I1, P1 := nodeLookup, links.up, info, pathLookup;
        node := RegisterChild(current, name, next);
        ChainMade(chain, i, root, L0, U0, I0, P0, L1, U1, I1, P1, current, node, nodeLookup, links.up, info, pathLookup);
      }
    }

    /** The prefix walk of `ensure_parent_exists` from the root, creating each missing prefix of `chain`. */
    method BuildChain(chain: seq<(string, string)>, ghost names: string -> string, ghost L0: map<string, NodeId>, ghost U0: map<NodeId, Option<NodeId>>,
                      ghost I0: map<NodeId, NodeInfo>, ghost P0: map<string, NodeId>) returns (node: NodeId)
      requires Valid() && NamedBy(chain, names)
      requires L0 == nodeLookup && U0 == links.up && I0 == info && P0 == pathLookup
      modifies this`links, this`info, this`nextId, this`nodeLookup, this`pathLookup
      ensures Walked(chain, |chain|, L0, U0, I0, P0, node) == true
    {
      ChainStart(chain, root, L0, U0, I0, P0);
      node := root;
      var i := 0;
      while i < |chain|
        invariant Walked(chain, i, L0, U0, I0, P0, node) == true && root == old(root)
      {
        node := VisitPrefix(chain, names, i, L0, U0, I0, P0, node, chain[i].0, chain[i].1);
        i := i + 1;
      }
      assert i == |chain|;
    }

    /**
     * `ensure_parent_exists(path)`: the root for an empty or `root` path, a
     * `ValueError` for a relative path, and otherwise the node of the last
     * prefix after walking the prefixes, reusing each node the name lookup
     * knows and creating the missing ones. Its `ValueError` for a malformed
     * UNC path is never raised (`PlanParentRejectsOnlyRelative`).
     */
    method EnsureParentExists(path: string) returns (r: Result<NodeId>)
      requires Valid()
      modifies this`links, this`info, this`nextId, this`nodeLookup, this`pathLookup
      ensures KeysGrow(old(pathLookup), pathLookup)
      ensures Valid()
      ensures r.Ok? ==> r.value in links.up
      ensures OldUntouched(old(links.up), old(info), links.up, info)
      ensures PlanParent(path).RootPlan? ==> r == Ok(root) && unchanged(this)
      ensures PlanParent(path).Reject? ==> r.Err? && r.error.ValueError? && unchanged(this)
      ensures PlanParent(path).ChainPlan? ==>
        var plan := PlanParent(path);
        var chain := Chain(plan.kind, plan.start, plan.segments);
        r.Ok? && ChainBuilt(chain, |chain|, root, old(nodeLookup), old(links.up), old(info), old(pathLookup), nodeLookup, links.up, info, pathLookup) &&
        r.value == if |chain| == 0 then root else nodeLookup[chain[|chain| - 1].0]
    {
      var plan := PlanParent(path);
      r := FollowPlan(plan, pathLookup);
      if plan.ChainPlan? {
        WalkedParts(Chain(plan.kind, plan.start, plan.segments), |plan.segments|, old(nodeLookup), old(links.up), old(info), old(pathLookup), r.value);
      }
    }

    /** The tree-changing part of `ensure_parent_exists`, once the path has been classified. */
    method FollowPlan(plan: ParentPlan, ghost P0: map<string, NodeId>) returns (r: Result<NodeId>)
      requires Valid() && P0 == pathLookup
      modifies this`links, this`info, this`nextId, this`nodeLookup, this`pathLookup
      ensures plan.RootPlan? ==> r == Ok(root) && unchanged(this)
      ensures plan.Reject? ==> r.Err? && r.error.ValueError? && unchanged(this)
      ensures plan.ChainPlan? ==>
        r.Ok? && Walked(Chain(plan.kind, plan.start, plan.segments), |plan.segments|, old(nodeLookup), old(links.up), old(info), P0, r.value) == true
    {
      match plan {
        case RootPlan => return Ok(root);
        case Reject(msg) => return Err(ValueError(msg));
        case ChainPlan(kind, start, segments) =>
          ChainNamedBy(kind, start, segments);
          var node := BuildChain(Chain(kind, start, segments), p => ChainName(kind, p), nodeLookup, links.up, info, pathLookup);
          r := Ok(node);
      }
    }

    /**
     * `create_node(path, node_data)`: the parent directory's prefixes are
     * ensured, then a node named by the path's tree form is added below the
     * node named by the parent's tree form. The attributes are those of
     * `NodeFromData`, which keeps the user proportion (see `NodeFromDataAsWritten`).
     */
    method CreateNode(path: string, d: NodeData) returns (r: Result<NodeId>)
      requires Valid()
      modifies this`links, this`info, this`nextId, this`nodeLookup, this`pathLookup
      ensures Valid()
      ensures OldUntouched(old(links.up), old(info), links.up, info)
      ensures PlanParent(DirName(path)).Reject? ==> r.Err? && r.error.ValueError? && unchanged(this)
      ensures r.Ok? ==>
        r.value !in old(links.up) && r.value in links.up && links.up[r.value].Some? &&
        info[r.value] == NodeFromData(ConvertPathToTreeFormat(path), path, d) &&
        ConvertPathToTreeFormat(path) in nodeLookup && nodeLookup[ConvertPathToTreeFormat(path)] == r.value &&
        path in pathLookup && pathLookup[path] == r.value
      ensures r.Ok? ==>
        var p := links.up[r.value].value;
        var parentName := ConvertPathToTreeFormat(DirName(path));
        p in links.kids && |links.kids[p]| > 0 && links.kids[p][|links.kids[p]| - 1] == r.value && links.kids[r.value] == [] &&
        (parentName != ConvertPathToTreeFormat(path) ==> parentName in nodeLookup && nodeLookup[parentName] == p)
    {
      var parentPath := DirName(path);
      var parent := EnsureParentOf(parentPath);
      if parent.Err? {
        return Err(parent.error);
      }
      ghost var U1, I1 := links.up, info;
      r := AddCreated(NodeFromData(ConvertPathToTreeFormat(path), path, d), ConvertPathToTreeFormat(parentPath));
      if r.Ok? {
        OldUntouchedStep(old(links.up), old(info), U1, I1, r.value, links.up, info);
      }
    }

    /** The `ensure_parent_exists` call of `create_node`, stated by what `create_node` relies on. */
    method EnsureParentOf(path: string) returns (r: Result<NodeId>)
      requires Valid()
      modifies this`links, this`info, this`nextId, this`nodeLookup, this`pathLookup
      ensures Valid()
      ensures OldUntouched(old(links.up), old(info), links.up, info) && KeysGrow(old(pathLookup), pathLookup)
      ensures PlanParent(path).Reject? ==> r.Err? && r.error.ValueError? && unchanged(this)
      ensures r.Err? ==> r.error.ValueError? && unchanged(this)
    {
      r := EnsureParentExists(path);
    }

    /** The `add_node` call of `create_node`, stated for a fresh node by where it ends up. */
    method AddCreated(node: NodeInfo, parentName: string) returns (r: Result<NodeId>)
      requires Valid()
      modifies this`links, this`info, this`nextId, this`nodeLookup, this`pathLookup
      ensures Valid()
      ensures r.Err? ==> r.error.ValueError? && unchanged(this)
      ensures r.Ok? ==>
        r.value !in old(links.up) && r.value in links.up && links.up[r.value].Some? &&
        links.up == old(links.up)[r.value := links.up[r.value]] && info == old(info)[r.value := node] &&
        nodeLookup == old(nodeLookup)[node.name := r.value] && pathLookup == old(pathLookup)[node.path := r.value]
      ensures r.Ok? ==>
        var p := links.up[r.value].value;
        p in links.kids && |links.kids[p]| > 0 && links.kids[p][|links.kids[p]| - 1] == r.value && links.kids[r.value] == [] &&
        (parentName != node.name ==> parentName in nodeLookup && nodeLookup[parentName] == p)
    {
      r := AddNode(node, parentName);
    }
  }
}
