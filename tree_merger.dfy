/**
 * `TreeMerger` (`enkan/utils/input/TreeMerger.py`): trees are merged left
 * to right into the first one. Placement belongs to the earliest tree: a
 * later node whose path the base already knows only updates that node's
 * content, and a node with an unknown path is added below its parent,
 * whose prefixes are created as `ensure_parent_exists` does.
 */
module Merging {
  import opened Common
  import opened Paths
  import opened Nodes
  import opened TreeModel

  // ------------------------------------------------------- node merging

  /** `_is_from_path`: the image's normalised directory is the source path or lies below it. */
  predicate IsFromPath(image: string, src: string)
  {
    var normSrc := NormPath(src);
    var imgDir := NormPath(DirName(image));
    imgDir == normSrc || StartsWith(imgDir, normSrc + [Sep])
  }

  /** The images that do not come from `src`, in their order. */
  function KeptImages(images: seq<string>, src: string): (r: seq<string>)
    ensures |r| <= |images|
  {
    if images == [] then []
    else (if IsFromPath(images[0], src) then [] else [images[0]]) + KeptImages(images[1..], src)
  }

  /** An image is kept iff it does not come from the path. */
  lemma {:induction false} KeptMembers(images: seq<string>, src: string)
    ensures forall x :: x in KeptImages(images, src) <==> x in images && !IsFromPath(x, src)
  {
    if images != [] {
      KeptMembers(images[1..], src);
      assert images == [images[0]] + images[1..];
    }
  }

  /**
   * `_replace_images_for_path`: nothing when the incoming node has no
   * images; otherwise the target keeps the images that do not come from
   * the incoming path, followed by all incoming images. The flag says
   * whether the node changed.
   */
  function ReplaceImages(target: NodeInfo, incoming: NodeInfo): (r: (NodeInfo, bool))
    ensures r.0 == target.(images := r.0.images)
    ensures r.1 <==> r.0 != target
    ensures incoming.images == [] ==> r.0 == target
    ensures incoming.images != [] ==>
      |incoming.images| <= |r.0.images| &&
      r.0.images[|r.0.images| - |incoming.images|..] == incoming.images &&
      forall x :: x in r.0.images <==> x in incoming.images || (x in target.images && !IsFromPath(x, NormPath(incoming.path)))
  {
    if incoming.images == [] then (target, false)
    else
      var newImages := KeptImages(target.images, NormPath(incoming.path)) + incoming.images;
      KeptMembers(target.images, NormPath(incoming.path));
      assert newImages[|newImages| - |incoming.images|..] == incoming.images;
      if newImages == target.images then (target, false) else (target.(images := newImages), true)
  }

  /**
   * `_merge_metadata`: the incoming user proportion wins when it is set,
   * weight modifier and percentage flag always come from the incoming
   * node, and proportion and mode modifier are taken only when the target
   * has none. The flag says whether the node changed.
   */
  function MergeMetadata(target: NodeInfo, incoming: NodeInfo): (r: (NodeInfo, bool))
    ensures r.0.userProportion == if incoming.userProportion.Some? then incoming.userProportion else target.userProportion
    ensures r.0.weightModifier == incoming.weightModifier && r.0.isPercentage == incoming.isPercentage
    ensures r.0.proportion == if target.proportion.None? then incoming.proportion else target.proportion
    ensures r.0.modeModifier == if target.modeModifier.None? then incoming.modeModifier else target.modeModifier
    ensures r.0 == target.(userProportion := r.0.userProportion, weightModifier := r.0.weightModifier,
                           isPercentage := r.0.isPercentage, proportion := r.0.proportion, modeModifier := r.0.modeModifier)
    ensures r.1 <==> r.0 != target
  {
    var takeUser := incoming.userProportion.Some? && target.userProportion != incoming.userProportion;
    var takeModifier := target.weightModifier != incoming.weightModifier;
    var takePercentage := target.isPercentage != incoming.isPercentage;
    var fillProportion := target.proportion.None? && incoming.proportion.Some?;
    var fillMode := target.modeModifier.None? && incoming.modeModifier.Some?;
    var merged := target.(
      userProportion := if takeUser then incoming.userProportion else target.userProportion,
      weightModifier := if takeModifier then incoming.weightModifier else target.weightModifier,
      isPercentage := if takePercentage then incoming.isPercentage else target.isPercentage,
      proportion := if fillProportion then incoming.proportion else target.proportion,
      modeModifier := if fillMode then incoming.modeModifier else target.modeModifier);
    (merged, takeUser || takeModifier || takePercentage || fillProportion || fillMode)
  }

  /** `_merge_node`: images, then metadata; the target keeps its name and path. */
  function MergeNode(target: NodeInfo, incoming: NodeInfo): (r: (NodeInfo, bool))
    ensures r.0.name == target.name && r.0.path == target.path
    ensures r.0.group == target.group && r.0.weight == target.weight && r.0.flat == target.flat
    ensures r.1 <==> r.0 != target
  {
    var (withImages, imagesChanged) := ReplaceImages(target, incoming);
    var (merged, metaChanged) := MergeMetadata(withImages, incoming);
    assert merged.images == withImages.images;
    (merged, imagesChanged || metaChanged)
  }

  /** Merging a node into its own merge result changes nothing more. */
  lemma MergeNodeIdempotent(target: NodeInfo, incoming: NodeInfo)
    requires forall x | x in incoming.images :: IsFromPath(x, NormPath(incoming.path))
    ensures var once := MergeNode(target, incoming).0; MergeNode(once, incoming) == (once, false)
  {
    var once := MergeNode(target, incoming).0;
    if incoming.images != [] {
      var kept := KeptImages(target.images, NormPath(incoming.path));
      var withImages := ReplaceImages(target, incoming).0;
      assert withImages.images == kept + incoming.images;
      assert once.images == withImages.images;
      KeptMembers(target.images, NormPath(incoming.path));
      KeptAll(kept, NormPath(incoming.path));
      KeptNone(incoming.images, NormPath(incoming.path));
      KeptAppend(kept, incoming.images, NormPath(incoming.path));
      assert KeptImages(once.images, NormPath(incoming.path)) == kept;
    }
  }

  lemma {:induction false} KeptAppend(a: seq<string>, b: seq<string>, src: string)
    ensures KeptImages(a + b, src) == KeptImages(a, src) + KeptImages(b, src)
  {
    if a != [] {
      assert (a + b)[0] == a[0];
      assert (a + b)[1..] == a[1..] + b;
      KeptAppend(a[1..], b, src);
      var head := if IsFromPath(a[0], src) then [] else [a[0]];
      var tailA, kb := KeptImages(a[1..], src), KeptImages(b, src);
      assert KeptImages(a + b, src) == head + (tailA + kb);
      assert KeptImages(a, src) == head + tailA;
      Associative(head, tailA, kb);
    } else {
      assert a + b == b;
    }
  }

  lemma Associative<T>(x: seq<T>, y: seq<T>, z: seq<T>)
    ensures x + (y + z) == (x + y) + z
  {
  }

  lemma {:induction false} KeptAll(a: seq<string>, src: string)
    requires forall x | x in a :: !IsFromPath(x, src)
    ensures KeptImages(a, src) == a
  {
    if a != [] {
      KeptAll(a[1..], src);
    }
  }

  lemma {:induction false} KeptNone(a: seq<string>, src: string)
    requires forall x | x in a :: IsFromPath(x, src)
    ensures KeptImages(a, src) == []
  {
    if a != [] {
      KeptNone(a[1..], src);
    }
  }

  /** When no image of the target comes from the incoming path, the incoming images are appended to all of them. */
  lemma MergeAppendsImages(target: NodeInfo, incoming: NodeInfo)
    requires incoming.images != []
    requires forall x | x in target.images :: !IsFromPath(x, NormPath(incoming.path))
    ensures MergeNode(target, incoming).0.images == target.images + incoming.images
  {
    KeptAll(target.images, NormPath(incoming.path));
    assert MergeNode(target, incoming).0.images == ReplaceImages(target, incoming).0.images;
  }

  /** `ntpath.normpath` keeps a drive letter. */
  lemma NormPathKeepsDrive(path: string)
    requires |path| >= 2 && path[1] == ':' && !IsSep(path[0])
    ensures |NormPath(path)| >= 2 && NormPath(path)[..2] == path[..2]
  {
    assert !StartsWith(path, "\\\\.\\") && !StartsWith(path, "\\\\?\\");
    var replaced := ReplaceChar(path, AltSep, Sep);
    assert replaced[0] == path[0] && replaced[1] == ':';
    var (drive, tail) := SplitDrive(replaced);
    assert drive == replaced[..2];
    assert drive == path[..2];
    var rooted := |tail| > 0 && tail[0] == Sep;
    var prefix := if rooted then drive + [Sep] else drive;
    var rest := if rooted then LStripSeps(tail, false) else tail;
    var comps := NormComps([], Split(rest, Sep), EndsWith(prefix, [Sep]));
    var comps' := if prefix == "" && comps == [] then ["."] else comps;
    assert NormPath(path) == prefix + JoinWith(comps', Sep);
    assert (prefix + JoinWith(comps', Sep))[..2] == drive;
  }

  /** A file name without directory or drive. */
  predicate Bare(name: string)
  {
    (forall k | 0 <= k < |name| :: !IsSep(name[k])) && (|name| >= 2 ==> name[1] != ':')
  }

  /** Bare image names never come from a drive-letter path, so the incoming images are appended to all of them. */
  lemma MergeKeepsBareImages(target: NodeInfo, incoming: NodeInfo)
    requires incoming.images != [] && |incoming.path| >= 2 && incoming.path[1] == ':' && !IsSep(incoming.path[0])
    requires forall x | x in target.images :: Bare(x)
    ensures MergeNode(target, incoming).0.images == target.images + incoming.images
  {
    var src := NormPath(incoming.path);
    NormPathKeepsDrive(incoming.path);
    NormPathKeepsDrive(src);
    forall x | x in target.images ensures !IsFromPath(x, src) {
      BareDirName(x);
      BareImageNotFrom(x, src);
    }
    MergeAppendsImages(target, incoming);
  }

  /**
   * The images of `test_merger_appends_images`: a bare file name has the
   * directory `.`, which never lies below the drive path `C:\foo`, so both
   * images stay.
   */
  lemma MergeKeepsBothImages(target: NodeInfo, incoming: NodeInfo)
    requires target.images == ["a.jpg"] && incoming.images == ["b.jpg"] && incoming.path == "C:\\foo"
    ensures MergeNode(target, incoming).0.images == ["a.jpg", "b.jpg"]
  {
    assert Bare("a.jpg");
    MergeKeepsBareImages(target, incoming);
  }

  /** An image without a directory never comes from a path that normalises to two or more characters. */
  lemma BareImageNotFrom(image: string, src: string)
    requires DirName(image) == "" && |NormPath(src)| >= 2
    ensures !IsFromPath(image, src)
  {
    NormPathEmpty();
  }

  /** A name without separators or drive has no directory. */
  lemma BareDirName(p: string)
    requires Bare(p)
    ensures DirName(p) == ""
  {
    if |p| >= 2 {
      var normp := ReplaceChar(p, AltSep, Sep);
      assert normp[0] != Sep && normp[1] != ':';
    }
    assert SplitDrive(p) == ("", p);
    var i := LastSepEnd(p);
    assert i == 0;
    assert RStripSeps(p[..0], true) == "";
  }

  /** `ntpath.normpath("")` is `.`. */
  lemma NormPathEmpty()
    ensures NormPath("") == "."
  {
    assert ReplaceChar("", AltSep, Sep) == "";
    assert SplitDrive("") == ("", "");
    assert Split("", Sep) == [""];
    assert NormComps([], [""], false) == [];
    assert JoinWith(["."], Sep) == ".";
  }

  /** The user proportion is taken from the later tree; the existing proportion stays. */
  lemma MergeOverwritesUserProportion(target: NodeInfo, incoming: NodeInfo)
    requires target.proportion == Some(25.0) && target.userProportion == Some(25.0)
    requires incoming.proportion == Some(75.0) && incoming.userProportion == Some(75.0)
    ensures MergeNode(target, incoming).0.userProportion == Some(75.0)
    ensures MergeNode(target, incoming).0.proportion == Some(25.0)
    ensures MergeNode(target, incoming).1
  {
  }

  /** The node `_add_node` creates from an unmatched incoming node: no group, no weight, not flat. */
  function AddedInfo(incoming: NodeInfo): (r: NodeInfo)
    ensures r.name == incoming.name && r.path == incoming.path && r.images == incoming.images
    ensures r.group.None? && r.weight.None? && !r.flat
  {
    NodeInfo(incoming.name, incoming.path, None, incoming.proportion, incoming.userProportion, None,
             incoming.weightModifier, incoming.isPercentage, incoming.modeModifier, false, incoming.images)
  }

  // ---------------------------------------------------------- traversal

  /** The order of `_traverse`: a node, then the subtrees of its children from the last to the first. */
  ghost function Dfs(l: Links, n: NodeId): (r: seq<NodeId>)
    requires Wf(l) && n in l.up
    ensures |r| >= 1 && r[0] == n
    decreases l.bound - l.rank[n], 1, 0
  {
    [n] + DfsKids(l, n, |l.kids[n]|)
  }

  /** The subtrees of the first `i` children of `n`, the `i`-th first. */
  ghost function DfsKids(l: Links, n: NodeId, i: nat): (r: seq<NodeId>)
    requires Wf(l) && n in l.up && i <= |l.kids[n]|
    decreases l.bound - l.rank[n], 0, i
  {
    if i == 0 then []
    else
      ListedChildPoints(l, n, l.kids[n][i - 1]);
      Dfs(l, l.kids[n][i - 1]) + DfsKids(l, n, i - 1)
  }

  /** `_traverse` visits each node of the subtree exactly as often as the pre-order does. */
  lemma {:induction false} DfsPerm(l: Links, n: NodeId)
    requires Wf(l) && n in l.up
    ensures multiset(Dfs(l, n)) == multiset(PreOrder(l, n))
    decreases l.bound - l.rank[n], 1, 0
  {
    DfsKidsPerm(l, n, |l.kids[n]|);
  }

  lemma {:induction false} DfsKidsPerm(l: Links, n: NodeId, i: nat)
    requires Wf(l) && n in l.up && i <= |l.kids[n]|
    ensures multiset(DfsKids(l, n, i)) + multiset(PreOrderFrom(l, n, i)) == multiset(PreOrderFrom(l, n, 0))
    decreases l.bound - l.rank[n], 0, i
  {
    if i > 0 {
      var k := l.kids[n][i - 1];
      ListedChildPoints(l, n, k);
      var before, after := DfsKids(l, n, i - 1), PreOrderFrom(l, n, i);
      assert DfsKids(l, n, i) == Dfs(l, k) + before;
      assert PreOrderFrom(l, n, i - 1) == PreOrder(l, k) + after;
      DfsPerm(l, k);
      DfsKidsPerm(l, n, i - 1);
      MultisetStep(Dfs(l, k), PreOrder(l, k), before, after, PreOrderFrom(l, n, 0));
    } else {
      assert DfsKids(l, n, 0) == [];
    }
  }

  /** Every node of `s` has a parent, found in `allowed` or earlier in `s`. */
  ghost predicate ParentsEarlier(l: Links, s: seq<NodeId>, allowed: set<NodeId>)
  {
    forall j | 0 <= j < |s| ::
      s[j] in l.up && l.up[s[j]].Some? && (l.up[s[j]].value in allowed || l.up[s[j]].value in s[..j])
  }

  lemma ParentsEarlierMono(l: Links, s: seq<NodeId>, a: set<NodeId>, b: set<NodeId>)
    requires ParentsEarlier(l, s, a) && a <= b
    ensures ParentsEarlier(l, s, b)
  {
  }

  lemma ParentsEarlierConcat(l: Links, s: seq<NodeId>, t: seq<NodeId>, allowed: set<NodeId>)
    requires ParentsEarlier(l, s, allowed) && ParentsEarlier(l, t, allowed + set x | x in s)
    ensures ParentsEarlier(l, s + t, allowed)
  {
    forall j | 0 <= j < |s + t|
      ensures (s + t)[j] in l.up && l.up[(s + t)[j]].Some?
      ensures l.up[(s + t)[j]].value in allowed || l.up[(s + t)[j]].value in (s + t)[..j]
    {
      if j < |s| {
        assert (s + t)[j] == s[j] && (s + t)[..j] == s[..j];
      } else {
        var k := j - |s|;
        assert (s + t)[j] == t[k] && (s + t)[..j] == s + t[..k];
      }
    }
  }

  /** In the traversal of the children's subtrees every node's parent is `n` or was yielded before it. */
  lemma {:induction false} DfsKidsParentsEarlier(l: Links, n: NodeId, i: nat)
    requires Wf(l) && n in l.up && i <= |l.kids[n]|
    ensures ParentsEarlier(l, DfsKids(l, n, i), {n})
    decreases l.bound - l.rank[n], 0, i
  {
    if i > 0 {
      var k := l.kids[n][i - 1];
      ListedChildPoints(l, n, k);
      DfsParentsEarlier(l, k);
      DfsKidsParentsEarlier(l, n, i - 1);
      ParentsEarlierMono(l, DfsKids(l, n, i - 1), {n}, {n} + set x | x in Dfs(l, k));
      ParentsEarlierConcat(l, Dfs(l, k), DfsKids(l, n, i - 1), {n});
    }
  }

  /** The subtree of `k`, below a parent `p`, yields each node after its parent. */
  lemma {:induction false} DfsParentsEarlier(l: Links, k: NodeId)
    requires Wf(l) && k in l.up && l.up[k].Some?
    ensures ParentsEarlier(l, Dfs(l, k), {l.up[k].value})
    decreases l.bound - l.rank[k], 1, 0
  {
    var p := l.up[k].value;
    DfsKidsParentsEarlier(l, k, |l.kids[k]|);
    ParentsEarlierMono(l, DfsKids(l, k, |l.kids[k]|), {k}, {p} + set x | x in [k]);
    ParentsEarlierConcat(l, [k], DfsKids(l, k, |l.kids[k]|), {p});
  }

  /** `_traverse` yields every node after its parent: only its first node, the start, has none before it. */
  lemma TraverseParentsFirst(l: Links, n: NodeId)
    requires Wf(l) && n in l.up
    ensures forall j | 0 < j < |Dfs(l, n)| ::
      Dfs(l, n)[j] in l.up && l.up[Dfs(l, n)[j]].Some? && l.up[Dfs(l, n)[j]].value in Dfs(l, n)[..j]
  {
    var s := Dfs(l, n);
    var below := DfsKids(l, n, |l.kids[n]|);
    DfsKidsParentsEarlier(l, n, |l.kids[n]|);
    forall j | 0 < j < |s| ensures s[j] in l.up && l.up[s[j]].Some? && l.up[s[j]].value in s[..j] {
      assert s[j] == below[j - 1] && s[..j] == [n] + below[..j - 1];
    }
  }

  lemma MultisetStep(d: seq<NodeId>, p: seq<NodeId>, before: seq<NodeId>, after: seq<NodeId>, total: seq<NodeId>)
    requires multiset(d) == multiset(p) && multiset(before) + multiset(p + after) == multiset(total)
    ensures multiset(d + before) + multiset(after) == multiset(total)
  {
  }

  /** The nodes a stack still yields: the subtree of its top, then the rest of the stack. */
  ghost function Pending(l: Links, stack: seq<NodeId>): (r: seq<NodeId>)
    requires Wf(l) && forall k | 0 <= k < |stack| :: stack[k] in l.up
  {
    if stack == [] then []
    else Dfs(l, stack[|stack| - 1]) + Pending(l, stack[..|stack| - 1])
  }

  /** Pushing the first `i` children of `x` puts their subtrees, last pushed first, before the rest. */
  lemma {:induction false} PushKids(l: Links, rest: seq<NodeId>, x: NodeId, i: nat)
    requires Wf(l) && x in l.up && i <= |l.kids[x]|
    requires forall k | 0 <= k < |rest| :: rest[k] in l.up
    ensures forall k | 0 <= k < |rest + l.kids[x][..i]| :: (rest + l.kids[x][..i])[k] in l.up
    ensures Pending(l, rest + l.kids[x][..i]) == DfsKids(l, x, i) + Pending(l, rest)
  {
    forall k | 0 <= k < i ensures l.kids[x][k] in l.up {
      ListedChildPoints(l, x, l.kids[x][k]);
    }
    if i == 0 {
      assert rest + l.kids[x][..0] == rest;
    } else {
      var s := rest + l.kids[x][..i];
      assert s[|s| - 1] == l.kids[x][i - 1];
      assert s[..|s| - 1] == rest + l.kids[x][..i - 1];
      PushKids(l, rest, x, i - 1);
    }
  }

  /**
   * `_traverse(node)`: pop the last node of the stack, yield it, push its
   * children. The order it yields is `Dfs`.
   */
  method Traverse(l: Links, n: NodeId) returns (order: seq<NodeId>)
    requires Wf(l) && n in l.up
    ensures order == Dfs(l, n)
  {
    var stack := [n];
    order := [];
    assert stack[..0] == [];
    while stack != []
      invariant forall k | 0 <= k < |stack| :: stack[k] in l.up
      invariant order + Pending(l, stack) == Dfs(l, n)
      decreases |Pending(l, stack)|
    {
      var current := stack[|stack| - 1];
      var rest := stack[..|stack| - 1];
      ghost var below, later := DfsKids(l, current, |l.kids[current]|), Pending(l, rest);
      assert Pending(l, stack) == ([current] + below) + later;
      PushKids(l, rest, current, |l.kids[current]|);
      assert l.kids[current][..|l.kids[current]|] == l.kids[current];
      assert Pending(l, rest + l.kids[current]) == below + later;
      Associative(order, [current], below + later);
      Associative([current], below, later);
      order := order + [current];
      stack := rest + l.kids[current];
    }
  }

  // -------------------------------------------------------- tree merging

  /** The base knows the path, as written or normalised. */
  ghost predicate Registered(pathLookup: map<string, NodeId>, path: string)
  {
    path in pathLookup || NormPath(path) in pathLookup
  }

  /**
   * `_find_matching_node`: the node filed under the path as written, else
   * the one under the normalised path.
   */
  function FindMatching(pathLookup: map<string, NodeId>, path: string): (r: Option<NodeId>)
    ensures r.Some? <==> Registered(pathLookup, path)
    ensures r.Some? ==> r.value in pathLookup.Values
    ensures path in pathLookup ==> r == Some(pathLookup[path])
  {
    if path in pathLookup then Some(pathLookup[path])
    else if NormPath(path) in pathLookup then Some(pathLookup[NormPath(path)])
    else None
  }

  /** Every node that existed keeps its parent, its name and its path. */
  ghost predicate Placed(U0: map<NodeId, Option<NodeId>>, I0: map<NodeId, NodeInfo>,
                         U: map<NodeId, Option<NodeId>>, I: map<NodeId, NodeInfo>)
  {
    forall n | n in U0 :: n in U && U[n] == U0[n] && n in I && n in I0 && I[n].name == I0[n].name && I[n].path == I0[n].path
  }

  lemma PlacedTrans(U0: map<NodeId, Option<NodeId>>, I0: map<NodeId, NodeInfo>,
                    U1: map<NodeId, Option<NodeId>>, I1: map<NodeId, NodeInfo>,
                    U: map<NodeId, Option<NodeId>>, I: map<NodeId, NodeInfo>)
    requires Placed(U0, I0, U1, I1) && Placed(U1, I1, U, I)
    ensures Placed(U0, I0, U, I)
  {
  }

  lemma UntouchedPlaced(U0: map<NodeId, Option<NodeId>>, I0: map<NodeId, NodeInfo>,
                        U: map<NodeId, Option<NodeId>>, I: map<NodeId, NodeInfo>)
    requires OldUntouched(U0, I0, U, I)
    ensures Placed(U0, I0, U, I)
  {
  }

  lemma PlacedFresh(U0: map<NodeId, Option<NodeId>>, I0: map<NodeId, NodeInfo>,
                    U: map<NodeId, Option<NodeId>>, I: map<NodeId, NodeInfo>, c: NodeId)
    requires c !in U0 && U0.Keys <= I0.Keys && c in U && c in I && U == U0[c := U[c]] && I == I0[c := I[c]]
    ensures Placed(U0, I0, U, I)
  {
  }

  /** The paths of the first `i` visited nodes, other than `root`, are known to the base. */
  ghost predicate VisitedKnown(P: map<string, NodeId>, ii: map<NodeId, NodeInfo>, order: seq<NodeId>, i: nat)
  {
    forall k | 0 <= k < i && k < |order| && order[k] in ii && ii[order[k]].path != RootName :: Registered(P, ii[order[k]].path)
  }

  lemma VisitedGrow(P1: map<string, NodeId>, P: map<string, NodeId>, ii: map<NodeId, NodeInfo>, order: seq<NodeId>, i: nat)
    requires VisitedKnown(P1, ii, order, i) && KeysGrow(P1, P) && i < |order| && order[i] in ii
    requires ii[order[i]].path != RootName ==> Registered(P, ii[order[i]].path)
    ensures VisitedKnown(P, ii, order, i + 1)
  {
    forall k | 0 <= k < i + 1 && k < |order| && order[k] in ii && ii[order[k]].path != RootName
      ensures Registered(P, ii[order[k]].path)
    {
      if k < i {
        var path := ii[order[k]].path;
        assert Registered(P1, path);
        assert path in P1 ==> path in P;
        assert NormPath(path) in P1 ==> NormPath(path) in P;
      }
    }
  }

  /** How one incoming node ends: copied in as the fresh node `node`, or merged into the base node `node`, which then changed or not. */
  datatype Outcome = Added(node: NodeId) | Updated(node: NodeId) | Unchanged(node: NodeId)

  /** The matched branch of `_merge_trees`: the node merges in place and counts as updated iff it changed. */
  method MergeMatched(base: Tree, t: NodeId, incoming: NodeInfo) returns (o: Outcome)
    requires base.Valid() && t in base.links.up
    modifies base`info
    ensures base.Valid()
    ensures base.info == old(base.info)[t := MergeNode(old(base.info)[t], incoming).0]
    ensures o == (if old(base.info)[t] != base.info[t] then Updated(t) else Unchanged(t))
  {
    var merged := MergeNode(base.info[t], incoming);
    base.info := base.info[t := merged.0];
    o := if merged.1 then Updated(t) else Unchanged(t);
  }

  /**
   * Where `_add_node` leaves the copy of `incoming`: the node `c` holds
   * `AddedInfo(incoming)`, is filed under its name and its path, has no
   * children, and is the last child of its parent, which is the node filed
   * under the parent name unless that name is the node's own.
   */
  ghost predicate AddedAs(l: Links, info: map<NodeId, NodeInfo>, nodeLookup: map<string, NodeId>,
                          pathLookup: map<string, NodeId>, c: NodeId, incoming: NodeInfo)
  {
    c in l.up && c in l.kids && c in info && info[c] == AddedInfo(incoming) &&
    incoming.name in nodeLookup && nodeLookup[incoming.name] == c &&
    incoming.path in pathLookup && pathLookup[incoming.path] == c &&
    l.kids[c] == [] && l.up[c].Some? && l.up[c].value in l.kids &&
    var p := l.up[c].value;
    |l.kids[p]| > 0 && l.kids[p][|l.kids[p]| - 1] == c &&
    (DirName(incoming.name) != incoming.name ==> DirName(incoming.name) in nodeLookup && nodeLookup[DirName(incoming.name)] == p)
  }

  /**
   * `_add_node`: the prefixes of the parent name are ensured and a copy of
   * the incoming node is added below the node of that name. Errors of
   * either step propagate.
   */
  method AddIncoming(base: Tree, incoming: NodeInfo) returns (r: Result<NodeId>)
    requires base.Valid()
    modifies base`links, base`info, base`nextId, base`nodeLookup, base`pathLookup
    ensures base.Valid()
    ensures Placed(old(base.links.up), old(base.info), base.links.up, base.info)
    ensures KeysGrow(old(base.pathLookup), base.pathLookup)
    ensures r.Ok? ==> (r.value !in old(base.links.up) && InfoKept(old(base.info), base.info) &&
      AddedAs(base.links, base.info, base.nodeLookup, base.pathLookup, r.value, incoming))
    ensures r.Err? ==> r.error.ValueError?
  {
    ghost var U0, I0, P0 := base.links.up, base.info, base.pathLookup;
    var parentName := DirName(incoming.name);
    var parent := base.EnsureParentOf(parentName);
    UntouchedPlaced(U0, I0, base.links.up, base.info);
    if parent.Err? {
      return Err(parent.error);
    }
    ghost var U1, I1, P1 := base.links.up, base.info, base.pathLookup;
    r := AddCopy(base, incoming, parentName);
    PlacedTrans(U0, I0, U1, I1, base.links.up, base.info);
    KeysGrowTrans(P0, P1, base.pathLookup);
  }

  /** The `add_node(new_node, parent_name)` of `_add_node`: the copy of `incoming` is added below the node of `parentName`. */
  method AddCopy(base: Tree, incoming: NodeInfo, parentName: string) returns (r: Result<NodeId>)
    requires base.Valid() && parentName == DirName(incoming.name)
    modifies base`links, base`info, base`nextId, base`nodeLookup, base`pathLookup
    ensures base.Valid()
    ensures Placed(old(base.links.up), old(base.info), base.links.up, base.info)
    ensures KeysGrow(old(base.pathLookup), base.pathLookup)
    ensures r.Ok? ==> (r.value !in old(base.links.up) && InfoKept(old(base.info), base.info) &&
      AddedAs(base.links, base.info, base.nodeLookup, base.pathLookup, r.value, incoming))
    ensures r.Err? ==> r.error.ValueError?
  {
    ghost var U1, I1, N1, P1 := base.links.up, base.info, base.nodeLookup, base.pathLookup;
    r := base.AddCreated(AddedInfo(incoming), parentName);
    if r.Ok? {
      AddedAsIntro(U1, I1, N1, P1, base.links, base.info, base.nodeLookup, base.pathLookup, r.value, incoming);
    }
  }

  /** The facts `add_node` gives about a fresh node, read as `AddedAs`. */
  lemma AddedAsIntro(U1: map<NodeId, Option<NodeId>>, I1: map<NodeId, NodeInfo>, N1: map<string, NodeId>, P1: map<string, NodeId>,
                     l: Links, info: map<NodeId, NodeInfo>, N: map<string, NodeId>, P: map<string, NodeId>,
                     c: NodeId, incoming: NodeInfo)
    requires U1.Keys <= I1.Keys && KeysAgree(l)
    requires c !in U1 && c in l.up && l.up[c].Some? && l.up == U1[c := l.up[c]] && info == I1[c := AddedInfo(incoming)]
    requires N == N1[AddedInfo(incoming).name := c] && P == P1[AddedInfo(incoming).path := c]
    requires var p := l.up[c].value;
      p in l.kids && |l.kids[p]| > 0 && l.kids[p][|l.kids[p]| - 1] == c && l.kids[c] == [] &&
      (DirName(incoming.name) != AddedInfo(incoming).name ==> DirName(incoming.name) in N && N[DirName(incoming.name)] == p)
    ensures Placed(U1, I1, l.up, info) && AddedAs(l, info, N, P, c, incoming)
  {
    PlacedFresh(U1, I1, l.up, info, c);
  }

  /**
   * One incoming node of `_merge_trees`: merged into the base node of its
   * path when there is one, leaving everything else as it was; else a copy
   * is added. Either way the base then knows the path.
   */
  method MergeOne(base: Tree, incoming: NodeInfo) returns (r: Result<Outcome>)
    requires base.Valid()
    modifies base`links, base`info, base`nextId, base`nodeLookup, base`pathLookup
    ensures base.Valid()
    ensures Placed(old(base.links.up), old(base.info), base.links.up, base.info)
    ensures KeysGrow(old(base.pathLookup), base.pathLookup)
    ensures r.Ok? ==> Registered(base.pathLookup, incoming.path)
    ensures Registered(old(base.pathLookup), incoming.path) <==> r.Ok? && !r.value.Added?
    ensures var m := FindMatching(old(base.pathLookup), incoming.path);
      m.Some? ==> (m.value in old(base.info) && r.Ok? && r.value.node == m.value &&
        base.links == old(base.links) && base.nodeLookup == old(base.nodeLookup) && base.pathLookup == old(base.pathLookup) &&
        base.info == old(base.info)[m.value := MergeNode(old(base.info)[m.value], incoming).0] &&
        (r.value.Updated? <==> MergeNode(old(base.info)[m.value], incoming).1))
    ensures r.Ok? && r.value.Added? ==> (r.value.node !in old(base.links.up) && InfoKept(old(base.info), base.info) &&
      AddedAs(base.links, base.info, base.nodeLookup, base.pathLookup, r.value.node, incoming))
    ensures r.Err? ==> r.error.ValueError?
  {
    var found := FindMatching(base.pathLookup, incoming.path);
    if found.Some? {
      var t := found.value;
      var o := MergeMatched(base, t, incoming);
      r := Ok(o);
    } else {
      var added := AddIncoming(base, incoming);
      if added.Err? {
        return Err(added.error);
      }
      r := Ok(Added(added.value));
    }
  }

  /** Every node of `I` keeps its attributes in `I2`. */
  ghost predicate InfoKept(I: map<NodeId, NodeInfo>, I2: map<NodeId, NodeInfo>)
  {
    forall n | n in I :: n in I2 && I2[n] == I[n]
  }

  /**
   * How `_merge_trees` handles one incoming node `node`, from the path
   * lookup and attributes `P`, `I` to `P2`, `I2`: when the base knows the
   * path, its node `o.node` takes the attributes `_merge_node` gives it,
   * nothing else changes, and the outcome is `Updated` exactly when
   * `_merge_node` reports a change; otherwise the outcome is `Added`: a
   * new node holding `AddedInfo(node)`, every old node keeping its
   * attributes, and the path known afterwards.
   */
  ghost predicate MergedStep(P: map<string, NodeId>, I: map<NodeId, NodeInfo>,
                             P2: map<string, NodeId>, I2: map<NodeId, NodeInfo>, node: NodeInfo, o: Outcome)
  {
    var m := FindMatching(P, node.path);
    if m.Some? then
      m.value in I && o.node == m.value && !o.Added? && P2 == P &&
      I2 == I[m.value := MergeNode(I[m.value], node).0] &&
      (o.Updated? <==> MergeNode(I[m.value], node).1)
    else
      o.Added? && o.node !in I && o.node in I2 && I2[o.node] == AddedInfo(node) && InfoKept(I, I2) &&
      KeysGrow(P, P2) && Registered(P2, node.path)
  }

  /** One visit of the loop of `_merge_trees`: a `root` path is skipped with nothing changed, any other node is a `MergedStep`. */
  ghost predicate VisitStep(P: map<string, NodeId>, I: map<NodeId, NodeInfo>,
                            P2: map<string, NodeId>, I2: map<NodeId, NodeInfo>, node: NodeInfo, x: Option<Outcome>)
  {
    match x
    case None => node.path == RootName && P2 == P && I2 == I
    case Some(o) => node.path != RootName && MergedStep(P, I, P2, I2, node, o)
  }

  /** `MergeOne` as the traversal of `MergeInto` sees it: the `MergedStep` it takes, and what an added node is. */
  method MergeVisited(base: Tree, node: NodeInfo) returns (r: Result<Outcome>)
    requires base.Valid()
    modifies base`links, base`info, base`nextId, base`nodeLookup, base`pathLookup
    ensures base.Valid()
    ensures Placed(old(base.links.up), old(base.info), base.links.up, base.info)
    ensures KeysGrow(old(base.pathLookup), base.pathLookup)
    ensures r.Ok? ==> Registered(base.pathLookup, node.path)
    ensures r.Ok? ==> MergedStep(old(base.pathLookup), old(base.info), base.pathLookup, base.info, node, r.value)
    ensures r.Ok? && Registered(old(base.pathLookup), node.path) ==> !r.value.Added?
    ensures r.Ok? && r.value.Added? ==> FreshCopy(old(base.links.up), base.links.up, base.info, r.value.node, node)
    ensures r.Err? ==> r.error.ValueError? && !Registered(old(base.pathLookup), node.path)
  {
    r := MergeOne(base, node);
  }

  /** The number of added outcomes among those recorded. */
  function CountAdded(s: seq<Option<Outcome>>): nat
  {
    if s == [] then 0
    else CountAdded(s[..|s| - 1]) + (if s[|s| - 1].Some? && s[|s| - 1].value.Added? then 1 else 0)
  }

  /** The number of updated outcomes among those recorded. */
  function CountUpdated(s: seq<Option<Outcome>>): nat
  {
    if s == [] then 0
    else CountUpdated(s[..|s| - 1]) + (if s[|s| - 1].Some? && s[|s| - 1].value.Updated? then 1 else 0)
  }

  /** `c` is a node new since `U0` that carries the name and the path of `n`. */
  ghost predicate FreshCopy(U0: map<NodeId, Option<NodeId>>, U: map<NodeId, Option<NodeId>>, I: map<NodeId, NodeInfo>,
                            c: NodeId, n: NodeInfo)
  {
    c !in U0 && c in U && c in I && I[c].name == n.name && I[c].path == n.path
  }

  /** A visited node has no outcome exactly when its path is `root`. */
  ghost predicate RecordedRoots(ii: map<NodeId, NodeInfo>, order: seq<NodeId>, outcomes: seq<Option<Outcome>>)
  {
    |outcomes| <= |order| &&
    forall k | 0 <= k < |outcomes| :: order[k] in ii && (outcomes[k].None? <==> ii[order[k]].path == RootName)
  }

  /** An added node is a copy, new since `U0`, of the node visited. */
  ghost predicate RecordedFresh(U0: map<NodeId, Option<NodeId>>, U: map<NodeId, Option<NodeId>>, I: map<NodeId, NodeInfo>,
                                ii: map<NodeId, NodeInfo>, order: seq<NodeId>, outcomes: seq<Option<Outcome>>)
  {
    forall k | 0 <= k < |outcomes| && k < |order| && order[k] in ii && outcomes[k].Some? && outcomes[k].value.Added? ::
      FreshCopy(U0, U, I, outcomes[k].value.node, ii[order[k]])
  }

  /** No path the base knew at the start is added. */
  ghost predicate RecordedKnown(P0: map<string, NodeId>, ii: map<NodeId, NodeInfo>, order: seq<NodeId>, outcomes: seq<Option<Outcome>>)
  {
    forall k | 0 <= k < |outcomes| && k < |order| && order[k] in ii && outcomes[k].Some? && Registered(P0, ii[order[k]].path) ::
      !outcomes[k].value.Added?
  }

  /** No two added outcomes name the same node. */
  ghost predicate RecordedDistinct(outcomes: seq<Option<Outcome>>)
  {
    forall j, k | 0 <= j < k < |outcomes| && outcomes[j].Some? && outcomes[k].Some? && outcomes[j].value.Added? && outcomes[k].value.Added? ::
      outcomes[j].value.node != outcomes[k].value.node
  }

  /**
   * The outcomes of the first `|outcomes|` visited nodes, from a base whose
   * parents were `U0` and whose paths were `P0` to one whose parents and
   * attributes are `U` and `I`.
   */
  ghost predicate Recorded(U0: map<NodeId, Option<NodeId>>, P0: map<string, NodeId>,
                           U: map<NodeId, Option<NodeId>>, I: map<NodeId, NodeInfo>,
                           ii: map<NodeId, NodeInfo>, order: seq<NodeId>, outcomes: seq<Option<Outcome>>)
  {
    RecordedRoots(ii, order, outcomes) && RecordedFresh(U0, U, I, ii, order, outcomes) &&
    RecordedKnown(P0, ii, order, outcomes) && RecordedDistinct(outcomes)
  }

  lemma RootsStep(ii: map<NodeId, NodeInfo>, order: seq<NodeId>, outcomes: seq<Option<Outcome>>, x: Option<Outcome>)
    requires RecordedRoots(ii, order, outcomes) && |outcomes| < |order| && order[|outcomes|] in ii
    requires x.None? <==> ii[order[|outcomes|]].path == RootName
    ensures RecordedRoots(ii, order, outcomes + [x])
  {
    var s := outcomes + [x];
    forall k | 0 <= k < |s| ensures order[k] in ii && (s[k].None? <==> ii[order[k]].path == RootName) {
      if k < |outcomes| {
        assert s[k] == outcomes[k];
      }
    }
  }

  lemma FreshStep(U0: map<NodeId, Option<NodeId>>, U1: map<NodeId, Option<NodeId>>, I1: map<NodeId, NodeInfo>,
                  U: map<NodeId, Option<NodeId>>, I: map<NodeId, NodeInfo>,
                  ii: map<NodeId, NodeInfo>, order: seq<NodeId>, outcomes: seq<Option<Outcome>>, x: Option<Outcome>)
    requires RecordedFresh(U0, U1, I1, ii, order, outcomes) && |outcomes| < |order| && order[|outcomes|] in ii
    requires U0.Keys <= U1.Keys && Placed(U1, I1, U, I)
    requires x.Some? && x.value.Added? ==> FreshCopy(U1, U, I, x.value.node, ii[order[|outcomes|]])
    ensures RecordedFresh(U0, U, I, ii, order, outcomes + [x])
  {
    var s := outcomes + [x];
    forall k | 0 <= k < |s| && k < |order| && order[k] in ii && s[k].Some? && s[k].value.Added?
      ensures FreshCopy(U0, U, I, s[k].value.node, ii[order[k]])
    {
      if k < |outcomes| {
        assert s[k] == outcomes[k];
        assert FreshCopy(U0, U1, I1, s[k].value.node, ii[order[k]]);
      }
    }
  }

  lemma KnownStep(P0: map<string, NodeId>, P1: map<string, NodeId>,
                  ii: map<NodeId, NodeInfo>, order: seq<NodeId>, outcomes: seq<Option<Outcome>>, x: Option<Outcome>)
    requires RecordedKnown(P0, ii, order, outcomes) && |outcomes| < |order| && order[|outcomes|] in ii && KeysGrow(P0, P1)
    requires x.Some? && Registered(P1, ii[order[|outcomes|]].path) ==> !x.value.Added?
    ensures RecordedKnown(P0, ii, order, outcomes + [x])
  {
    var s := outcomes + [x];
    forall k | 0 <= k < |s| && k < |order| && order[k] in ii && s[k].Some? && Registered(P0, ii[order[k]].path)
      ensures !s[k].value.Added?
    {
      if k == |outcomes| {
        var path := ii[order[k]].path;
        assert path in P0 ==> path in P1;
        assert NormPath(path) in P0 ==> NormPath(path) in P1;
      } else {
        assert s[k] == outcomes[k];
      }
    }
  }

  lemma DistinctStep(U0: map<NodeId, Option<NodeId>>, U1: map<NodeId, Option<NodeId>>, I1: map<NodeId, NodeInfo>,
                     ii: map<NodeId, NodeInfo>, order: seq<NodeId>, outcomes: seq<Option<Outcome>>, x: Option<Outcome>)
    requires RecordedDistinct(outcomes) && RecordedRoots(ii, order, outcomes) && RecordedFresh(U0, U1, I1, ii, order, outcomes)
    requires x.Some? && x.value.Added? ==> x.value.node !in U1
    ensures RecordedDistinct(outcomes + [x])
  {
    var s := outcomes + [x];
    forall j, k | 0 <= j < k < |s| && s[j].Some? && s[k].Some? && s[j].value.Added? && s[k].value.Added?
      ensures s[j].value.node != s[k].value.node
    {
      assert s[j] == outcomes[j];
      if k == |outcomes| {
        assert FreshCopy(U0, U1, I1, s[j].value.node, ii[order[j]]);
      } else {
        assert s[k] == outcomes[k];
      }
    }
  }

  lemma RecordedStep(U0: map<NodeId, Option<NodeId>>, P0: map<string, NodeId>,
                     U1: map<NodeId, Option<NodeId>>, I1: map<NodeId, NodeInfo>, P1: map<string, NodeId>,
                     U: map<NodeId, Option<NodeId>>, I: map<NodeId, NodeInfo>,
                     ii: map<NodeId, NodeInfo>, order: seq<NodeId>, outcomes: seq<Option<Outcome>>, x: Option<Outcome>)
    requires Recorded(U0, P0, U1, I1, ii, order, outcomes) && |outcomes| < |order| && order[|outcomes|] in ii
    requires U0.Keys <= U1.Keys && KeysGrow(P0, P1) && Placed(U1, I1, U, I)
    requires x.None? <==> ii[order[|outcomes|]].path == RootName
    requires x.Some? && x.value.Added? ==> FreshCopy(U1, U, I, x.value.node, ii[order[|outcomes|]])
    requires x.Some? && Registered(P1, ii[order[|outcomes|]].path) ==> !x.value.Added?
    ensures Recorded(U0, P0, U, I, ii, order, outcomes + [x])
  {
    RootsStep(ii, order, outcomes, x);
    FreshStep(U0, U1, I1, U, I, ii, order, outcomes, x);
    KnownStep(P0, P1, ii, order, outcomes, x);
    DistinctStep(U0, U1, I1, ii, order, outcomes, x);
  }

  /** 1 for an added outcome, else 0. */
  function AddedOne(x: Option<Outcome>): nat
  {
    if x.Some? && x.value.Added? then 1 else 0
  }

  /** 1 for an updated outcome, else 0. */
  function UpdatedOne(x: Option<Outcome>): nat
  {
    if x.Some? && x.value.Updated? then 1 else 0
  }

  /**
   * The state of the traversal of `MergeInto` after `|outcomes|` nodes: the
   * outcomes are recorded, the counts are those of the added and updated
   * outcomes, and the added ones are the `gained` nodes, all new.
   */
  ghost predicate Tally(U0: map<NodeId, Option<NodeId>>, P0: map<string, NodeId>,
                        U: map<NodeId, Option<NodeId>>, I: map<NodeId, NodeInfo>,
                        ii: map<NodeId, NodeInfo>, order: seq<NodeId>, outcomes: seq<Option<Outcome>>,
                        added: nat, updated: nat, gained: set<NodeId>)
  {
    Recorded(U0, P0, U, I, ii, order, outcomes) &&
    added == CountAdded(outcomes) && updated == CountUpdated(outcomes) && added + updated <= |outcomes| &&
    gained <= U.Keys - U0.Keys && |gained| == added
  }

  lemma TallyStep(U0: map<NodeId, Option<NodeId>>, P0: map<string, NodeId>,
                  U1: map<NodeId, Option<NodeId>>, I1: map<NodeId, NodeInfo>, P1: map<string, NodeId>,
                  U: map<NodeId, Option<NodeId>>, I: map<NodeId, NodeInfo>,
                  ii: map<NodeId, NodeInfo>, order: seq<NodeId>, outcomes: seq<Option<Outcome>>,
                  added: nat, updated: nat, gained: set<NodeId>, x: Option<Outcome>)
    requires Tally(U0, P0, U1, I1, ii, order, outcomes, added, updated, gained) && |outcomes| < |order| && order[|outcomes|] in ii
    requires U0.Keys <= U1.Keys && KeysGrow(P0, P1) && Placed(U1, I1, U, I)
    requires x.None? <==> ii[order[|outcomes|]].path == RootName
    requires x.Some? && x.value.Added? ==> FreshCopy(U1, U, I, x.value.node, ii[order[|outcomes|]])
    requires x.Some? && Registered(P1, ii[order[|outcomes|]].path) ==> !x.value.Added?
    ensures Tally(U0, P0, U, I, ii, order, outcomes + [x], added + AddedOne(x), updated + UpdatedOne(x),
                  if x.Some? && x.value.Added? then gained + {x.value.node} else gained)
  {
    RecordedStep(U0, P0, U1, I1, P1, U, I, ii, order, outcomes, x);
    assert (outcomes + [x])[..|outcomes|] == outcomes;
  }

  /** What a finished tally states: the record, the counts, and the added count bounded by the new nodes. */
  lemma TallyDone(U0: map<NodeId, Option<NodeId>>, P0: map<string, NodeId>,
                  U: map<NodeId, Option<NodeId>>, I: map<NodeId, NodeInfo>,
                  ii: map<NodeId, NodeInfo>, order: seq<NodeId>, outcomes: seq<Option<Outcome>>,
                  added: nat, updated: nat, gained: set<NodeId>)
    requires Tally(U0, P0, U, I, ii, order, outcomes, added, updated, gained)
    ensures Recorded(U0, P0, U, I, ii, order, outcomes)
    ensures (added, updated) == (CountAdded(outcomes), CountUpdated(outcomes)) && added + updated <= |outcomes|
    ensures added <= |U.Keys - U0.Keys|
  {
    SubsetSize(gained, U.Keys - U0.Keys);
  }

  /** A set inside another has at most its size. */
  lemma {:induction false} SubsetSize<T>(a: set<T>, b: set<T>)
    requires a <= b
    ensures |a| <= |b|
  {
    assert b == a + (b - a);
  }

  /** The keys new since `a` are those new since `b` and those `b` added to `a`. */
  lemma NewKeysSplit<T>(a: set<T>, b: set<T>, c: set<T>)
    requires a <= b <= c
    ensures |c - a| == |c - b| + |b - a|
  {
    assert c - a == (c - b) + (b - a);
    assert (c - b) * (b - a) == {};
  }

  /**
   * The first `|outcomes|` visits of `order`, with `Ps[k]`, `Is[k]` the
   * path lookup and attributes of the base before visit `k` and
   * `Ps[k + 1]`, `Is[k + 1]` after it: each visit is a `VisitStep` whose
   * outcome is `outcomes[k]`.
   */
  ghost predicate Visits(Ps: seq<map<string, NodeId>>, Is: seq<map<NodeId, NodeInfo>>,
                         ii: map<NodeId, NodeInfo>, order: seq<NodeId>, outcomes: seq<Option<Outcome>>)
    decreases |outcomes|
  {
    |Ps| == |outcomes| + 1 && |Is| == |outcomes| + 1 && |outcomes| <= |order| &&
    (outcomes == [] ||
      var n := |outcomes| - 1;
      order[n] in ii && VisitStep(Ps[n], Is[n], Ps[n + 1], Is[n + 1], ii[order[n]], outcomes[n]) &&
      Visits(Ps[..n + 1], Is[..n + 1], ii, order, outcomes[..n]))
  }

  /** One more visit, from the last snapshot to `P2`, `I2`, extends the record. */
  lemma VisitsStep(Ps: seq<map<string, NodeId>>, Is: seq<map<NodeId, NodeInfo>>,
                   ii: map<NodeId, NodeInfo>, order: seq<NodeId>, outcomes: seq<Option<Outcome>>,
                   P2: map<string, NodeId>, I2: map<NodeId, NodeInfo>, x: Option<Outcome>)
    requires Visits(Ps, Is, ii, order, outcomes) && |outcomes| < |order| && order[|outcomes|] in ii
    requires VisitStep(Ps[|outcomes|], Is[|outcomes|], P2, I2, ii[order[|outcomes|]], x)
    ensures Visits(Ps + [P2], Is + [I2], ii, order, outcomes + [x])
  {
    var n := |outcomes|;
    assert (Ps + [P2])[..n + 1] == Ps && (Is + [I2])[..n + 1] == Is && (outcomes + [x])[..n] == outcomes;
  }

  /**
   * The loop of `_merge_trees` over all of `order`, from the base's path
   * lookup and attributes `P0`, `I0` to `P`, `I`: one `VisitStep` per node.
   */
  ghost predicate Ran(Ps: seq<map<string, NodeId>>, Is: seq<map<NodeId, NodeInfo>>,
                      ii: map<NodeId, NodeInfo>, order: seq<NodeId>, outcomes: seq<Option<Outcome>>,
                      P0: map<string, NodeId>, I0: map<NodeId, NodeInfo>, P: map<string, NodeId>, I: map<NodeId, NodeInfo>)
  {
    |outcomes| == |order| && |Ps| == |order| + 1 && |Is| == |order| + 1 &&
    Visits(Ps, Is, ii, order, outcomes) && Ps[0] == P0 && Is[0] == I0 && Ps[|order|] == P && Is[|order|] == I
  }

  /** The number of the first `|Ps| - 1` visits whose path, not `root`, the base did not know. */
  ghost function UnknownVisits(Ps: seq<map<string, NodeId>>, ii: map<NodeId, NodeInfo>, order: seq<NodeId>): nat
    requires 0 < |Ps| <= |order| + 1 && forall k | 0 <= k < |Ps| - 1 :: order[k] in ii
    decreases |Ps|
  {
    if |Ps| == 1 then 0 else
      var n := |Ps| - 2;
      var path := ii[order[n]].path;
      UnknownVisits(Ps[..n + 1], ii, order) + (if path != RootName && FindMatching(Ps[n], path).None? then 1 else 0)
  }

  /** The number of the first `|Ps| - 1` visits that found a node of the base which `_merge_node` changed. */
  ghost function ChangedVisits(Ps: seq<map<string, NodeId>>, Is: seq<map<NodeId, NodeInfo>>,
                               ii: map<NodeId, NodeInfo>, order: seq<NodeId>): nat
    requires 0 < |Ps| == |Is| <= |order| + 1 && forall k | 0 <= k < |Ps| - 1 :: order[k] in ii
    decreases |Ps|
  {
    if |Ps| == 1 then 0 else
      var n := |Ps| - 2;
      var node := ii[order[n]];
      var m := FindMatching(Ps[n], node.path);
      ChangedVisits(Ps[..n + 1], Is[..n + 1], ii, order) +
        (if node.path != RootName && m.Some? && m.value in Is[n] && MergeNode(Is[n][m.value], node).1 then 1 else 0)
  }

  /**
   * The counts of `_merge_trees` mean what they say: the added count is the
   * number of visited nodes, other than `root`, whose path the base did
   * not know when they were visited, and the updated count the number of
   * those it knew whose node `_merge_node` changed.
   */
  lemma VisitCounts(Ps: seq<map<string, NodeId>>, Is: seq<map<NodeId, NodeInfo>>,
                                       ii: map<NodeId, NodeInfo>, order: seq<NodeId>, outcomes: seq<Option<Outcome>>)
    requires Visits(Ps, Is, ii, order, outcomes)
    ensures forall k | 0 <= k < |outcomes| :: order[k] in ii
    ensures CountAdded(outcomes) == UnknownVisits(Ps, ii, order)
    ensures CountUpdated(outcomes) == ChangedVisits(Ps, Is, ii, order)
  {
    VisitsInOrder(Ps, Is, ii, order, outcomes);
    AddedVisits(Ps, Is, ii, order, outcomes);
    UpdatedVisits(Ps, Is, ii, order, outcomes);
  }

  /** Every visited node is a node of the incoming tree. */
  lemma {:induction false} VisitsInOrder(Ps: seq<map<string, NodeId>>, Is: seq<map<NodeId, NodeInfo>>,
                                         ii: map<NodeId, NodeInfo>, order: seq<NodeId>, outcomes: seq<Option<Outcome>>)
    requires Visits(Ps, Is, ii, order, outcomes)
    ensures forall k | 0 <= k < |outcomes| :: order[k] in ii
    decreases |outcomes|
  {
    if outcomes != [] {
      var n := |outcomes| - 1;
      VisitsInOrder(Ps[..n + 1], Is[..n + 1], ii, order, outcomes[..n]);
    }
  }

  /** The added count of the visits is `UnknownVisits`. */
  lemma {:induction false} AddedVisits(Ps: seq<map<string, NodeId>>, Is: seq<map<NodeId, NodeInfo>>,
                                       ii: map<NodeId, NodeInfo>, order: seq<NodeId>, outcomes: seq<Option<Outcome>>)
    requires Visits(Ps, Is, ii, order, outcomes) && forall k | 0 <= k < |outcomes| :: order[k] in ii
    ensures CountAdded(outcomes) == UnknownVisits(Ps, ii, order)
    decreases |outcomes|
  {
    if outcomes != [] {
      var n := |outcomes| - 1;
      AddedVisits(Ps[..n + 1], Is[..n + 1], ii, order, outcomes[..n]);
      assert outcomes[..n] == outcomes[..|outcomes| - 1];
    }
  }

  /** The updated count of the visits is `ChangedVisits`. */
  lemma {:induction false} UpdatedVisits(Ps: seq<map<string, NodeId>>, Is: seq<map<NodeId, NodeInfo>>,
                                         ii: map<NodeId, NodeInfo>, order: seq<NodeId>, outcomes: seq<Option<Outcome>>)
    requires Visits(Ps, Is, ii, order, outcomes) && forall k | 0 <= k < |outcomes| :: order[k] in ii
    ensures CountUpdated(outcomes) == ChangedVisits(Ps, Is, ii, order)
    decreases |outcomes|
  {
    if outcomes != [] {
      var n := |outcomes| - 1;
      UpdatedVisits(Ps[..n + 1], Is[..n + 1], ii, order, outcomes[..n]);
      assert outcomes[..n] == outcomes[..|outcomes| - 1];
    }
  }

  /**
   * One turn of the loop of `MergeOrder`, at the node `order[i]`: none for
   * a node whose path is `root`, else the outcome of merging it, with the
   * traversal state carried one node further.
   */
  method VisitAt(base: Tree, ii: map<NodeId, NodeInfo>, order: seq<NodeId>, i: nat,
                 ghost U0: map<NodeId, Option<NodeId>>, ghost I0: map<NodeId, NodeInfo>, ghost P0: map<string, NodeId>,
                 ghost outcomes: seq<Option<Outcome>>, added: nat, updated: nat, ghost gained: set<NodeId>)
    returns (r: Result<Option<Outcome>>)
    requires base.Valid() && i < |order| && order[i] in ii && |outcomes| == i
    requires Placed(U0, I0, base.links.up, base.info) && KeysGrow(P0, base.pathLookup) && U0.Keys <= I0.Keys
    requires VisitedKnown(base.pathLookup, ii, order, i)
    requires Tally(U0, P0, base.links.up, base.info, ii, order, outcomes, added, updated, gained)
    modifies base`links, base`info, base`nextId, base`nodeLookup, base`pathLookup
    ensures base.Valid()
    ensures Placed(U0, I0, base.links.up, base.info) && KeysGrow(P0, base.pathLookup)
    ensures r.Ok? ==> VisitedKnown(base.pathLookup, ii, order, i + 1)
    ensures r.Ok? ==> Tally(U0, P0, base.links.up, base.info, ii, order, outcomes + [r.value],
      added + AddedOne(r.value), updated + UpdatedOne(r.value),
      if r.value.Some? && r.value.value.Added? then gained + {r.value.value.node} else gained)
    ensures r.Ok? ==> VisitStep(old(base.pathLookup), old(base.info), base.pathLookup, base.info, ii[order[i]], r.value)
    ensures r.Err? ==> r.error.ValueError?
  {
    var node := ii[order[i]];
    ghost var U1, I1, P1 := base.links.up, base.info, base.pathLookup;
    var x: Option<Outcome> := None;
    if node.path != RootName {
      var step := MergeVisited(base, node);
      if step.Err? {
        PlacedTrans(U0, I0, U1, I1, base.links.up, base.info);
        KeysGrowTrans(P0, P1, base.pathLookup);
        return Err(step.error);
      }
      x := Some(step.value);
    }
    PlacedTrans(U0, I0, U1, I1, base.links.up, base.info);
    KeysGrowTrans(P0, P1, base.pathLookup);
    VisitedGrow(P1, base.pathLookup, ii, order, i);
    TallyStep(U0, P0, U1, I1, P1, base.links.up, base.info, ii, order, outcomes, added, updated, gained, x);
    r := Ok(x);
  }

  /**
   * The loop of `_merge_trees` over the visiting order `order`: every node
   * except those whose path is `root` is merged or added, and `outcomes`
   * records how each ended. On success every such node's path is known to
   * the base, the counts are exactly those of the added and the updated
   * outcomes, and the added count is at most the number of new nodes.
   */
  method MergeOrder(base: Tree, ii: map<NodeId, NodeInfo>, order: seq<NodeId>)
    returns (r: Result<(nat, nat)>, ghost outcomes: seq<Option<Outcome>>,
             ghost Ps: seq<map<string, NodeId>>, ghost Is: seq<map<NodeId, NodeInfo>>)
    requires base.Valid() && forall k | 0 <= k < |order| :: order[k] in ii
    modifies base`links, base`info, base`nextId, base`nodeLookup, base`pathLookup
    ensures base.Valid()
    ensures Placed(old(base.links.up), old(base.info), base.links.up, base.info)
    ensures KeysGrow(old(base.pathLookup), base.pathLookup)
    ensures r.Ok? ==> VisitedKnown(base.pathLookup, ii, order, |order|)
    ensures r.Ok? ==>
      |outcomes| == |order| && r.value.0 + r.value.1 <= |order| &&
      Recorded(old(base.links.up), old(base.pathLookup), base.links.up, base.info, ii, order, outcomes) &&
      r.value == (CountAdded(outcomes), CountUpdated(outcomes)) &&
      r.value.0 <= |base.links.up.Keys - old(base.links.up).Keys|
    ensures r.Ok? ==> Ran(Ps, Is, ii, order, outcomes, old(base.pathLookup), old(base.info), base.pathLookup, base.info)
    ensures r.Err? ==> r.error.ValueError?
  {
    ghost var U0, I0, P0 := base.links.up, base.info, base.pathLookup;
    ghost var gained: set<NodeId> := {};
    outcomes, Ps, Is := [], [P0], [I0];
    var added: nat, updated: nat := 0, 0;
    var i := 0;
    ProgressStart(U0, I0, P0, ii, order);
    while i < |order|
      invariant base.Valid() && Progress(U0, I0, P0, base.links.up, base.info, base.pathLookup, ii, order, i,
                                         outcomes, Ps, Is, added, updated, gained)
    {
      var x;
      x, outcomes, Ps, Is, added, updated, gained := VisitNext(base, ii, order, i, U0, I0, P0, outcomes, Ps, Is, added, updated, gained);
      if x.Err? {
        return Err(x.error), outcomes, Ps, Is;
      }
      i := i + 1;
    }
    ProgressDone(U0, I0, P0, base.links.up, base.info, base.pathLookup, ii, order, outcomes, Ps, Is, added, updated, gained);
    r := Ok((added, updated));
  }

  /** Before the first node nothing is recorded and the base is where it started. */
  lemma ProgressStart(U0: map<NodeId, Option<NodeId>>, I0: map<NodeId, NodeInfo>, P0: map<string, NodeId>,
                      ii: map<NodeId, NodeInfo>, order: seq<NodeId>)
    requires U0.Keys <= I0.Keys && forall k | 0 <= k < |order| :: order[k] in ii
    ensures Progress(U0, I0, P0, U0, I0, P0, ii, order, 0, [], [P0], [I0], 0, 0, {})
  {
  }

  /** What the loop state gives once every node is visited. */
  lemma ProgressDone(U0: map<NodeId, Option<NodeId>>, I0: map<NodeId, NodeInfo>, P0: map<string, NodeId>,
                     U: map<NodeId, Option<NodeId>>, I: map<NodeId, NodeInfo>, P: map<string, NodeId>,
                     ii: map<NodeId, NodeInfo>, order: seq<NodeId>,
                     outcomes: seq<Option<Outcome>>, Ps: seq<map<string, NodeId>>, Is: seq<map<NodeId, NodeInfo>>,
                     added: nat, updated: nat, gained: set<NodeId>)
    requires Progress(U0, I0, P0, U, I, P, ii, order, |order|, outcomes, Ps, Is, added, updated, gained)
    ensures Placed(U0, I0, U, I) && KeysGrow(P0, P) && VisitedKnown(P, ii, order, |order|)
    ensures |outcomes| == |order| && added + updated <= |order|
    ensures Recorded(U0, P0, U, I, ii, order, outcomes)
    ensures (added, updated) == (CountAdded(outcomes), CountUpdated(outcomes)) && added <= |U.Keys - U0.Keys|
    ensures Ran(Ps, Is, ii, order, outcomes, P0, I0, P, I)
  {
    TallyDone(U0, P0, U, I, ii, order, outcomes, added, updated, gained);
  }

  /**
   * The state of the loop of `MergeOrder` after `i` nodes, from a base whose
   * parents, attributes and paths were `U0`, `I0`, `P0` to one where they
   * are `U`, `I`, `P`.
   */
  ghost predicate Progress(U0: map<NodeId, Option<NodeId>>, I0: map<NodeId, NodeInfo>, P0: map<string, NodeId>,
                           U: map<NodeId, Option<NodeId>>, I: map<NodeId, NodeInfo>, P: map<string, NodeId>,
                           ii: map<NodeId, NodeInfo>, order: seq<NodeId>, i: nat,
                           outcomes: seq<Option<Outcome>>, Ps: seq<map<string, NodeId>>, Is: seq<map<NodeId, NodeInfo>>,
                           added: nat, updated: nat, gained: set<NodeId>)
  {
    i <= |order| && U0.Keys <= I0.Keys && (forall k | 0 <= k < |order| :: order[k] in ii) &&
    Placed(U0, I0, U, I) && KeysGrow(P0, P) && VisitedKnown(P, ii, order, i) &&
    |outcomes| == i && Tally(U0, P0, U, I, ii, order, outcomes, added, updated, gained) &&
    |Ps| == i + 1 && |Is| == i + 1 && Visits(Ps, Is, ii, order, outcomes) &&
    Ps[0] == P0 && Is[0] == I0 && Ps[i] == P && Is[i] == I
  }

  /** One turn of the loop of `MergeOrder`: `VisitAt`, with the loop state carried one node further. */
  method VisitNext(base: Tree, ii: map<NodeId, NodeInfo>, order: seq<NodeId>, i: nat,
                   ghost U0: map<NodeId, Option<NodeId>>, ghost I0: map<NodeId, NodeInfo>, ghost P0: map<string, NodeId>,
                   ghost outcomes: seq<Option<Outcome>>, ghost Ps: seq<map<string, NodeId>>, ghost Is: seq<map<NodeId, NodeInfo>>,
                   added: nat, updated: nat, ghost gained: set<NodeId>)
    returns (r: Result<Option<Outcome>>, ghost outcomes': seq<Option<Outcome>>,
             ghost Ps': seq<map<string, NodeId>>, ghost Is': seq<map<NodeId, NodeInfo>>,
             added': nat, updated': nat, ghost gained': set<NodeId>)
    requires base.Valid() && i < |order|
    requires Progress(U0, I0, P0, base.links.up, base.info, base.pathLookup, ii, order, i, outcomes, Ps, Is, added, updated, gained)
    modifies base`links, base`info, base`nextId, base`nodeLookup, base`pathLookup
    ensures base.Valid()
    ensures Placed(U0, I0, base.links.up, base.info) && KeysGrow(P0, base.pathLookup)
    ensures r.Ok? ==> Progress(U0, I0, P0, base.links.up, base.info, base.pathLookup, ii, order, i + 1,
                               outcomes', Ps', Is', added', updated', gained')
    ensures r.Err? ==> r.error.ValueError?
  {
    r := VisitAt(base, ii, order, i, U0, I0, P0, outcomes, added, updated, gained);
    outcomes', Ps', Is', added', updated', gained' := outcomes, Ps, Is, added, updated, gained;
    if r.Ok? {
      VisitsStep(Ps, Is, ii, order, outcomes, base.pathLookup, base.info, r.value);
      Ps', Is' := Ps + [base.pathLookup], Is + [base.info];
      added', updated' := added + AddedOne(r.value), updated + UpdatedOne(r.value);
      gained' := if r.value.Some? && r.value.value.Added? then gained + {r.value.value.node} else gained;
      outcomes' := outcomes + [r.value];
    }
  }


  /**
   * `_merge_trees(base, incoming)` with the incoming tree given by its
   * links, attributes and root: the loop of `MergeOrder` over the
   * `_traverse` order. On success every visited node's path other than
   * `root` is known to the base and the counts cover at most the nodes
   * visited.
   */
  method MergeInto(base: Tree, il: Links, ii: map<NodeId, NodeInfo>, iroot: NodeId)
    returns (r: Result<(nat, nat)>, ghost outcomes: seq<Option<Outcome>>,
             ghost Ps: seq<map<string, NodeId>>, ghost Is: seq<map<NodeId, NodeInfo>>)
    requires base.Valid() && Fits(il, ii) && iroot in il.up
    modifies base`links, base`info, base`nextId, base`nodeLookup, base`pathLookup
    ensures base.Valid()
    ensures Placed(old(base.links.up), old(base.info), base.links.up, base.info)
    ensures KeysGrow(old(base.pathLookup), base.pathLookup)
    ensures r.Ok? ==> r.value.0 + r.value.1 <= |PreOrder(il, iroot)|
    ensures r.Ok? ==> forall x | x in PreOrder(il, iroot) && ii[x].path != RootName :: Registered(base.pathLookup, ii[x].path)
    ensures r.Ok? ==>
      |outcomes| == |Dfs(il, iroot)| &&
      Recorded(old(base.links.up), old(base.pathLookup), base.links.up, base.info, ii, Dfs(il, iroot), outcomes) &&
      r.value == (CountAdded(outcomes), CountUpdated(outcomes)) &&
      r.value.0 <= |base.links.up.Keys - old(base.links.up).Keys|
    ensures r.Ok? ==> Ran(Ps, Is, ii, Dfs(il, iroot), outcomes, old(base.pathLookup), old(base.info), base.pathLookup, base.info)
    ensures r.Err? ==> r.error.ValueError?
  {
    var order := Traverse(il, iroot);
    DfsPerm(il, iroot);
    assert forall x | x in PreOrder(il, iroot) :: x in order by {
      forall x | x in PreOrder(il, iroot) ensures x in order {
        assert x in multiset(PreOrder(il, iroot));
      }
    }
    assert |order| == |PreOrder(il, iroot)| by {
      assert |multiset(order)| == |multiset(PreOrder(il, iroot))|;
    }
    forall k | 0 <= k < |order| ensures order[k] in il.up {
      assert order[k] in multiset(PreOrder(il, iroot));
    }
    r, outcomes, Ps, Is := MergeOrder(base, ii, order);
    if r.Ok? {
      forall x | x in PreOrder(il, iroot) && ii[x].path != RootName ensures Registered(base.pathLookup, ii[x].path) {
        var k :| 0 <= k < |order| && order[k] == x;
      }
    }
  }

  /** `_merge_trees(base, incoming)` on two distinct trees. */
  method MergeTrees(base: Tree, incoming: Tree)
    returns (r: Result<(nat, nat)>, ghost outcomes: seq<Option<Outcome>>,
             ghost Ps: seq<map<string, NodeId>>, ghost Is: seq<map<NodeId, NodeInfo>>)
    requires base.Valid() && incoming.Valid() && base != incoming
    modifies base`links, base`info, base`nextId, base`nodeLookup, base`pathLookup
    ensures base.Valid()
    ensures Placed(old(base.links.up), old(base.info), base.links.up, base.info)
    ensures KeysGrow(old(base.pathLookup), base.pathLookup)
    ensures r.Ok? ==> r.value.0 + r.value.1 <= |PreOrder(incoming.links, incoming.root)|
    ensures r.Ok? ==> forall x | x in PreOrder(incoming.links, incoming.root) && incoming.info[x].path != RootName ::
      Registered(base.pathLookup, incoming.info[x].path)
    ensures r.Ok? ==>
      |outcomes| == |Dfs(incoming.links, incoming.root)| &&
      Recorded(old(base.links.up), old(base.pathLookup), base.links.up, base.info, incoming.info, Dfs(incoming.links, incoming.root), outcomes) &&
      r.value == (CountAdded(outcomes), CountUpdated(outcomes)) &&
      r.value.0 <= |base.links.up.Keys - old(base.links.up).Keys|
    ensures r.Ok? ==> Ran(Ps, Is, incoming.info, Dfs(incoming.links, incoming.root), outcomes,
                          old(base.pathLookup), old(base.info), base.pathLookup, base.info)
    ensures r.Err? ==> r.error.ValueError?
  {
    r, outcomes, Ps, Is := MergeInto(base, incoming.links, incoming.info, incoming.root);
  }

  /** `MergeTrees` as the loop of `Merge` sees it: every key of the incoming tree known, and the added count bounded. */
  method MergeLater(base: Tree, incoming: Tree, ghost keys: seq<Key>) returns (r: Result<(nat, nat)>, ghost run: Run)
    requires base.Valid() && incoming.Valid() && base != incoming
    requires keys == KeysOf(incoming.links, incoming.info, incoming.root)
    modifies base`links, base`info, base`nextId, base`nodeLookup, base`pathLookup
    ensures base.Valid()
    ensures Placed(old(base.links.up), old(base.info), base.links.up, base.info)
    ensures KeysGrow(old(base.pathLookup), base.pathLookup)
    ensures Fits(incoming.links, incoming.info) && incoming.root in incoming.links.up
    ensures r.Ok? ==> Knows(base.pathLookup, keys)
    ensures r.Ok? ==> r.value.0 <= |base.links.up.Keys - old(base.links.up).Keys|
    ensures r.Ok? ==> RunOf(View(incoming.links, incoming.info, incoming.root), run)
    ensures r.Ok? ==> run.Ps[0] == old(base.pathLookup) && run.Is[0] == old(base.info)
    ensures r.Ok? ==> run.Ps[|run.Ps| - 1] == base.pathLookup && run.Is[|run.Is| - 1] == base.info
    ensures r.Ok? ==> r.value.0 == CountAdded(run.outcomes) && r.value.1 == CountUpdated(run.outcomes)
    ensures r.Err? ==> r.error.ValueError?
  {
    ghost var outcomes, Ps, Is;
    r, outcomes, Ps, Is := MergeTrees(base, incoming);
    run := Run(Ps, Is, outcomes);
    if r.Ok? {
      KnowsRegistered(base.pathLookup, View(incoming.links, incoming.info, incoming.root));
    }
  }

  /** A path with its normal form: a lookup knows the path when it holds either. */
  type Key = (string, string)

  /** The keys of the nodes of `order`, in that order. */
  ghost function KeySeq(info: map<NodeId, NodeInfo>, order: seq<NodeId>): (r: seq<Key>)
    requires forall k | 0 <= k < |order| :: order[k] in info
    ensures |r| == |order|
  {
    if order == [] then [] else
      var path := info[order[|order| - 1]].path;
      KeySeq(info, order[..|order| - 1]) + [(path, NormPath(path))]
  }

  lemma {:induction false} KeySeqAt(info: map<NodeId, NodeInfo>, order: seq<NodeId>, k: nat)
    requires forall k | 0 <= k < |order| :: order[k] in info
    requires k < |order|
    ensures KeySeq(info, order)[k] == (info[order[k]].path, NormPath(info[order[k]].path))
    decreases |order|
  {
    if k < |order| - 1 {
      var front := order[..|order| - 1];
      KeySeqAt(info, front, k);
      assert front[k] == order[k];
    }
  }

  /** The keys of the nodes reachable from `root` in the tree `l`, `info`, in pre-order. */
  ghost function KeysOf(l: Links, info: map<NodeId, NodeInfo>, root: NodeId): seq<Key>
    requires Fits(l, info) && root in l.up
  {
    KeySeq(info, PreOrder(l, root))
  }

  /** The keys of the tree a view holds. */
  ghost function ViewKeys(v: View): seq<Key>
    requires ViewFits(v)
  {
    KeysOf(v.links, v.info, v.root)
  }

  /** The lookup `P` knows every key of `keys` but the root's, by its path or by its normal form. */
  ghost predicate Knows(P: map<string, NodeId>, keys: seq<Key>)
    decreases |keys|
  {
    keys == [] ||
      (var key := keys[|keys| - 1];
       (key.0 != RootName ==> key.0 in P || key.1 in P) && Knows(P, keys[..|keys| - 1]))
  }

  /** `Knows`, key by key. */
  lemma {:induction false} KnowsAt(P: map<string, NodeId>, keys: seq<Key>)
    ensures Knows(P, keys) <==> forall j | 0 <= j < |keys| && keys[j].0 != RootName :: keys[j].0 in P || keys[j].1 in P
    decreases |keys|
  {
    if keys != [] {
      var front := keys[..|keys| - 1];
      KnowsAt(P, front);
      assert forall j | 0 <= j < |front| :: front[j] == keys[j];
    }
  }

  /** Knowing the keys of a view is `Registered` for the path of each of its nodes but the root. */
  lemma KnowsRegistered(P: map<string, NodeId>, v: View)
    requires ViewFits(v)
    ensures Knows(P, ViewKeys(v)) <==>
      forall x | x in PreOrder(v.links, v.root) && v.info[x].path != RootName :: Registered(P, v.info[x].path)
  {
    var order := PreOrder(v.links, v.root);
    var keys := ViewKeys(v);
    KnowsAt(P, keys);
    forall j | 0 <= j < |order| ensures keys[j] == (v.info[order[j]].path, NormPath(v.info[order[j]].path)) {
      KeySeqAt(v.info, order, j);
    }
    if Knows(P, keys) {
      forall x | x in order && v.info[x].path != RootName ensures Registered(P, v.info[x].path) {
        var j :| 0 <= j < |order| && order[j] == x;
        assert keys[j].0 != RootName;
      }
    }
  }

  /** The links, attributes and root of a tree at one moment. */
  datatype View = View(links: Links, info: map<NodeId, NodeInfo>, root: NodeId)

  ghost function ViewOf(t: Tree): View
    reads t
  {
    View(t.links, t.info, t.root)
  }

  ghost predicate ViewFits(v: View)
  {
    Fits(v.links, v.info) && v.root in v.links.up
  }

  /**
   * The views of the trees of sources 1 onward, none for the first source
   * and for a source without a tree, with the keys of each (none without
   * a view).
   */
  ghost method TakeViews(sources: seq<Option<Tree>>) returns (views: seq<Option<View>>, keys: seq<seq<Key>>)
    requires forall k | 0 <= k < |sources| && sources[k].Some? :: sources[k].value.Valid()
    ensures |views| == |sources| == |keys|
    ensures forall k | 0 <= k < |sources| :: views[k] == if k >= 1 && sources[k].Some? then Some(ViewOf(sources[k].value)) else None
    ensures forall k | 0 <= k < |sources| :: ViewKnown(views[k], keys[k])
  {
    views, keys := [], [];
    while |views| < |sources|
      invariant |views| <= |sources| && |keys| == |views|
      invariant forall k | 0 <= k < |views| :: views[k] == if k >= 1 && sources[k].Some? then Some(ViewOf(sources[k].value)) else None
      invariant forall k | 0 <= k < |views| :: ViewKnown(views[k], keys[k])
    {
      views, keys := TakeView(sources, views, keys);
    }
  }

  /** One more view and its keys, for source `|views|`. */
  ghost method TakeView(sources: seq<Option<Tree>>, views: seq<Option<View>>, keys: seq<seq<Key>>)
    returns (views': seq<Option<View>>, keys': seq<seq<Key>>)
    requires |views| < |sources| && |keys| == |views|
    requires forall k | 0 <= k < |sources| && sources[k].Some? :: sources[k].value.Valid()
    requires forall k | 0 <= k < |views| :: views[k] == if k >= 1 && sources[k].Some? then Some(ViewOf(sources[k].value)) else None
    requires forall k | 0 <= k < |views| :: ViewKnown(views[k], keys[k])
    ensures |views'| == |views| + 1 && |keys'| == |views'|
    ensures forall k | 0 <= k < |views'| :: views'[k] == if k >= 1 && sources[k].Some? then Some(ViewOf(sources[k].value)) else None
    ensures forall k | 0 <= k < |views'| :: ViewKnown(views'[k], keys'[k])
  {
    var k := |views|;
    var v := if k >= 1 && sources[k].Some? then Some(ViewOf(sources[k].value)) else None;
    views', keys' := views + [v], keys + [if v.Some? then ViewKeys(v.value) else []];
  }

  /** A view fits and its keys are `keys`; no view has no keys. */
  ghost predicate ViewKnown(v: Option<View>, keys: seq<Key>)
  {
    if v.Some? then ViewFits(v.value) && keys == ViewKeys(v.value) else keys == []
  }

  /**
   * One turn of the loop of `merge`, at source `i`: a source without a tree
   * is skipped; otherwise its tree is merged into the base, which then
   * knows the keys of that source as well as those of the sources before
   * it, and the counts of the turn are returned.
   */
  method MergeSourceAt(sources: seq<Option<Tree>>, i: nat, base: Tree, ghost keys: seq<seq<Key>>,
                       ghost U0: map<NodeId, Option<NodeId>>, ghost I0: map<NodeId, NodeInfo>, ghost P0: map<string, NodeId>,
                       ghost views: seq<Option<View>>, ghost runs: seq<Run>, ghost added: nat, ghost updated: nat)
    returns (r: Result<(nat, nat)>, ghost runs': seq<Run>)
    requires 1 <= i < |sources| == |keys| == |views| && base.Valid()
    requires views[i] == (if sources[i].Some? then Some(ViewOf(sources[i].value)) else None) && ViewKnown(views[i], keys[i])
    requires sources[i].Some? ==> sources[i].value != base && sources[i].value.Valid()
    requires MergeProgress(U0, I0, P0, base.links.up, base.info, base.pathLookup, views, keys, i, runs, added, updated)
    modifies base`links, base`info, base`nextId, base`nodeLookup, base`pathLookup
    ensures base.Valid()
    ensures r.Ok? ==>
      MergeProgress(U0, I0, P0, base.links.up, base.info, base.pathLookup, views, keys, i + 1, runs',
                    added + r.value.0, updated + r.value.1)
    ensures sources[i].None? ==> r == Ok((0, 0)) && unchanged(base)
    ensures r.Err? ==> r.error.ValueError?
  {
    if sources[i].None? {
      SkipSource(U0, I0, P0, base.links.up, base.info, base.pathLookup, views, keys, i, runs, added, updated);
      return Ok((0, 0)), runs + [Run([base.pathLookup], [base.info], [])];
    }
    ghost var U1, I1, P1 := base.links.up, base.info, base.pathLookup;
    ghost var run;
    r, run := MergeLater(base, sources[i].value, keys[i]);
    runs' := runs + [run];
    if r.Ok? {
      SourceMerged(U0, I0, P0, U1, I1, P1, base.links.up, base.info, base.pathLookup, views, keys, i, runs, run,
                   added, updated, r.value.0, r.value.1);
    }
  }

  /** The loop state moves past source `i` once its run is done and its keys are known. */
  lemma SourceMerged(U0: map<NodeId, Option<NodeId>>, I0: map<NodeId, NodeInfo>, P0: map<string, NodeId>,
                     U1: map<NodeId, Option<NodeId>>, I1: map<NodeId, NodeInfo>, P1: map<string, NodeId>,
                     U: map<NodeId, Option<NodeId>>, I: map<NodeId, NodeInfo>, P: map<string, NodeId>,
                     views: seq<Option<View>>, keys: seq<seq<Key>>, i: nat, runs: seq<Run>, run: Run,
                     added: nat, updated: nat, a: nat, u: nat)
    requires i < |views| == |keys| && views[i].Some? && RunOf(views[i].value, run) && Knows(P, keys[i])
    requires MergeProgress(U0, I0, P0, U1, I1, P1, views, keys, i, runs, added, updated)
    requires Placed(U1, I1, U, I) && KeysGrow(P1, P) && a <= |U.Keys - U1.Keys|
    requires run.Ps[0] == P1 && run.Is[0] == I1 && run.Ps[|run.Ps| - 1] == P && run.Is[|run.Is| - 1] == I
    requires a == CountAdded(run.outcomes) && u == CountUpdated(run.outcomes)
    ensures MergeProgress(U0, I0, P0, U, I, P, views, keys, i + 1, runs + [run], added + a, updated + u)
  {
    PlacedTrans(U0, I0, U1, I1, U, I);
    KeysGrowTrans(P0, P1, P);
    NewKeysSplit(U0.Keys, U1.Keys, U.Keys);
    KnowsUpToStep(P1, P, keys, i);
    RunsSnoc(views, runs, run, P0, I0, P1, I1, P, I);
  }

  /**
   * The state of the loop of `merge` before source `j`: the base went from
   * `U0`, `I0`, `P0` to `U`, `I`, `P` by the runs of the sources before
   * `j`, keeping every node in place and every path filed, knowing the keys
   * of those sources, with `added` and `updated` the totals of the runs.
   */
  ghost predicate MergeProgress(U0: map<NodeId, Option<NodeId>>, I0: map<NodeId, NodeInfo>, P0: map<string, NodeId>,
                                U: map<NodeId, Option<NodeId>>, I: map<NodeId, NodeInfo>, P: map<string, NodeId>,
                                views: seq<Option<View>>, keys: seq<seq<Key>>, j: nat, runs: seq<Run>, added: nat, updated: nat)
  {
    Placed(U0, I0, U, I) && KeysGrow(P0, P) && added <= |U.Keys - U0.Keys| && KnowsUpTo(P, keys, j) &&
    |runs| == j && RunsOf(views, runs, P0, I0, P, I) && added == AddedTotal(runs) && updated == UpdatedTotal(runs)
  }

  /** The loop of `merge` starts with the runs of the sources it skipped, which changed nothing. */
  lemma MergeStart(U: map<NodeId, Option<NodeId>>, I: map<NodeId, NodeInfo>, P: map<string, NodeId>,
                   views: seq<Option<View>>, keys: seq<seq<Key>>, j: nat, runs: seq<Run>)
    requires U.Keys <= I.Keys && KnowsUpTo(P, keys, j) && |runs| == j && RunsOf(views, runs, P, I, P, I)
    requires AddedTotal(runs) == 0 && UpdatedTotal(runs) == 0
    ensures MergeProgress(U, I, P, U, I, P, views, keys, j, runs, 0, 0)
  {
    assert U.Keys - U.Keys == {};
  }

  /** A source without a tree: its run changes nothing, and it has no keys to know. */
  lemma SkipSource(U0: map<NodeId, Option<NodeId>>, I0: map<NodeId, NodeInfo>, P0: map<string, NodeId>,
                   U: map<NodeId, Option<NodeId>>, I: map<NodeId, NodeInfo>, P: map<string, NodeId>,
                   views: seq<Option<View>>, keys: seq<seq<Key>>, j: nat, runs: seq<Run>, added: nat, updated: nat)
    requires j < |views| == |keys| && views[j].None? && keys[j] == []
    requires MergeProgress(U0, I0, P0, U, I, P, views, keys, j, runs, added, updated)
    ensures MergeProgress(U0, I0, P0, U, I, P, views, keys, j + 1, runs + [Run([P], [I], [])], added, updated)
  {
    KnowsUpToStep(P, P, keys, j);
    RunsSnoc(views, runs, Run([P], [I], []), P0, I0, P, I, P, I);
  }

  /** The lookup knows the keys of every source from 1 up to, but not including, `i`. */
  ghost predicate KnowsUpTo(P: map<string, NodeId>, keys: seq<seq<Key>>, i: nat)
  {
    forall k | 1 <= k < i && k < |keys| :: Knows(P, keys[k])
  }

  /** What the lookup knew stays known as it gains keys, and it now knows the keys of source `i` too. */
  lemma KnowsUpToStep(P1: map<string, NodeId>, P: map<string, NodeId>, keys: seq<seq<Key>>, i: nat)
    requires i < |keys| && KeysGrow(P1, P) && KnowsUpTo(P1, keys, i) && Knows(P, keys[i])
    ensures KnowsUpTo(P, keys, i + 1)
  {
    forall k | 1 <= k < i + 1 && k < |keys| ensures Knows(P, keys[k]) {
      if k < i {
        KnownGrow(P1, P, keys[k]);
      }
    }
  }

  /**
   * What merging one source did to the base: the lookups and attributes
   * before and after each node of its tree, and the outcome of each node.
   */
  datatype Run = Run(Ps: seq<map<string, NodeId>>, Is: seq<map<NodeId, NodeInfo>>, outcomes: seq<Option<Outcome>>)

  /**
   * The run of merging the tree of `v` in `_traverse` order, from the
   * lookup and attributes it starts with to those it ends with.
   */
  ghost predicate RunOf(v: View, run: Run)
  {
    ViewFits(v) && |run.Ps| > 0 && |run.Is| > 0 &&
    Ran(run.Ps, run.Is, v.info, Dfs(v.links, v.root), run.outcomes,
        run.Ps[0], run.Is[0], run.Ps[|run.Ps| - 1], run.Is[|run.Is| - 1])
  }

  /** The run of one source: `RunOf` its view, or, for a source without a tree, nothing visited. */
  ghost predicate StepRun(v: Option<View>, run: Run)
  {
    if v.Some? then RunOf(v.value, run) else |run.Ps| == 1 && |run.Is| == 1 && run.outcomes == []
  }

  /** The runs follow one another, from `P0`, `I0` to `P`, `I`: each starts where the one before it ends. */
  ghost predicate Chained(runs: seq<Run>,
                          P0: map<string, NodeId>, I0: map<NodeId, NodeInfo>, P: map<string, NodeId>, I: map<NodeId, NodeInfo>)
    decreases |runs|
  {
    if runs == [] then P == P0 && I == I0 else
      var run := runs[|runs| - 1];
      |run.Ps| > 0 && |run.Is| > 0 &&
      Chained(runs[..|runs| - 1], P0, I0, run.Ps[0], run.Is[0]) &&
      P == run.Ps[|run.Ps| - 1] && I == run.Is[|run.Is| - 1]
  }

  /** `runs[k]` is the run of source `k`, for each `k` in turn, taking the base from `P0`, `I0` to `P`, `I`. */
  ghost predicate RunsOf(views: seq<Option<View>>, runs: seq<Run>,
                         P0: map<string, NodeId>, I0: map<NodeId, NodeInfo>, P: map<string, NodeId>, I: map<NodeId, NodeInfo>)
  {
    |runs| <= |views| && Chained(runs, P0, I0, P, I) &&
    forall k {:trigger StepRun(views[k], runs[k])} | 0 <= k < |runs| :: StepRun(views[k], runs[k])
  }

  /**
   * What `merge` leaves in its base, from links `U0`, attributes `I0` and
   * lookup `P0` to `U`, `I`, `P`: one run per source, chained; every node
   * kept in place; every path the base knew still filed; every path of
   * every later view known.
   */
  ghost predicate MergedAll(views: seq<Option<View>>, runs: seq<Run>,
                            U0: map<NodeId, Option<NodeId>>, I0: map<NodeId, NodeInfo>, P0: map<string, NodeId>,
                            U: map<NodeId, Option<NodeId>>, I: map<NodeId, NodeInfo>, P: map<string, NodeId>)
  {
    |runs| == |views| && RunsOf(views, runs, P0, I0, P, I) && Placed(U0, I0, U, I) && KeysGrow(P0, P) &&
    forall k | 1 <= k < |views| && views[k].Some? :: ViewFits(views[k].value) && Knows(P, ViewKeys(views[k].value))
  }

  /** `MergedAll`, with `added` and `updated` the totals of the runs and the added nodes at most the nodes gained. */
  ghost predicate Merged(views: seq<Option<View>>, runs: seq<Run>,
                         U0: map<NodeId, Option<NodeId>>, I0: map<NodeId, NodeInfo>, P0: map<string, NodeId>,
                         U: map<NodeId, Option<NodeId>>, I: map<NodeId, NodeInfo>, P: map<string, NodeId>,
                         added: nat, updated: nat)
  {
    MergedAll(views, runs, U0, I0, P0, U, I, P) &&
    added == AddedTotal(runs) && updated == UpdatedTotal(runs) && added <= |U.Keys - U0.Keys|
  }

  /** The loop of `merge`, once past the last source, has merged them all. */
  lemma ProgressMerged(U0: map<NodeId, Option<NodeId>>, I0: map<NodeId, NodeInfo>, P0: map<string, NodeId>,
                       U: map<NodeId, Option<NodeId>>, I: map<NodeId, NodeInfo>, P: map<string, NodeId>,
                       views: seq<Option<View>>, keys: seq<seq<Key>>, runs: seq<Run>, added: nat, updated: nat)
    requires |views| == |keys| && forall k | 0 <= k < |views| :: ViewKnown(views[k], keys[k])
    requires MergeProgress(U0, I0, P0, U, I, P, views, keys, |keys|, runs, added, updated)
    ensures Merged(views, runs, U0, I0, P0, U, I, P, added, updated)
  {
    KnownViews(P, views, keys);
  }

  /** No source after the first has a tree: nothing is merged, and the base is as it was. */
  lemma IdleMerged(views: seq<Option<View>>, U: map<NodeId, Option<NodeId>>, I: map<NodeId, NodeInfo>, P: map<string, NodeId>)
    requires U.Keys <= I.Keys && forall k | 0 <= k < |views| :: views[k].None?
    ensures Merged(views, Idle(|views|, P, I), U, I, P, U, I, P, 0, 0)
  {
    IdleRuns(views, |views|, P, I);
    assert U.Keys - U.Keys == {};
  }

  /** Every path of every later view is `Registered` in a merged base. */
  lemma MergedRegistered(views: seq<Option<View>>, runs: seq<Run>,
                         U0: map<NodeId, Option<NodeId>>, I0: map<NodeId, NodeInfo>, P0: map<string, NodeId>,
                         U: map<NodeId, Option<NodeId>>, I: map<NodeId, NodeInfo>, P: map<string, NodeId>, k: nat)
    requires MergedAll(views, runs, U0, I0, P0, U, I, P) && 1 <= k < |views| && views[k].Some?
    ensures var v := views[k].value;
      ViewFits(v) && forall x | x in PreOrder(v.links, v.root) && v.info[x].path != RootName :: Registered(P, v.info[x].path)
  {
    KnowsRegistered(P, views[k].value);
  }

  /** The nodes added over all the runs. */
  function AddedTotal(runs: seq<Run>): nat
  {
    if runs == [] then 0 else AddedTotal(runs[..|runs| - 1]) + CountAdded(runs[|runs| - 1].outcomes)
  }

  /** The nodes updated over all the runs. */
  function UpdatedTotal(runs: seq<Run>): nat
  {
    if runs == [] then 0 else UpdatedTotal(runs[..|runs| - 1]) + CountUpdated(runs[|runs| - 1].outcomes)
  }

  /** One more source run after the others: the chain grows by it and the totals by its counts. */
  lemma RunsSnoc(views: seq<Option<View>>, runs: seq<Run>, run: Run,
                 P0: map<string, NodeId>, I0: map<NodeId, NodeInfo>, P1: map<string, NodeId>, I1: map<NodeId, NodeInfo>,
                 P: map<string, NodeId>, I: map<NodeId, NodeInfo>)
    requires |runs| < |views| && RunsOf(views, runs, P0, I0, P1, I1) && StepRun(views[|runs|], run)
    requires |run.Ps| > 0 && |run.Is| > 0 && run.Ps[0] == P1 && run.Is[0] == I1
    requires run.Ps[|run.Ps| - 1] == P && run.Is[|run.Is| - 1] == I
    ensures RunsOf(views, runs + [run], P0, I0, P, I)
    ensures AddedTotal(runs + [run]) == AddedTotal(runs) + CountAdded(run.outcomes)
    ensures UpdatedTotal(runs + [run]) == UpdatedTotal(runs) + CountUpdated(run.outcomes)
  {
    ChainedSnoc(runs, run, P0, I0, P1, I1, P, I);
    StepsSnoc(views, runs, run);
    assert (runs + [run])[..|runs|] == runs;
  }

  /** The chain of runs grows by a run that starts where it ended. */
  lemma ChainedSnoc(runs: seq<Run>, run: Run,
                    P0: map<string, NodeId>, I0: map<NodeId, NodeInfo>, P1: map<string, NodeId>, I1: map<NodeId, NodeInfo>,
                    P: map<string, NodeId>, I: map<NodeId, NodeInfo>)
    requires Chained(runs, P0, I0, P1, I1)
    requires |run.Ps| > 0 && |run.Is| > 0 && run.Ps[0] == P1 && run.Is[0] == I1
    requires run.Ps[|run.Ps| - 1] == P && run.Is[|run.Is| - 1] == I
    ensures Chained(runs + [run], P0, I0, P, I)
  {
    assert (runs + [run])[..|runs|] == runs;
  }

  /** Each run is the run of its source, once more for the run after the others. */
  lemma StepsSnoc(views: seq<Option<View>>, runs: seq<Run>, run: Run)
    requires |runs| < |views| && StepRun(views[|runs|], run)
    requires forall k {:trigger StepRun(views[k], runs[k])} | 0 <= k < |runs| :: StepRun(views[k], runs[k])
    ensures forall k {:trigger StepRun(views[k], (runs + [run])[k])} | 0 <= k < |runs| + 1 :: StepRun(views[k], (runs + [run])[k])
  {
    var runs' := runs + [run];
    forall k | 0 <= k < |runs'| ensures StepRun(views[k], runs'[k]) {
      if k < |runs| {
        assert runs'[k] == runs[k];
      } else {
        assert runs'[k] == run;
      }
    }
  }

  /** The runs of `n` sources without a tree, starting from `P`, `I`. */
  function Idle(n: nat, P: map<string, NodeId>, I: map<NodeId, NodeInfo>): (r: seq<Run>)
    ensures |r| == n && forall k | 0 <= k < n :: r[k] == Run([P], [I], [])
  {
    seq(n, _ => Run([P], [I], []))
  }

  /** Sources without a tree leave the base as it was, with nothing added or updated. */
  lemma {:induction false} IdleRuns(views: seq<Option<View>>, n: nat, P: map<string, NodeId>, I: map<NodeId, NodeInfo>)
    requires n <= |views| && forall k | 0 <= k < n :: views[k].None?
    ensures RunsOf(views, Idle(n, P, I), P, I, P, I)
    ensures AddedTotal(Idle(n, P, I)) == 0 && UpdatedTotal(Idle(n, P, I)) == 0
  {
    if n > 0 {
      IdleRuns(views, n - 1, P, I);
      assert Idle(n, P, I) == Idle(n - 1, P, I) + [Run([P], [I], [])];
      RunsSnoc(views, Idle(n - 1, P, I), Run([P], [I], []), P, I, P, I, P, I);
    }
  }

  /** `MergeResult`: the merged tree, the warnings and the counts of added and updated nodes. */
  datatype MergeResult = MergeResult(tree: Tree, warnings: seq<string>, addedNodes: nat, updatedNodes: nat)

  /**
   * `TreeMerger().merge(sources)`, each source given by its tree or None:
   * a `ValueError` for no sources or a first source without a tree;
   * otherwise every later tree is merged into the first, which is returned,
   * knowing every path of every later tree; the added count is at most the
   * number of nodes it gained. Nothing appends a warning, so the list is
   * always empty.
   */
  method Merge(sources: seq<Option<Tree>>) returns (r: Result<MergeResult>, ghost views: seq<Option<View>>, ghost runs: seq<Run>)
    requires forall k | 0 <= k < |sources| && sources[k].Some? :: sources[k].value.Valid()
    requires |sources| > 0 && sources[0].Some? ==>
      forall k | 1 <= k < |sources| && sources[k].Some? :: sources[k].value != sources[0].value
    modifies if |sources| > 0 && sources[0].Some? then {sources[0].value} else {}
    ensures |sources| == 0 || sources[0].None? ==> r.Err? && r.error.ValueError?
    ensures r.Ok? ==>
      |sources| > 0 && sources[0].Some? && r.value.tree == sources[0].value && r.value.tree.Valid() && r.value.warnings == []
    ensures r.Ok? ==> |views| == |sources| && forall k | 0 <= k < |sources| :: views[k] == if k >= 1 && sources[k].Some? then Some(old(ViewOf(sources[k].value))) else None
    ensures r.Ok? ==>
      var t := r.value.tree;
      Merged(views, runs, old(t.links.up), old(t.info), old(t.pathLookup), t.links.up, t.info, t.pathLookup,
             r.value.addedNodes, r.value.updatedNodes)
    ensures |sources| > 0 && sources[0].Some? && (forall k | 1 <= k < |sources| :: sources[k].None?) ==>
      r.Ok? && unchanged(sources[0].value) && r.value.addedNodes == 0 && r.value.updatedNodes == 0
    ensures r.Err? ==> r.error.ValueError?
  {
    views, runs := [], [];
    if |sources| == 0 {
      r := Err(ValueError("No sources provided for merge"));
      return;
    }
    if sources[0].None? {
      r := Err(ValueError("First source has no tree to merge"));
      return;
    }
    var base := sources[0].value;
    var counts;
    counts, views, runs := MergeRest(sources, base);
    if counts.Err? {
      r := Err(counts.error);
      return;
    }
    r := Ok(MergeResult(base, [], counts.value.0, counts.value.1));
  }

  /** The loop of `merge` over sources 1 onward, merging each tree into `base`, with the added and updated counts. */
  method MergeRest(sources: seq<Option<Tree>>, base: Tree)
    returns (r: Result<(nat, nat)>, ghost views: seq<Option<View>>, ghost runs: seq<Run>)
    requires |sources| > 0 && sources[0] == Some(base)
    requires forall k | 0 <= k < |sources| && sources[k].Some? :: sources[k].value.Valid()
    requires forall k | 1 <= k < |sources| && sources[k].Some? :: sources[k].value != base
    modifies base`links, base`info, base`nextId, base`nodeLookup, base`pathLookup
    ensures base.Valid()
    ensures |views| == |sources| && forall k | 0 <= k < |sources| :: views[k] == if k >= 1 && sources[k].Some? then Some(old(ViewOf(sources[k].value))) else None
    ensures r.Ok? ==>
      Merged(views, runs, old(base.links.up), old(base.info), old(base.pathLookup), base.links.up, base.info, base.pathLookup,
             r.value.0, r.value.1)
    ensures (forall k | 1 <= k < |sources| :: sources[k].None?) ==> r == Ok((0, 0)) && unchanged(base)
    ensures r.Err? ==> r.error.ValueError?
  {
    ghost var keys;
    views, keys := TakeViews(sources);
    var i := 1;
    while i < |sources| && sources[i].None?
      invariant 1 <= i <= |sources| && forall k | 1 <= k < i :: sources[k].None?
      modifies {}
    {
      i := i + 1;
    }
    if i == |sources| {
      IdleMerged(views, base.links.up, base.info, base.pathLookup);
      runs := Idle(i, base.pathLookup, base.info);
      r := Ok((0, 0));
      return;
    }
    r, runs := MergeFrom(sources, base, i, views, keys);
  }

  /**
   * The loop of `merge` from source `i`, the first after the base with a
   * tree: every later tree is merged into the base, which then knows the
   * keys of each.
   */
  method MergeFrom(sources: seq<Option<Tree>>, base: Tree, i: nat, ghost views: seq<Option<View>>, ghost keys: seq<seq<Key>>)
    returns (r: Result<(nat, nat)>, ghost runs: seq<Run>)
    requires 1 <= i < |sources| == |views| == |keys| && sources[0] == Some(base) && sources[i].Some?
    requires forall k | 0 <= k < |sources| :: views[k] == if k >= 1 && sources[k].Some? then Some(ViewOf(sources[k].value)) else None
    requires forall k | 0 <= k < |sources| :: ViewKnown(views[k], keys[k])
    requires forall k | 0 <= k < |sources| && sources[k].Some? :: sources[k].value.Valid()
    requires forall k | 1 <= k < |sources| && sources[k].Some? :: sources[k].value != base
    requires forall k | 1 <= k < i :: sources[k].None?
    modifies base`links, base`info, base`nextId, base`nodeLookup, base`pathLookup
    ensures base.Valid()
    ensures r.Ok? ==>
      Merged(views, runs, old(base.links.up), old(base.info), old(base.pathLookup), base.links.up, base.info, base.pathLookup,
             r.value.0, r.value.1)
    ensures r.Err? ==> r.error.ValueError?
  {
    ghost var U0, I0, P0 := base.links.up, base.info, base.pathLookup;
    IdleRuns(views, i, base.pathLookup, base.info);
    forall k | 1 <= k < i && k < |keys| ensures Knows(base.pathLookup, keys[k]) {
      assert ViewKnown(views[k], keys[k]);
    }
    r, runs := MergeLoop(sources, base, i, views, keys, Idle(i, base.pathLookup, base.info));
    if r.Ok? {
      ProgressMerged(U0, I0, P0, base.links.up, base.info, base.pathLookup, views, keys, runs, r.value.0, r.value.1);
    }
  }

  /** The loop of `merge` from source `i` on, knowing the keys of the sources before it. */
  method MergeLoop(sources: seq<Option<Tree>>, base: Tree, i: nat, ghost views: seq<Option<View>>, ghost keys: seq<seq<Key>>,
                   ghost runs0: seq<Run>)
    returns (r: Result<(nat, nat)>, ghost runs: seq<Run>)
    requires 1 <= i < |sources| == |views| == |keys| && sources[i].Some?
    requires forall k | 0 <= k < |sources| && sources[k].Some? :: sources[k].value.Valid()
    requires forall k | 1 <= k < |sources| && sources[k].Some? :: sources[k].value != base
    requires forall k | 0 <= k < |sources| :: views[k] == if k >= 1 && sources[k].Some? then Some(ViewOf(sources[k].value)) else None
    requires forall k | 0 <= k < |sources| :: ViewKnown(views[k], keys[k])
    requires base.Valid() && KnowsUpTo(base.pathLookup, keys, i)
    requires |runs0| == i && RunsOf(views, runs0, base.pathLookup, base.info, base.pathLookup, base.info)
    requires AddedTotal(runs0) == 0 && UpdatedTotal(runs0) == 0
    modifies base`links, base`info, base`nextId, base`nodeLookup, base`pathLookup
    ensures base.Valid()
    ensures r.Ok? ==>
      MergeProgress(old(base.links.up), old(base.info), old(base.pathLookup), base.links.up, base.info, base.pathLookup,
                    views, keys, |keys|, runs, r.value.0, r.value.1)
    ensures r.Err? ==> r.error.ValueError?
  {
    ghost var U0, I0, P0 := base.links.up, base.info, base.pathLookup;
    var added: nat, updated: nat := 0, 0;
    runs := runs0;
    MergeStart(U0, I0, P0, views, keys, i, runs);
    var j := i;
    while j < |sources|
      invariant i <= j <= |sources| && base.Valid()
      invariant MergeProgress(U0, I0, P0, base.links.up, base.info, base.pathLookup, views, keys, j, runs, added, updated)
    {
      var step;
      step, runs := MergeSourceAt(sources, j, base, keys, U0, I0, P0, views, runs, added, updated);
      if step.Err? {
        r := Err(step.error);
        return;
      }
      added, updated := added + step.value.0, updated + step.value.1;
      j := j + 1;
    }
    r := Ok((added, updated));
  }

  /** Once every later entry of `keys` is known, so is every path of every view but the first. */
  lemma KnownViews(P: map<string, NodeId>, views: seq<Option<View>>, keys: seq<seq<Key>>)
    requires |views| == |keys| && forall k | 0 <= k < |views| :: ViewKnown(views[k], keys[k])
    requires KnowsUpTo(P, keys, |keys|)
    ensures forall k | 1 <= k < |views| && views[k].Some? :: ViewFits(views[k].value) && Knows(P, ViewKeys(views[k].value))
  {
    forall k | 1 <= k < |views| && views[k].Some? ensures ViewFits(views[k].value) && Knows(P, ViewKeys(views[k].value)) {
      assert ViewKnown(views[k], keys[k]);
    }
  }

  /** Paths known before stay known once the lookup only gains keys. */
  lemma KnownGrow(P1: map<string, NodeId>, P: map<string, NodeId>, keys: seq<Key>)
    requires KeysGrow(P1, P) && Knows(P1, keys)
    ensures Knows(P, keys)
  {
    KnowsAt(P1, keys);
    KnowsAt(P, keys);
    forall j | 0 <= j < |keys| && keys[j].0 != RootName ensures keys[j].0 in P || keys[j].1 in P {
      assert keys[j].0 in P1 ==> keys[j].0 in P;
      assert keys[j].1 in P1 ==> keys[j].1 in P;
    }
  }
}
