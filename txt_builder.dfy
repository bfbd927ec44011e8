/**
 * `TreeBuilderTXT` (`enkan/tree/TreeBuilderTXT.py`): the tree of a text
 * input, built from its image directories and its specific images. The disk
 * is a value: `fs` maps each existing directory to its listing, a listing
 * carries the listings of its subdirectories (by name, in listing order),
 * and a directory that cannot be scanned is `Unreadable`.
 */
module TxtBuilder {
  import opened Common
  import opened Paths
  import opened Modes
  import opened Nodes
  import opened TreeModel
  import Filtering
  import Utils
  import Grafting

  /** What `os.scandir` yields for a directory: file names and subdirectories, or an error. */
  datatype Dir = Listing(files: seq<string>, subdirs: seq<(string, Dir)>) | Unreadable

  /** An `ImageDirConfig`: a None is a key that is absent or holds None; `flat` defaults to false. */
  datatype DirData = DirData(
    weightModifier: Option<int>,
    isPercentage: Option<bool>,
    proportion: Option<real>,
    userProportion: Option<real>,
    modeModifier: Option<ModeTable>,
    flat: bool,
    video: Option<bool>,
    level: Option<int>,
    graftLevel: Option<int>,
    group: Option<string>)

  // ------------------------------------------------------------ node data

  /** The data `_ensure_structural_root_node` gives a missing root. */
  function RootData(d: DirData): NodeData
  {
    NodeData(d.weightModifier.GetOr(100), d.isPercentage.GetOr(true), d.proportion, d.userProportion,
             d.modeModifier, d.flat, d.video, [])
  }

  /** The data `add_regular_branch` gives a directory without a node. */
  function RegularData(d: DirData, images: seq<string>): NodeData
  {
    NodeData(d.weightModifier.GetOr(100), d.isPercentage.GetOr(true), None, d.userProportion,
             d.modeModifier, false, d.video, images)
  }

  /** The keys `add_regular_branch` writes into an existing node. */
  function RegularUpdate(d: DirData, images: seq<string>): NodeUpdate
  {
    NodeUpdate(Some(d.weightModifier.GetOr(100)), None, Some(d.proportion), Some(d.modeModifier), Some(images))
  }

  /** The data of the `images` child `add_images_branch` creates. */
  function ImagesData(d: DirData, images: seq<string>): NodeData
  {
    NodeData(100, true, d.proportion, d.userProportion, d.modeModifier, false, None, images)
  }

  /** The data `add_flat_branch` gives a flattened directory without a node. */
  function FlatData(d: DirData, images: seq<string>): NodeData
  {
    NodeData(d.weightModifier.GetOr(100), d.isPercentage.GetOr(true), d.proportion, d.userProportion,
             d.modeModifier, false, None, images)
  }

  /** Where `process_path` puts a directory's images: an `images` child when it has subdirectories. */
  function Holder(path: string, dirs: seq<string>): string
  {
    if dirs != [] then Join([path, "images"]) else path
  }

  // --------------------------------------------------------------- walking

  /** `os.path.join(dir, name)`: the path of a directory entry. */
  function ChildPath(dir: string, name: string): string
  {
    Join([dir, name])
  }

  /** `should_process` and `should_descend` for a directory the filters rate `result`. */
  function Decide(result: int, dontRecurse: bool): (bool, bool)
  {
    (result == 0 || result == 3, !(result == 1 || result == 3 || dontRecurse))
  }

  /**
   * A directory is processed exactly when it is neither ignored, nor rejected
   * by a keyword or the lowest rung; it is descended into exactly when it is
   * not ignored, recursion is on, and it is not a processed "do not recurse"
   * directory: a keyword-rejected directory is still searched below.
   */
  lemma DecisionMeaning(s: Filtering.FilterSettings, path: string, dontRecurse: bool)
    ensures Decide(Filtering.Rate(s, path), dontRecurse).0 <==>
      !Filtering.IgnoredDir(s, path) && !Filtering.KeywordRejects(s, path) && !Filtering.BelowBottom(s, path)
    ensures Decide(Filtering.Rate(s, path), dontRecurse).1 <==>
      !dontRecurse && !Filtering.IgnoredDir(s, path) &&
      (Filtering.KeywordRejects(s, path) || Filtering.BelowBottom(s, path) || !Filtering.DontRecurseDir(s, path))
  {
  }

  /** A directory `process_path` is called on, with its file and subdirectory names. */
  datatype Visit = Visit(path: string, files: seq<string>, dirs: seq<string>)

  function SubdirNames(subdirs: seq<(string, Dir)>): seq<string>
  {
    seq(|subdirs|, k requires 0 <= k < |subdirs| => subdirs[k].0)
  }

  /** The calls of `process_path` that `recurse(path)` of `process_directory` makes, in order. */
  function Walk(rate: string -> int, join: (string, string) -> string, path: string, d: Dir, dontRecurse: bool): seq<Visit>
    decreases d, 1
  {
    var (process, descend) := Decide(rate(path), dontRecurse);
    if !process && !descend then []
    else match d
      case Unreadable => []
      case Listing(files, subdirs) =>
        (if process then [Visit(path, files, SubdirNames(subdirs))] else []) +
        (if descend then WalkKids(rate, join, path, d, |subdirs|, dontRecurse) else [])
  }

  /** The visits below the first `n` subdirectories of `d`. */
  function WalkKids(rate: string -> int, join: (string, string) -> string, path: string, d: Dir, n: nat, dontRecurse: bool): seq<Visit>
    requires d.Listing? && n <= |d.subdirs|
    decreases d, 0, n
  {
    if n == 0 then []
    else WalkKids(rate, join, path, d, n - 1, dontRecurse) +
         Walk(rate, join, join(path, d.subdirs[n - 1].0), d.subdirs[n - 1].1, dontRecurse)
  }

  /** Every visit is processed: its path passes the filters with 0 or 3. */
  ghost predicate AllProcessed(rate: string -> int, vs: seq<Visit>, dontRecurse: bool)
    decreases |vs|
  {
    vs == [] || (Decide(rate(vs[0].path), dontRecurse).0 && AllProcessed(rate, vs[1..], dontRecurse))
  }

  lemma {:induction false} ProcessedAt(rate: string -> int, vs: seq<Visit>, dontRecurse: bool, k: nat)
    requires AllProcessed(rate, vs, dontRecurse) && k < |vs|
    ensures Decide(rate(vs[k].path), dontRecurse).0
    decreases k
  {
    if k > 0 {
      ProcessedAt(rate, vs[1..], dontRecurse, k - 1);
    }
  }

  lemma {:induction false} ProcessedAppend(rate: string -> int, a: seq<Visit>, b: seq<Visit>, dontRecurse: bool)
    requires AllProcessed(rate, a, dontRecurse) && AllProcessed(rate, b, dontRecurse)
    ensures AllProcessed(rate, a + b, dontRecurse)
    decreases |a|
  {
    if a == [] {
      assert a + b == b;
    } else {
      TailOfAppend(a, b);
      ProcessedAppend(rate, a[1..], b, dontRecurse);
    }
  }

  /** `process_path` is only ever called on a directory whose rating is 0 or 3. */
  lemma {:induction false} WalkOnlyProcessed(rate: string -> int, join: (string, string) -> string, path: string, d: Dir, dontRecurse: bool)
    ensures AllProcessed(rate, Walk(rate, join, path, d, dontRecurse), dontRecurse)
    decreases d, 1
  {
    var (process, descend) := Decide(rate(path), dontRecurse);
    if (process || descend) && d.Listing? {
      var own := if process then [Visit(path, d.files, SubdirNames(d.subdirs))] else [];
      var below := if descend then WalkKids(rate, join, path, d, |d.subdirs|, dontRecurse) else [];
      if descend {
        WalkKidsOnlyProcessed(rate, join, path, d, |d.subdirs|, dontRecurse);
      }
      ProcessedAppend(rate, own, below, dontRecurse);
    }
  }

  lemma {:induction false} WalkKidsOnlyProcessed(rate: string -> int, join: (string, string) -> string, path: string, d: Dir, n: nat, dontRecurse: bool)
    requires d.Listing? && n <= |d.subdirs|
    ensures AllProcessed(rate, WalkKids(rate, join, path, d, n, dontRecurse), dontRecurse)
    decreases d, 0, n
  {
    if n > 0 {
      var (name, sub) := d.subdirs[n - 1];
      var child := join(path, name);
      WalkKidsOnlyProcessed(rate, join, path, d, n - 1, dontRecurse);
      WalkOnlyProcessed(rate, join, child, sub, dontRecurse);
      ProcessedAppend(rate, WalkKids(rate, join, path, d, n - 1, dontRecurse), Walk(rate, join, child, sub, dontRecurse), dontRecurse);
    }
  }

  /** Nothing visited below the first `n` subdirectories means nothing visited below any one of them. */
  lemma {:induction false} WalkKidsEmpty(rate: string -> int, join: (string, string) -> string, path: string, d: Dir,
                                         n: nat, i: nat, dontRecurse: bool)
    requires d.Listing? && i < n <= |d.subdirs|
    ensures WalkKids(rate, join, path, d, n, dontRecurse) == [] ==>
      Walk(rate, join, join(path, d.subdirs[i].0), d.subdirs[i].1, dontRecurse) == []
    decreases n
  {
    if i < n - 1 {
      WalkKidsEmpty(rate, join, path, d, n - 1, i, dontRecurse);
    }
  }

  /** The number of directories a listing holds, itself included. */
  function DirCount(d: Dir): nat
    decreases d, 1
  {
    match d
    case Unreadable => 0
    case Listing(_, subdirs) => 1 + KidsCount(d, |subdirs|)
  }

  function KidsCount(d: Dir, n: nat): nat
    requires d.Listing? && n <= |d.subdirs|
    decreases d, 0, n
  {
    if n == 0 then 0 else KidsCount(d, n - 1) + DirCount(d.subdirs[n - 1].1)
  }

  /** Each directory is processed at most once. */
  lemma {:induction false} WalkBounded(rate: string -> int, join: (string, string) -> string, path: string, d: Dir, dontRecurse: bool)
    ensures |Walk(rate, join, path, d, dontRecurse)| <= DirCount(d)
    decreases d, 1
  {
    var (process, descend) := Decide(rate(path), dontRecurse);
    if (process || descend) && d.Listing? && descend {
      WalkKidsBounded(rate, join, path, d, |d.subdirs|, dontRecurse);
    }
  }

  lemma {:induction false} WalkKidsBounded(rate: string -> int, join: (string, string) -> string, path: string, d: Dir, n: nat, dontRecurse: bool)
    requires d.Listing? && n <= |d.subdirs|
    ensures |WalkKids(rate, join, path, d, n, dontRecurse)| <= KidsCount(d, n)
    decreases d, 0, n
  {
    if n > 0 {
      WalkKidsBounded(rate, join, path, d, n - 1, dontRecurse);
      WalkBounded(rate, join, join(path, d.subdirs[n - 1].0), d.subdirs[n - 1].1, dontRecurse);
    }
  }

  /**
   * A readable processed directory is visited first, before anything below
   * it; with recursion off nothing else is visited at all.
   */
  lemma WalkStartsAtRoot(rate: string -> int, join: (string, string) -> string, path: string, d: Dir, dontRecurse: bool)
    ensures Decide(rate(path), dontRecurse).0 && d.Listing? ==>
      |Walk(rate, join, path, d, dontRecurse)| >= 1 && Walk(rate, join, path, d, dontRecurse)[0] == Visit(path, d.files, SubdirNames(d.subdirs))
    ensures dontRecurse ==>
      Walk(rate, join, path, d, dontRecurse) == (if Decide(rate(path), dontRecurse).0 && d.Listing? then [Visit(path, d.files, SubdirNames(d.subdirs))] else [])
  {
  }

  // -------------------------------------------------------------- flattening

  /** The files `add_flat_branch` collects: images, and videos when they are allowed. */
  predicate KeepsFlat(name: string, includeVideo: bool)
  {
    Utils.IsImageFile(name) || (includeVideo && Utils.IsVideoFile(name))
  }

  /** The paths of the kept files among `names`, in listing order. */
  function KeptPaths(join: (string, string) -> string, path: string, names: seq<string>, includeVideo: bool): seq<string>
  {
    if names == [] then []
    else KeptPaths(join, path, names[..|names| - 1], includeVideo) +
         (if KeepsFlat(names[|names| - 1], includeVideo) then [join(path, names[|names| - 1])] else [])
  }

  /** All images `recurse(path)` of `add_flat_branch` collects: a directory's own, then each subdirectory's. */
  function FlatImages(join: (string, string) -> string, path: string, d: Dir, includeVideo: bool): seq<string>
    decreases d, 1
  {
    match d
    case Unreadable => []
    case Listing(files, subdirs) => KeptPaths(join, path, files, includeVideo) + FlatKidsImages(join, path, d, |subdirs|, includeVideo)
  }

  function FlatKidsImages(join: (string, string) -> string, path: string, d: Dir, n: nat, includeVideo: bool): seq<string>
    requires d.Listing? && n <= |d.subdirs|
    decreases d, 0, n
  {
    if n == 0 then []
    else FlatKidsImages(join, path, d, n - 1, includeVideo) +
         FlatImages(join, join(path, d.subdirs[n - 1].0), d.subdirs[n - 1].1, includeVideo)
  }

  /** The `traversed_paths` of `add_flat_branch`: the directories that hold a kept file, in pre-order. */
  function FlatDirs(join: (string, string) -> string, path: string, d: Dir, includeVideo: bool): seq<string>
    decreases d, 1
  {
    match d
    case Unreadable => []
    case Listing(files, subdirs) =>
      (if KeptPaths(join, path, files, includeVideo) != [] then [path] else []) + FlatKidsDirs(join, path, d, |subdirs|, includeVideo)
  }

  function FlatKidsDirs(join: (string, string) -> string, path: string, d: Dir, n: nat, includeVideo: bool): seq<string>
    requires d.Listing? && n <= |d.subdirs|
    decreases d, 0, n
  {
    if n == 0 then []
    else FlatKidsDirs(join, path, d, n - 1, includeVideo) +
         FlatDirs(join, join(path, d.subdirs[n - 1].0), d.subdirs[n - 1].1, includeVideo)
  }

  /** The kept files in a whole directory tree, wherever it is mounted. */
  function KeptCount(d: Dir, includeVideo: bool): nat
    decreases d, 1
  {
    match d
    case Unreadable => 0
    case Listing(files, subdirs) => CountKept(files, includeVideo) + KeptKidsCount(d, |subdirs|, includeVideo)
  }

  function KeptKidsCount(d: Dir, n: nat, includeVideo: bool): nat
    requires d.Listing? && n <= |d.subdirs|
    decreases d, 0, n
  {
    if n == 0 then 0 else KeptKidsCount(d, n - 1, includeVideo) + KeptCount(d.subdirs[n - 1].1, includeVideo)
  }

  function CountKept(names: seq<string>, includeVideo: bool): nat
  {
    if names == [] then 0
    else CountKept(names[..|names| - 1], includeVideo) + (if KeepsFlat(names[|names| - 1], includeVideo) then 1 else 0)
  }

  lemma {:induction false} KeptPathsCount(join: (string, string) -> string, path: string, names: seq<string>, includeVideo: bool)
    ensures |KeptPaths(join, path, names, includeVideo)| == CountKept(names, includeVideo)
  {
    if names != [] {
      KeptPathsCount(join, path, names[..|names| - 1], includeVideo);
    }
  }

  /** The flattened node gets exactly the kept files of the whole tree: none lost, none twice. */
  lemma {:induction false} FlatImagesCount(join: (string, string) -> string, path: string, d: Dir, includeVideo: bool)
    ensures |FlatImages(join, path, d, includeVideo)| == KeptCount(d, includeVideo)
    decreases d, 1
  {
    if d.Listing? {
      KeptPathsCount(join, path, d.files, includeVideo);
      FlatKidsImagesCount(join, path, d, |d.subdirs|, includeVideo);
    }
  }

  lemma {:induction false} FlatKidsImagesCount(join: (string, string) -> string, path: string, d: Dir, n: nat, includeVideo: bool)
    requires d.Listing? && n <= |d.subdirs|
    ensures |FlatKidsImages(join, path, d, n, includeVideo)| == KeptKidsCount(d, n, includeVideo)
    decreases d, 0, n
  {
    if n > 0 {
      FlatKidsImagesCount(join, path, d, n - 1, includeVideo);
      FlatImagesCount(join, join(path, d.subdirs[n - 1].0), d.subdirs[n - 1].1, includeVideo);
    }
  }

  /** Every traversed directory contributed at least one image. */
  lemma {:induction false} FlatDirsFewer(join: (string, string) -> string, path: string, d: Dir, includeVideo: bool)
    ensures |FlatDirs(join, path, d, includeVideo)| <= |FlatImages(join, path, d, includeVideo)|
    decreases d, 1
  {
    if d.Listing? {
      FlatKidsDirsFewer(join, path, d, |d.subdirs|, includeVideo);
    }
  }

  lemma {:induction false} FlatKidsDirsFewer(join: (string, string) -> string, path: string, d: Dir, n: nat, includeVideo: bool)
    requires d.Listing? && n <= |d.subdirs|
    ensures |FlatKidsDirs(join, path, d, n, includeVideo)| <= |FlatKidsImages(join, path, d, n, includeVideo)|
    decreases d, 0, n
  {
    if n > 0 {
      FlatKidsDirsFewer(join, path, d, n - 1, includeVideo);
      FlatDirsFewer(join, join(path, d.subdirs[n - 1].0), d.subdirs[n - 1].1, includeVideo);
    }
  }

  /** The files of one directory that `add_flat_branch` keeps. */
  method KeepFiles(join: (string, string) -> string, path: string, names: seq<string>, includeVideo: bool) returns (kept: seq<string>)
    ensures kept == KeptPaths(join, path, names, includeVideo)
  {
    kept := [];
    var i := 0;
    while i < |names|
      invariant 0 <= i <= |names|
      invariant kept == KeptPaths(join, path, names[..i], includeVideo)
    {
      assert names[..i + 1][..i] == names[..i];
      if KeepsFlat(names[i], includeVideo) {
        kept := kept + [join(path, names[i])];
      }
      i := i + 1;
    }
    assert names[..i] == names;
  }

  /** `recurse(path)` of `add_flat_branch`: the collected images and the traversed directories. */
  method CollectFlat(join: (string, string) -> string, path: string, d: Dir, includeVideo: bool) returns (collected: seq<string>, traversed: seq<string>)
    ensures collected == FlatImages(join, path, d, includeVideo)
    ensures traversed == FlatDirs(join, path, d, includeVideo)
    decreases d, 1
  {
    if d.Unreadable? {
      return [], [];
    }
    var own := KeepFiles(join, path, d.files, includeVideo);
    var below, belowDirs := CollectKids(join, path, d, includeVideo);
    collected := own + below;
    traversed := (if own != [] then [path] else []) + belowDirs;
  }

  /** The loop of `recurse` over the subdirectories, each collected in turn. */
  method CollectKids(join: (string, string) -> string, path: string, d: Dir, includeVideo: bool) returns (collected: seq<string>, traversed: seq<string>)
    requires d.Listing?
    ensures collected == FlatKidsImages(join, path, d, |d.subdirs|, includeVideo)
    ensures traversed == FlatKidsDirs(join, path, d, |d.subdirs|, includeVideo)
    decreases d, 0
  {
    collected, traversed := [], [];
    var i := 0;
    while i < |d.subdirs|
      invariant 0 <= i <= |d.subdirs|
      invariant collected == FlatKidsImages(join, path, d, i, includeVideo)
      invariant traversed == FlatKidsDirs(join, path, d, i, includeVideo)
    {
      assert d.subdirs[i] in d.subdirs;
      var c, t := CollectFlat(join, join(path, d.subdirs[i].0), d.subdirs[i].1, includeVideo);
      collected, traversed := collected + c, traversed + t;
      i := i + 1;
    }
  }

  // ------------------------------------------------------ specific images

  /** `num_avg_images`: the average number of images per branch, at least 1; 100 for a tree without branches. */
  function NumAvgImages(branches: nat, images: nat): (r: nat)
    ensures r >= 1
    ensures branches == 0 ==> r == 100
    ensures branches > 0 && images >= branches ==> r * branches <= images < (r + 1) * branches
    ensures branches > 0 && images < branches ==> r == 1
  {
    if branches > 0 then Max(1, images / branches) else 100
  }

  /** How many copies of a specific image its node holds: the average for a percentage node, else its weight modifier. */
  function SpecificCount(d: DirData, numAvg: nat): int
  {
    if d.isPercentage.GetOr(true) then numAvg else d.weightModifier.GetOr(100)
  }

  /** The data `process_specific_images` gives the node of one image. */
  function SpecificData(img: string, d: DirData, numAvg: nat): NodeData
  {
    NodeData(d.weightModifier.GetOr(100), d.isPercentage.GetOr(true), d.proportion, d.userProportion,
             d.modeModifier, false, None, Repeat(img, SpecificCount(d, numAvg)))
  }

  /**
   * The node of a specific image holds only that image: as many copies as
   * the average for a percentage node, else as its weight modifier (none for
   * a negative one).
   */
  lemma SpecificImagesRepeat(img: string, d: DirData, numAvg: nat)
    ensures forall k | 0 <= k < |SpecificData(img, d, numAvg).images| :: SpecificData(img, d, numAvg).images[k] == img
    ensures d.isPercentage.GetOr(true) ==> |SpecificData(img, d, numAvg).images| == numAvg
    ensures !d.isPercentage.GetOr(true) ==> |SpecificData(img, d, numAvg).images| == Max(0, d.weightModifier.GetOr(100))
  {
  }

  /** `data.get("graft_level") or level`: an absent or zero graft level falls back to the image's level. */
  function SpecificGraftLevel(d: DirData, nodeName: string): (r: Option<int>)
    ensures r.Some?
    ensures d.graftLevel.Some? && d.graftLevel.value != 0 ==> r == d.graftLevel
    ensures d.graftLevel.None? || d.graftLevel.value == 0 ==> r == Some(d.level.GetOr(CalculateLevel(nodeName)))
  {
    if d.graftLevel.Some? && d.graftLevel.value != 0 then d.graftLevel else Some(d.level.GetOr(CalculateLevel(nodeName)))
  }

  /** The specific images the filters accept (rating 0). */
  ghost function Accepted(rate: string -> int, items: seq<(string, DirData)>): set<string>
  {
    if items == [] then {}
    else Accepted(rate, items[..|items| - 1]) +
         (if rate(items[|items| - 1].0) == 0 then {items[|items| - 1].0} else {})
  }

  /** An image is accepted exactly when it is one of the items and its rating is 0. */
  lemma {:induction false} AcceptedMeans(rate: string -> int, items: seq<(string, DirData)>, x: string)
    ensures x in Accepted(rate, items) <==> rate(x) == 0 && exists k | 0 <= k < |items| :: items[k].0 == x
  {
    if items != [] {
      var init, last := items[..|items| - 1], items[|items| - 1];
      AcceptedMeans(rate, init, x);
      assert items == init + [last];
      NamedSnoc(items, init, last, x);
      assert x in Accepted(rate, items) <==> x in Accepted(rate, init) || (rate(last.0) == 0 && x == last.0);
    }
  }

  /** `x` names an item exactly when it names one before the last, or the last. */
  lemma NamedSnoc<T>(items: seq<(string, T)>, init: seq<(string, T)>, last: (string, T), x: string)
    requires items == init + [last]
    ensures (exists k | 0 <= k < |items| :: items[k].0 == x) <==> (exists k | 0 <= k < |init| :: init[k].0 == x) || last.0 == x
  {
    if exists k | 0 <= k < |init| :: init[k].0 == x {
      var k :| 0 <= k < |init| && init[k].0 == x;
      assert items[k] == init[k];
    }
    if exists k | 0 <= k < |items| :: items[k].0 == x {
      var k :| 0 <= k < |items| && items[k].0 == x;
      if k < |init| {
        assert init[k] == items[k];
      }
    }
    if last.0 == x {
      assert items[|init|] == last;
    }
  }

  lemma AcceptedStep(rate: string -> int, items: seq<(string, DirData)>, i: nat)
    requires i < |items|
    ensures Accepted(rate, items[..i + 1]) ==
      Accepted(rate, items[..i]) + (if rate(items[i].0) == 0 then {items[i].0} else {})
  {
    assert items[..i + 1][..i] == items[..i];
    assert items[..i + 1][i] == items[i];
  }

  // ---------------------------------------------------------------- builder

  /** `TreeBuilderTXT`, bound to the tree it fills. */
  class TxtBuilder {
    const tree: Tree

    constructor (tree: Tree)
      ensures this.tree == tree
    {
      this.tree := tree;
    }

    /** The files `process_path` keeps: not ignored, an image, or a video when the directory allows one. */
    ghost function ValidImages(path: string, files: seq<string>, data: DirData): seq<string>
      reads tree, tree.filters, tree.defaults
    {
      Utils.ValidFiles(path, files, tree.filters.ignoredFiles, Some(Utils.IsVideoAllowed(data.video, tree.defaults)))
    }

    /** `_ensure_structural_root_node`: a root without a node gets one that carries its configuration. */
    method EnsureStructuralRootNode(root: string, data: DirData) returns (err: Option<Error>)
      requires tree.Valid()
      modifies tree`links, tree`info, tree`nextId, tree`nodeLookup, tree`pathLookup
      ensures tree.Valid()
      ensures root in old(tree.pathLookup) ==> err.None? && unchanged(tree)
      ensures err.None? ==> root in tree.pathLookup
      ensures root !in old(tree.pathLookup) && err.None? ==>
        tree.pathLookup[root] !in old(tree.links.up) &&
        tree.info[tree.pathLookup[root]] == NodeFromData(ConvertPathToTreeFormat(root), root, RootData(data))
    {
      if root in tree.pathLookup {
        return None;
      }
      var r := tree.CreateNode(root, RootData(data));
      err := if r.Err? then Some(r.error) else None;
    }

    /** `add_regular_branch`: an existing node takes the directory's images and keys, a new one is created otherwise. */
    method AddRegularBranch(path: string, images: seq<string>, data: DirData) returns (err: Option<Error>)
      requires tree.Valid()
      modifies tree`links, tree`info, tree`nextId, tree`nodeLookup, tree`pathLookup
      ensures tree.Valid()
      ensures path in old(tree.pathLookup) ==>
        err.None? && tree.links == old(tree.links) && tree.pathLookup == old(tree.pathLookup) &&
        tree.nodeLookup == old(tree.nodeLookup) &&
        tree.info == old(tree.info)[old(tree.pathLookup)[path] := ApplyUpdate(old(tree.info)[old(tree.pathLookup)[path]], RegularUpdate(data, images))]
      ensures path !in old(tree.pathLookup) && err.None? ==>
        path in tree.pathLookup && tree.pathLookup[path] !in old(tree.links.up) &&
        tree.info[tree.pathLookup[path]] == NodeFromData(ConvertPathToTreeFormat(path), path, RegularData(data, images))
      ensures err.None? ==> path in tree.pathLookup && tree.info[tree.pathLookup[path]].images == images
    {
      if path in tree.pathLookup {
        tree.UpdateNode(Some(tree.pathLookup[path]), RegularUpdate(data, images));
        return None;
      }
      var r := tree.CreateNode(path, RegularData(data, images));
      err := if r.Err? then Some(r.error) else None;
    }

    /** `add_images_branch`: the images of a directory with subdirectories go to its `images` child. */
    method AddImagesBranch(path: string, images: seq<string>, data: DirData) returns (err: Option<Error>)
      requires tree.Valid()
      modifies tree`links, tree`info, tree`nextId, tree`nodeLookup, tree`pathLookup
      ensures tree.Valid()
      ensures err.None? ==>
        Join([path, "images"]) in tree.pathLookup && tree.pathLookup[Join([path, "images"])] !in old(tree.links.up) &&
        tree.info[tree.pathLookup[Join([path, "images"])]] ==
          NodeFromData(ConvertPathToTreeFormat(Join([path, "images"])), Join([path, "images"]), ImagesData(data, images))
    {
      var child := Join([path, "images"]);
      var r := tree.CreateNode(child, ImagesData(data, images));
      err := if r.Err? then Some(r.error) else None;
    }

    /** `process_path`: a directory's kept files, if any, go to the node of `Holder(path, dirs)`. */
    method ProcessPath(path: string, files: seq<string>, dirs: seq<string>, data: DirData) returns (err: Option<Error>)
      requires tree.Valid()
      modifies tree`links, tree`info, tree`nextId, tree`nodeLookup, tree`pathLookup
      ensures tree.Valid()
      ensures ValidImages(path, files, data) == [] ==> err.None? && unchanged(tree)
      ensures ValidImages(path, files, data) != [] && err.None? ==>
        Holder(path, dirs) in tree.pathLookup && tree.info[tree.pathLookup[Holder(path, dirs)]].images == ValidImages(path, files, data)
    {
      var includeVideo := Utils.IsVideoAllowed(data.video, tree.defaults);
      var images := Utils.FilterValidFiles(path, files, tree.filters.ignoredFiles, Some(includeVideo));
      if images == [] {
        return None;
      }
      if dirs != [] {
        err := AddImagesBranch(path, images, data);
      } else {
        err := AddRegularBranch(path, images, data);
      }
    }

    /** `process_directory`: the walk below `root`, each entry's path made by `os.path.join`. */
    method ProcessDirectory(root: string, d: Dir, data: DirData) returns (err: Option<Error>)
      requires tree.Valid()
      modifies tree`links, tree`info, tree`nextId, tree`nodeLookup, tree`pathLookup
      ensures tree.Valid()
      ensures Walk(Filtering.Rating(tree.filters.Settings()), ChildPath, root, d, tree.defaults.DontRecurse()) == [] ==> err.None? && unchanged(tree)
    {
      err := Recurse(ChildPath, root, d, data);
    }

    /** `recurse(path)` of `process_directory`: a directory `Walk` does not visit, nor anything below it, changes nothing. */
    method Recurse(join: (string, string) -> string, path: string, d: Dir, data: DirData) returns (err: Option<Error>)
      requires tree.Valid()
      modifies tree`links, tree`info, tree`nextId, tree`nodeLookup, tree`pathLookup
      ensures tree.Valid()
      ensures Walk(Filtering.Rating(tree.filters.Settings()), join, path, d, tree.defaults.DontRecurse()) == [] ==> err.None? && unchanged(tree)
      decreases d, 1
    {
      var (process, descend) := Decide(tree.filters.Passes(path), tree.defaults.DontRecurse());
      if (!process && !descend) || d.Unreadable? {
        return None;
      }
      err := None;
      if process {
        err := ProcessPath(path, d.files, SubdirNames(d.subdirs), data);
        if err.Some? {
          return;
        }
      }
      if descend {
        err := RecurseKids(join, path, d, data);
      }
    }

    /** The loop of `recurse` over the subdirectories, each walked in turn. */
    method RecurseKids(join: (string, string) -> string, path: string, d: Dir, data: DirData) returns (err: Option<Error>)
      requires tree.Valid() && d.Listing?
      modifies tree`links, tree`info, tree`nextId, tree`nodeLookup, tree`pathLookup
      ensures tree.Valid()
      ensures WalkKids(Filtering.Rating(tree.filters.Settings()), join, path, d, |d.subdirs|, tree.defaults.DontRecurse()) == [] ==> err.None? && unchanged(tree)
      decreases d, 0
    {
      err := None;
      var i := 0;
      while i < |d.subdirs|
        invariant 0 <= i <= |d.subdirs|
        invariant tree.Valid()
        invariant WalkKids(Filtering.Rating(tree.filters.Settings()), join, path, d, |d.subdirs|, tree.defaults.DontRecurse()) == [] ==> err.None? && unchanged(tree)
      {
        WalkKidsEmpty(Filtering.Rating(tree.filters.Settings()), join, path, d, |d.subdirs|, i, tree.defaults.DontRecurse());
        assert d.subdirs[i] in d.subdirs;
        err := Recurse(join, join(path, d.subdirs[i].0), d.subdirs[i].1, data);
        if err.Some? {
          return;
        }
        i := i + 1;
      }
    }

    /** The node of a flattened directory: an existing one takes the images, else one is created. */
    method PlaceFlat(path: string, images: seq<string>, data: DirData) returns (err: Option<Error>)
      requires tree.Valid()
      modifies tree`links, tree`info, tree`nextId, tree`nodeLookup, tree`pathLookup
      ensures tree.Valid()
      ensures path in old(tree.pathLookup) ==>
        err.None? && tree.links == old(tree.links) && tree.pathLookup == old(tree.pathLookup) &&
        tree.info == old(tree.info)[old(tree.pathLookup)[path] := old(tree.info)[old(tree.pathLookup)[path]].(images := images)]
      ensures path !in old(tree.pathLookup) && err.None? ==>
        path in tree.pathLookup && tree.pathLookup[path] !in old(tree.links.up) &&
        tree.info[tree.pathLookup[path]] == NodeFromData(ConvertPathToTreeFormat(path), path, FlatData(data, images))
      ensures err.None? ==> path in tree.pathLookup && tree.info[tree.pathLookup[path]].images == images
    {
      if path in tree.pathLookup {
        tree.UpdateNode(Some(tree.pathLookup[path]), NodeUpdate(None, None, None, None, Some(images)));
        return None;
      }
      var r := tree.CreateNode(path, FlatData(data, images));
      err := if r.Err? then Some(r.error) else None;
    }

    /** `add_flat_branch`: one node holds every kept file below `path`, and each traversed directory names it. */
    method AddFlatBranch(path: string, d: Dir, data: DirData) returns (err: Option<Error>)
      requires tree.Valid()
      modifies tree`links, tree`info, tree`nextId, tree`nodeLookup, tree`pathLookup
      ensures tree.Valid()
      ensures err.None? ==>
        var includeVideo := Utils.IsVideoAllowed(data.video, tree.defaults);
        path in tree.pathLookup &&
        tree.info[tree.pathLookup[path]].images == FlatImages(ChildPath, path, d, includeVideo) &&
        forall p | p in FlatDirs(ChildPath, path, d, includeVideo) :: p in tree.pathLookup && tree.pathLookup[p] == tree.pathLookup[path]
    {
      var includeVideo := Utils.IsVideoAllowed(data.video, tree.defaults);
      var images, traversed := CollectFlat(ChildPath, path, d, includeVideo);
      err := PlaceFlat(path, images, data);
      if err.Some? {
        return;
      }
      AliasPaths(traversed, tree.pathLookup[path]);
    }

    /** The loop at the end of `add_flat_branch`: every path in `paths` now names `node`, other keys are kept. */
    method AliasPaths(paths: seq<string>, node: NodeId)
      requires tree.Valid() && node in tree.links.up
      modifies tree`pathLookup
      ensures tree.Valid()
      ensures tree.pathLookup.Keys == old(tree.pathLookup).Keys + set p | p in paths
      ensures forall q | q in tree.pathLookup :: tree.pathLookup[q] == if q in paths then node else old(tree.pathLookup)[q]
    {
      var m := tree.pathLookup;
      var i := 0;
      while i < |paths|
        invariant 0 <= i <= |paths|
        invariant m.Keys == tree.pathLookup.Keys + set p | p in paths[..i]
        invariant forall q | q in m :: m[q] == if q in paths[..i] then node else tree.pathLookup[q]
      {
        assert paths[..i + 1] == paths[..i] + [paths[i]];
        m := m[paths[i] := node];
        i := i + 1;
      }
      assert paths[..i] == paths;
      tree.pathLookup := m;
    }

    /** The node of one specific image, registered as its virtual image. */
    method CreateVirtualNode(img: string, nodeName: string, nd: NodeData) returns (err: Option<Error>, node: NodeId)
      requires tree.Valid()
      modifies tree`links, tree`info, tree`nextId, tree`nodeLookup, tree`pathLookup, tree`virtualImageLookup
      ensures tree.Valid()
      ensures err.Some? ==> tree.virtualImageLookup == old(tree.virtualImageLookup)
      ensures err.None? ==>
        tree.virtualImageLookup == old(tree.virtualImageLookup)[img := node] && node !in old(tree.links.up) &&
        nodeName in tree.pathLookup && tree.pathLookup[nodeName] == node
    {
      var r := tree.CreateNode(nodeName, nd);
      if r.Err? {
        return Some(r.error), 0;
      }
      node := r.value;
      tree.RegisterVirtualImage(img, node);
      err := None;
    }

    /**
     * An accepted specific image: its node, named after the image's stem,
     * registered and grafted. A graft that raises ends the build with the
     * virtual image already registered. `created` is the state once the
     * node exists (none when creating it failed); from it the node is
     * grafted at `SpecificGraftLevel`, as `GraftNode` states.
     */
    method AcceptSpecificImage(img: string, data: DirData, numAvg: nat)
      returns (err: Option<Error>, node: NodeId, ghost created: Option<Grafting.TreeState>,
               ghost o: Grafting.GraftOutcome, ghost mid: Grafting.TreeState, ghost ensured: Result<NodeId>, ghost moved: Links)
      requires tree.Valid()
      modifies tree`links, tree`info, tree`nextId, tree`nodeLookup, tree`pathLookup, tree`virtualImageLookup
      ensures tree.Valid()
      ensures err.None? ==> node !in old(tree.links.up)
      ensures err.None? ==> tree.virtualImageLookup == old(tree.virtualImageLookup)[img := node]
      ensures err.Some? ==>
        tree.virtualImageLookup == old(tree.virtualImageLookup) || tree.virtualImageLookup == old(tree.virtualImageLookup)[img := node]
      ensures created.None? ==> err.Some? && tree.virtualImageLookup == old(tree.virtualImageLookup)
      ensures created.Some? ==>
        node !in old(tree.links.up) && tree.virtualImageLookup == old(tree.virtualImageLookup)[img := node] &&
        StemName(img) in created.value.pathLookup && created.value.pathLookup[StemName(img)] == node &&
        err == (if o.Failed? then Some(o.error) else None)
      ensures created.Some? ==> Grafting.StateFits(created.value) && node in created.value.links.up
      ensures created.Some? && Grafting.GraftLevel(tree.defaults.groups, SpecificGraftLevel(data, StemName(img)), data.group).Some? ==>
        Grafting.GraftResult(created.value, Grafting.TreeState(tree.links, tree.info, tree.nextId, tree.nodeLookup, tree.pathLookup),
                             mid, ensured, moved, o, tree.root, tree.defaults.groups, node, StemName(img),
                             Grafting.GraftLevel(tree.defaults.groups, SpecificGraftLevel(data, StemName(img)), data.group).value, data.group)
    {
      var nodeName := StemName(img);
      created, o, mid, ensured, moved := None, Grafting.NoLevel, Grafting.TreeState(tree.links, tree.info, tree.nextId, tree.nodeLookup, tree.pathLookup),
        Err(ValueError("")), tree.links;
      err, node := CreateVirtualNode(img, nodeName, SpecificData(img, data, numAvg));
      if err.Some? {
        return;
      }
      created := Some(Grafting.TreeState(tree.links, tree.info, tree.nextId, tree.nodeLookup, tree.pathLookup));
      assert Grafting.StateFits(created.value) && node in created.value.links.up;
      err, o, mid, ensured, moved := GraftNode(nodeName, SpecificGraftLevel(data, nodeName), data.group);
    }

    /** One round of `process_specific_images`: a rejected image is skipped, an accepted one gets a node and is grafted. */
    method ProcessSpecificImage(img: string, data: DirData, numAvg: nat) returns (err: Option<Error>, node: NodeId)
      requires tree.Valid()
      modifies tree`links, tree`info, tree`nextId, tree`nodeLookup, tree`pathLookup, tree`virtualImageLookup
      ensures tree.Valid()
      ensures err.None? && tree.filters.Passes(img) == 0 ==> node !in old(tree.links.up)
      ensures tree.filters.Passes(img) != 0 ==> err.None? && unchanged(tree)
      ensures err.None? && tree.filters.Passes(img) == 0 ==> tree.virtualImageLookup == old(tree.virtualImageLookup)[img := node]
    {
      if tree.filters.Passes(img) != 0 {
        return None, 0;
      }
      var e, n, _, _, _, _, _ := AcceptSpecificImage(img, data, numAvg);
      err, node := e, n;
    }

    /** `process_specific_images`: exactly the accepted images become virtual images. */
    method ProcessSpecificImages(specific: seq<(string, DirData)>) returns (err: Option<Error>)
      requires tree.Valid()
      modifies tree`links, tree`info, tree`nextId, tree`nodeLookup, tree`pathLookup, tree`virtualImageLookup
      ensures tree.Valid()
      ensures err.None? ==>
        tree.virtualImageLookup.Keys == old(tree.virtualImageLookup).Keys + Accepted(Filtering.Rating(tree.filters.Settings()), specific)
    {
      var (branches, images) := tree.CountBranchesOf(Some(tree.root));
      err := AddSpecificImages(specific, NumAvgImages(branches, images));
    }

    /** The loop of `process_specific_images`, each image given `numAvg` copies when its node is a percentage. */
    method AddSpecificImages(specific: seq<(string, DirData)>, numAvg: nat) returns (err: Option<Error>)
      requires tree.Valid()
      modifies tree`links, tree`info, tree`nextId, tree`nodeLookup, tree`pathLookup, tree`virtualImageLookup
      ensures tree.Valid()
      ensures err.None? ==>
        tree.virtualImageLookup.Keys == old(tree.virtualImageLookup).Keys + Accepted(Filtering.Rating(tree.filters.Settings()), specific)
    {
      err := None;
      var i := 0;
      while i < |specific|
        invariant 0 <= i <= |specific|
        invariant tree.Valid()
        invariant tree.virtualImageLookup.Keys == old(tree.virtualImageLookup).Keys + Accepted(Filtering.Rating(tree.filters.Settings()), specific[..i])
      {
        AcceptedStep(Filtering.Rating(tree.filters.Settings()), specific, i);
        var node;
        err, node := ProcessSpecificImage(specific[i].0, specific[i].1, numAvg);
        if err.Some? {
          return;
        }
        i := i + 1;
      }
      assert specific[..i] == specific;
    }

    /**
     * One root of `build_tree`: its structural node, its directories or its
     * flattened branch, then its graft. `pre` is the state the graft starts
     * from (none when an earlier step raised); from it the root is grafted
     * as `GraftNode` states.
     */
    method AddRoot(root: string, data: DirData, d: Dir)
      returns (err: Option<Error>, ghost pre: Option<Grafting.TreeState>,
               ghost o: Grafting.GraftOutcome, ghost mid: Grafting.TreeState, ghost ensured: Result<NodeId>, ghost moved: Links)
      requires tree.Valid()
      modifies tree`links, tree`info, tree`nextId, tree`nodeLookup, tree`pathLookup
      ensures tree.Valid()
      ensures pre.None? ==> err.Some?
      ensures pre.Some? ==> err == (if o.Failed? then Some(o.error) else None)
      ensures pre.Some? ==>
        Grafting.StateFits(pre.value) && (root in pre.value.pathLookup ==> pre.value.pathLookup[root] in pre.value.links.up)
      ensures pre.Some? && (Grafting.GraftLevel(tree.defaults.groups, data.graftLevel, data.group).None? || root !in pre.value.pathLookup) ==>
        err.None? && Grafting.TreeState(tree.links, tree.info, tree.nextId, tree.nodeLookup, tree.pathLookup) == pre.value
      ensures pre.Some? && Grafting.GraftLevel(tree.defaults.groups, data.graftLevel, data.group).Some? && root in pre.value.pathLookup ==>
        Grafting.GraftResult(pre.value, Grafting.TreeState(tree.links, tree.info, tree.nextId, tree.nodeLookup, tree.pathLookup),
                             mid, ensured, moved, o, tree.root, tree.defaults.groups, pre.value.pathLookup[root], root,
                             Grafting.GraftLevel(tree.defaults.groups, data.graftLevel, data.group).value, data.group)
    {
      pre, o, mid, ensured, moved := None, Grafting.NoLevel, Grafting.TreeState(tree.links, tree.info, tree.nextId, tree.nodeLookup, tree.pathLookup),
        Err(ValueError("")), tree.links;
      err := EnsureStructuralRootNode(root, data);
      if err.Some? {
        return;
      }
      if data.flat {
        err := AddFlatBranch(root, d, data);
      } else {
        err := ProcessDirectory(root, d, data);
      }
      if err.Some? {
        return;
      }
      pre := Some(Grafting.TreeState(tree.links, tree.info, tree.nextId, tree.nodeLookup, tree.pathLookup));
      assert Grafting.StateFits(pre.value) && (root in pre.value.pathLookup ==> pre.value.pathLookup[root] in pre.value.links.up);
      err, o, mid, ensured, moved := GraftNode(root, data.graftLevel, data.group);
    }

    /**
     * `handle_grafting(path, graft_level, group)`, whose raised error ends
     * the build; with a level in use and a known path, the new state is the
     * graft `Grafting.GraftResult` states.
     */
    method GraftNode(path: string, graftLevel: Option<int>, group: Option<string>)
      returns (err: Option<Error>, ghost o: Grafting.GraftOutcome, ghost mid: Grafting.TreeState,
               ghost ensured: Result<NodeId>, ghost moved: Links)
      requires tree.Valid()
      modifies tree`links, tree`info, tree`nextId, tree`nodeLookup, tree`pathLookup
      ensures tree.Valid()
      ensures err == (if o.Failed? then Some(o.error) else None)
      ensures err.Some? ==> unchanged(tree)
      ensures Grafting.GraftLevel(tree.defaults.groups, graftLevel, group).None? || path !in old(tree.pathLookup) ==>
        err.None? && unchanged(tree)
      ensures Grafting.GraftLevel(tree.defaults.groups, graftLevel, group).Some? && path in old(tree.pathLookup) ==>
        Grafting.GraftResult(old(Grafting.TreeState(tree.links, tree.info, tree.nextId, tree.nodeLookup, tree.pathLookup)),
                             Grafting.TreeState(tree.links, tree.info, tree.nextId, tree.nodeLookup, tree.pathLookup),
                             mid, ensured, moved, o, tree.root, tree.defaults.groups, old(tree.pathLookup)[path], path,
                             Grafting.GraftLevel(tree.defaults.groups, graftLevel, group).value, group)
    {
      var outcome;
      outcome, mid, ensured, moved := Grafting.HandleGrafting(tree, path, graftLevel, group);
      o := outcome;
      err := if outcome.Failed? then Some(outcome.error) else None;
    }

    /**
     * `build_tree`: nothing for no input; each existing root directory in
     * turn, then the specific images; the built mode is the input's mode,
     * or the default mode when it names none.
     */
    method BuildTree(imageDirs: seq<(string, DirData)>, specific: seq<(string, DirData)>, mode: Option<ModeTable>,
                     fs: map<string, Dir>) returns (err: Option<Error>)
      requires tree.Valid()
      modifies tree`links, tree`info, tree`nextId, tree`nodeLookup, tree`pathLookup, tree`virtualImageLookup, tree`builtMode
      ensures tree.Valid()
      ensures imageDirs == [] && specific == [] ==> err.None? && unchanged(tree)
      ensures (imageDirs != [] || specific != []) && err.None? ==>
        tree.builtMode == (if mode.Some? then mode else Some(tree.defaults.Mode()))
      ensures err.None? && specific != [] ==>
        Accepted(Filtering.Rating(tree.filters.Settings()), specific) <= tree.virtualImageLookup.Keys
      ensures specific == [] && (forall k | 0 <= k < |imageDirs| :: imageDirs[k].0 !in fs) ==>
        err.None? && tree.links == old(tree.links) && tree.info == old(tree.info) &&
        tree.pathLookup == old(tree.pathLookup) && tree.virtualImageLookup == old(tree.virtualImageLookup)
    {
      if imageDirs == [] && specific == [] {
        return None;
      }
      var i := 0;
      err := None;
      while i < |imageDirs|
        invariant 0 <= i <= |imageDirs|
        invariant tree.Valid()
        invariant err.None?
        invariant (forall k | 0 <= k < i :: imageDirs[k].0 !in fs) ==> unchanged(tree)
      {
        var (root, data) := imageDirs[i];
        if root in fs {
          var e, _, _, _, _, _ := AddRoot(root, data, fs[root]);
          err := e;
          if err.Some? {
            return;
          }
        }
        i := i + 1;
      }
      if specific != [] {
        err := ProcessSpecificImages(specific);
        if err.Some? {
          return;
        }
      }
      tree.builtMode := if mode.Some? then mode else Some(tree.defaults.Mode());
    }
  }
}
