/**
 * Stateless helpers of `enkan/utils/utils.py`: the weighted draw (with the
 * random number as a parameter), path depth and truncation, drive roots,
 * file-type tests, the video precedence and the directory-listing filter.
 */
module Utils {
  import opened Common
  import opened Paths
  import opened Modes

  // ------------------------------------------------------------ weighted_choice

  predicate Sorted(a: seq<real>)
  {
    forall i, j :: 0 <= i < j < |a| ==> a[i] <= a[j]
  }

  /** The first index whose value is at least `x`, or `|a|`. */
  function FirstAtLeast(a: seq<real>, x: real): (i: nat)
    ensures i <= |a|
    ensures forall k :: 0 <= k < i ==> a[k] < x
    ensures i < |a| ==> a[i] >= x
  {
    if a == [] then 0 else if a[0] >= x then 0 else 1 + FirstAtLeast(a[1..], x)
  }

  /** `bisect.bisect_left(a, x)`: binary search; on a sorted list it finds the first index with `a[i] >= x`. */
  method BisectLeft(a: seq<real>, x: real) returns (lo: nat)
    ensures lo <= |a|
    ensures Sorted(a) ==> lo == FirstAtLeast(a, x)
  {
    lo := 0;
    var hi := |a|;
    while lo < hi
      invariant 0 <= lo <= hi <= |a|
      invariant Sorted(a) ==> forall k :: 0 <= k < lo ==> a[k] < x
      invariant Sorted(a) ==> forall k :: hi <= k < |a| ==> a[k] >= x
      decreases hi - lo
    {
      var mid := (lo + hi) / 2;
      if a[mid] < x {
        lo := mid + 1;
      } else {
        hi := mid;
      }
    }
    if Sorted(a) {
      FirstAtLeastUnique(a, x, lo);
    }
  }

  /** An index below which every value is smaller and from which every value is at least `x` is the first one. */
  lemma {:induction false} FirstAtLeastUnique(a: seq<real>, x: real, i: nat)
    requires i <= |a|
    requires forall k :: 0 <= k < i ==> a[k] < x
    requires forall k :: i <= k < |a| ==> a[k] >= x
    ensures FirstAtLeast(a, x) == i
  {
    if a != [] && i > 0 {
      FirstAtLeastUnique(a[1..], x, i - 1);
    }
  }

  /** `random.random() * total` */
  function Scale(draw: real, total: real): real { draw * total }

  /** An index pushed back into `[0, n)`. */
  function Clamp(i: nat, n: nat): nat
    requires n > 0
  {
    if i >= n then n - 1 else i
  }

  /**
   * `weighted_choice(image_paths, cum_weights)` with `random.random()`
   * supplied as `draw`.
   */
  method WeightedChoice<T>(paths: seq<T>, cum: seq<real>, draw: real) returns (r: Result<T>)
    ensures paths == [] || cum == [] || |paths| != |cum| ==> r.Err?
    ensures paths != [] && |paths| == |cum| && cum[|cum| - 1] <= 0.0 ==> r.Err?
    ensures paths != [] && |paths| == |cum| && cum[|cum| - 1] > 0.0 ==> r.Ok? && r.value in paths
    ensures paths != [] && |paths| == |cum| && cum[|cum| - 1] > 0.0 && Sorted(cum) ==>
      r == Ok(paths[Clamp(FirstAtLeast(cum, Scale(draw, cum[|cum| - 1])), |paths|)])
  {
    if paths == [] || cum == [] {
      return Err(ValueError("weighted_choice received empty inputs"));
    }
    if |paths| != |cum| {
      return Err(ValueError("image_paths and cum_weights length mismatch"));
    }
    var total := cum[|cum| - 1];
    if total <= 0.0 {
      return Err(ValueError("Total cumulative weight must be > 0"));
    }
    var x := Scale(draw, total);
    var idx := BisectLeft(cum, x);
    if idx >= |paths| {
      idx := |paths| - 1;
    }
    r := Ok(paths[idx]);
  }

  /**
   * For a draw in [0, 1) the clamp is never needed: the chosen index is the
   * one whose cumulative interval `(cum[i-1], cum[i]]` holds the scaled draw.
   */
  lemma ChoiceInInterval(cum: seq<real>, draw: real)
    requires cum != [] && Sorted(cum) && cum[|cum| - 1] > 0.0
    requires 0.0 <= draw < 1.0
    ensures var x := Scale(draw, cum[|cum| - 1]);
      var i := FirstAtLeast(cum, x);
      i < |cum| && x <= cum[i] && (i == 0 || cum[i - 1] < x)
  {
    var total := cum[|cum| - 1];
    assert draw * total < total;
  }

  // ------------------------------------------------------------------ paths

  /** `level_of(path)`: the number of non-empty `\`-separated components. */
  function LevelOf(path: string): nat
  {
    |Components(path)|
  }

  /** A path written as `\`-joined plain components has that many levels. */
  lemma LevelOfJoin(parts: seq<string>)
    requires |parts| >= 1
    requires forall i :: 0 <= i < |parts| ==> parts[i] != "" && Sep !in parts[i]
    ensures LevelOf(JoinWith(parts, Sep)) == |parts|
  {
    ComponentsOfJoin(parts);
  }

  /** How many components `truncate_path` keeps out of `n`. */
  function KeepCount(n: nat, levelsUp: int): (k: nat)
    ensures k <= n
    ensures levelsUp >= 0 ==> k == if levelsUp < n then levelsUp else n
    ensures levelsUp < 0 ==> k == if n + levelsUp < 0 then 0 else n + levelsUp
  {
    if levelsUp < 0 then (if n + levelsUp < 0 then 0 else n + levelsUp)
    else if levelsUp < n then levelsUp else n
  }

  /**
   * `truncate_path(path, levels_up)`: the first `levels_up` components, or all
   * but the last `-levels_up`, rejoined with `\`.
   */
  function TruncatePath(path: string, levelsUp: int): (r: string)
    ensures Components(r) == Components(path)[..KeepCount(|Components(path)|, levelsUp)]
    ensures LevelOf(r) <= LevelOf(path)
  {
    var parts := Components(path);
    var kept := parts[..KeepCount(|parts|, levelsUp)];
    if kept == [] then ""
    else
      ComponentsOfJoin(kept);
      JoinWith(kept, Sep)
  }

  /** `get_drive_or_root`: drive plus separator, a lone separator for a rooted path, else empty. */
  function GetDriveOrRoot(path: string): (r: string)
    ensures SplitDrive(path).0 != "" ==> r == SplitDrive(path).0 + [Sep] && StartsWith(path, SplitDrive(path).0)
    ensures SplitDrive(path).0 == "" ==> (r == [Sep] <==> StartsWith(path, [Sep])) && (r == "" || r == [Sep])
    ensures r == "" <==> SplitDrive(path).0 == "" && !StartsWith(path, [Sep])
  {
    var (drive, _) := SplitDrive(path);
    if drive != "" then drive + [Sep]
    else if StartsWith(path, [Sep]) then [Sep]
    else ""
  }

  // -------------------------------------------------------------- file types

  const ImageFiles: seq<string> := [".png", ".jpg", ".jpeg", ".gif", ".bmp", ".webp", ".tiff"]
  const VideoFiles: seq<string> := [".mp4", ".mkv", ".webm", ".avi", ".mov", ".wmv"]
  const TextFiles: seq<string> := [".txt", ".lst"]

  /** `s.endswith(tuple)` */
  predicate EndsWithAny(s: string, suffixes: seq<string>)
  {
    exists i :: 0 <= i < |suffixes| && EndsWith(s, suffixes[i])
  }

  predicate IsTextFile(file: string) { EndsWithAny(Lower(file), TextFiles) }

  predicate IsImageFile(file: string) { EndsWithAny(Lower(file), ImageFiles) }

  predicate IsVideoFile(file: string) { EndsWithAny(Lower(file), VideoFiles) }

  /** No name is both an image and a video: no image extension ends in the last letter of a video extension. */
  lemma ImageNotVideo(file: string)
    ensures !(IsImageFile(file) && IsVideoFile(file))
  {
    EndsInSuffixLast(Lower(file), ImageFiles, "gfp");
    EndsInSuffixLast(Lower(file), VideoFiles, "4vmi");
  }

  /** A string that ends with one of the suffixes ends in one of their last characters. */
  lemma EndsInSuffixLast(s: string, suffixes: seq<string>, lasts: string)
    requires forall k :: 0 <= k < |suffixes| ==> suffixes[k] != [] && suffixes[k][|suffixes[k]| - 1] in lasts
    ensures EndsWithAny(s, suffixes) ==> s != [] && s[|s| - 1] in lasts
  {
    if EndsWithAny(s, suffixes) {
      var i :| 0 <= i < |suffixes| && EndsWith(s, suffixes[i]);
      LastAgrees(s, suffixes[i]);
    }
  }

  /** A string ends in the last character of each of its non-empty suffixes. */
  lemma LastAgrees(s: string, a: string)
    requires EndsWith(s, a) && a != []
    ensures s[|s| - 1] == a[|a| - 1]
  {
    assert s[|s| - |a|..][|a| - 1] == s[|s| - 1];
  }

  // ------------------------------------------------------------------ video

  /**
   * `is_videoallowed(data_video, defaults)`: a node's explicit False wins,
   * then the command-line flag, then the node's value, then the defaults.
   */
  function IsVideoAllowed(dataVideo: Option<bool>, d: Defaults): (allowed: bool)
    reads d
    ensures dataVideo == Some(false) ==> !allowed
    ensures dataVideo != Some(false) && d.argsVideo.Some? ==> allowed == d.argsVideo.value
    ensures dataVideo == Some(true) && d.argsVideo.None? ==> allowed
  {
    if dataVideo == Some(false) then false
    else if d.argsVideo.Some? then d.argsVideo.value
    else if dataVideo.Some? then dataVideo.value
    else d.Video()
  }

  /** Without a node setting the answer is exactly the three-tier `defaults.video`. */
  lemma VideoAllowedDefault(d: Defaults)
    ensures IsVideoAllowed(None, d) == d.Video()
  {
  }

  // ----------------------------------------------------- filter_valid_files

  /** Whether `filter_valid_files` keeps file name `f` of directory `path`. */
  predicate Keeps(path: string, f: string, ignored: set<string>, videoAllowed: Option<bool>)
  {
    Join([path, f]) !in ignored &&
    (IsImageFile(f) || (videoAllowed == Some(true) && IsVideoFile(f)))
  }

  /** The joined paths of the kept names, in listing order. */
  function ValidFiles(path: string, files: seq<string>, ignored: set<string>, videoAllowed: Option<bool>): (r: seq<string>)
    ensures |r| <= |files|
    ensures forall k :: 0 <= k < |r| ==> r[k] !in ignored
    ensures forall f | f in files && Keeps(path, f, ignored, videoAllowed) :: Join([path, f]) in r
    ensures forall p | p in r :: exists f :: f in files && Keeps(path, f, ignored, videoAllowed) && p == Join([path, f])
  {
    if files == [] then []
    else
      var rest := ValidFiles(path, files[1..], ignored, videoAllowed);
      if Keeps(path, files[0], ignored, videoAllowed) then [Join([path, files[0]])] + rest else rest
  }

  /** `filter_valid_files`: one pass over the listing, appending what is kept. */
  method FilterValidFiles(path: string, files: seq<string>, ignored: set<string>, videoAllowed: Option<bool>)
    returns (out: seq<string>)
    ensures out == ValidFiles(path, files, ignored, videoAllowed)
  {
    out := [];
    var i := 0;
    while i < |files|
      invariant 0 <= i <= |files|
      invariant out + ValidFiles(path, files[i..], ignored, videoAllowed) == ValidFiles(path, files, ignored, videoAllowed)
    {
      assert files[i..][1..] == files[i + 1..];
      var f := files[i];
      var full := Join([path, f]);
      if full !in ignored && (IsImageFile(f) || (videoAllowed == Some(true) && IsVideoFile(f))) {
        out := out + [full];
      }
      i := i + 1;
    }
    assert files[|files|..] == [];
  }
}
