/**
 * `Filters` (`enkan/utils/Filters.py`): the keyword and directory filters
 * a line file configures, and `passes`, the ordered decision the tree
 * builder consults for every directory (0 keep, 1 ignored directory,
 * 2 filtered out, 3 keep but do not descend).
 */
module Filtering {
  import opened Common
  import opened Paths
  import opened Modes
  import Utils

  /** The part of a `Filters` object that `passes` reads. */
  datatype FilterSettings = FilterSettings(
    mustContain: set<string>,
    mustNotContain: set<string>,
    ignoredDirs: set<string>,
    dontRecurseBeyond: set<string>,
    ignoreBelowBottom: bool,
    lowestRung: Option<int>)

  /** `_should_ignore_below_bottom` */
  predicate BelowBottom(s: FilterSettings, path: string)
  {
    s.ignoreBelowBottom && s.lowestRung.Some? && Utils.LevelOf(path) < s.lowestRung.value
  }

  /** The path, normalised, is one of the ignored directories, normalised. */
  predicate IgnoredDir(s: FilterSettings, path: string)
  {
    exists d :: d in s.ignoredDirs && NormPath(path) == NormPath(d)
  }

  /** A keyword check rejects the path: a forbidden one occurs, or none of the required ones does. */
  predicate KeywordRejects(s: FilterSettings, path: string)
  {
    (exists k :: k in s.mustNotContain && Contains(path, k)) ||
    (s.mustContain != {} && !(exists k :: k in s.mustContain && Contains(path, k)))
  }

  predicate DontRecurseDir(s: FilterSettings, path: string)
  {
    exists d :: d in s.dontRecurseBeyond && NormPath(path) == NormPath(d)
  }

  /** The decision of `passes(path)`: the first test that fires decides. */
  function Rate(s: FilterSettings, path: string): (r: int)
    ensures 0 <= r <= 3
    ensures r == 1 <==> IgnoredDir(s, path)
    ensures r == 2 <==> !IgnoredDir(s, path) && (KeywordRejects(s, path) || BelowBottom(s, path))
    ensures r == 3 <==> !IgnoredDir(s, path) && !KeywordRejects(s, path) && !BelowBottom(s, path) && DontRecurseDir(s, path)
  {
    if IgnoredDir(s, path) then 1
    else if exists k :: k in s.mustNotContain && Contains(path, k) then 2
    else if s.mustContain != {} && !(exists k :: k in s.mustContain && Contains(path, k)) then 2
    else if BelowBottom(s, path) then 2
    else if DontRecurseDir(s, path) then 3
    else 0
  }

  /**
   * `Rate` under fixed settings, as a plain function value: what the
   * directory walk consults without looking inside the decision.
   */
  function Rating(s: FilterSettings): string -> int
  {
    p => Rate(s, p)
  }

  /** Must-contain is a disjunction: a single required keyword in the path is enough to pass that test. */
  lemma OneRequiredKeywordSuffices(s: FilterSettings, path: string, keyword: string)
    requires keyword in s.mustContain && Contains(path, keyword)
    requires !IgnoredDir(s, path) && !BelowBottom(s, path)
    requires forall k :: k in s.mustNotContain ==> !Contains(path, k)
    ensures Rate(s, path) == 0 || Rate(s, path) == 3
  {
  }

  class Filters {
    var mustContain: set<string>
    var mustNotContain: set<string>
    var ignoredDirs: set<string>
    var ignoredFiles: set<string>
    var ignoredFilesDirs: set<string>
    var dontRecurseBeyond: set<string>
    var ignoreBelowBottom: bool
    var lowestRung: Option<int>

    constructor ()
      ensures mustContain == {} && mustNotContain == {} && ignoredDirs == {}
      ensures ignoredFiles == {} && ignoredFilesDirs == {} && dontRecurseBeyond == {}
      ensures !ignoreBelowBottom && lowestRung.None?
    {
      mustContain := {};
      mustNotContain := {};
      ignoredDirs := {};
      ignoredFiles := {};
      ignoredFilesDirs := {};
      dontRecurseBeyond := {};
      ignoreBelowBottom := false;
      lowestRung := None;
    }

    /** `preprocess_ignored_files`: the directory of every ignored file joins `ignored_files_dirs`. */
    method PreprocessIgnoredFiles()
      modifies this`ignoredFilesDirs
      ensures ignoredFilesDirs == old(ignoredFilesDirs) + set f | f in ignoredFiles :: DirName(f)
    {
      var todo := ignoredFiles;
      while todo != {}
        invariant todo <= ignoredFiles
        invariant ignoredFilesDirs == old(ignoredFilesDirs) + set f | f in ignoredFiles - todo :: DirName(f)
        decreases |todo|
      {
        var ignored :| ignored in todo;
        ignoredFilesDirs := ignoredFilesDirs + {DirName(ignored)};
        todo := todo - {ignored};
      }
    }

    /** `configure_ignore_below_bottom`: the lowest rung is the smallest mode level when enabled with a non-empty mode. */
    method ConfigureIgnoreBelowBottom(enabled: bool, mode: Option<ModeTable>)
      modifies this`ignoreBelowBottom, this`lowestRung
      ensures ignoreBelowBottom == enabled
      ensures enabled && mode.Some? && mode.value != map[] ==>
        lowestRung.Some? && lowestRung.value in mode.value &&
        forall k :: k in mode.value ==> lowestRung.value <= k
      ensures !(enabled && mode.Some? && mode.value != map[]) ==> lowestRung.None?
    {
      ignoreBelowBottom := enabled;
      if enabled && mode.Some? && mode.value != map[] {
        lowestRung := Some(MinKey(mode.value));
      } else {
        lowestRung := None;
      }
    }

    method AddMustContain(keyword: string)
      modifies this`mustContain
      ensures mustContain == old(mustContain) + {keyword}
    {
      mustContain := mustContain + {keyword};
    }

    method AddMustNotContain(keyword: string)
      modifies this`mustNotContain
      ensures mustNotContain == old(mustNotContain) + {keyword}
    {
      mustNotContain := mustNotContain + {keyword};
    }

    method AddIgnoredDir(directory: string)
      modifies this`ignoredDirs
      ensures ignoredDirs == old(ignoredDirs) + {directory}
    {
      ignoredDirs := ignoredDirs + {directory};
    }

    method AddIgnoredFile(file: string)
      modifies this`ignoredFiles
      ensures ignoredFiles == old(ignoredFiles) + {file}
    {
      ignoredFiles := ignoredFiles + {file};
    }

    method AddDontRecurseBeyondFolder(folder: string)
      modifies this`dontRecurseBeyond
      ensures dontRecurseBeyond == old(dontRecurseBeyond) + {folder}
    {
      dontRecurseBeyond := dontRecurseBeyond + {folder};
    }

    /** The settings `passes` consults, as a value. */
    function Settings(): FilterSettings
      reads this
    {
      FilterSettings(mustContain, mustNotContain, ignoredDirs, dontRecurseBeyond, ignoreBelowBottom, lowestRung)
    }

    /** `passes(path)` */
    function Passes(path: string): int
      reads this
    {
      Rate(Settings(), path)
    }
  }
}
