/**
 * `MultiSourceBuilder` (`enkan/utils/input/MultiSourceBuilder.py`): every
 * input is turned into a tree by the builder for its kind, the target mode
 * is fixed by the command line or else by the first tree that reports one,
 * and several trees are merged left to right and weighed once.
 *
 * Locating a file and running its builder are outside the model: each
 * entry arrives with the tree its builder produced, or None when the tree
 * was stale, unreadable or not produced.
 */
module MultiSource {
  import opened Common
  import opened Modes
  import opened Nodes
  import opened Proportions
  import opened TreeModel
  import opened InputModels
  import Merging
  import TreeLogic
  import Weights

  /** One input: its resolved path and what its builder returned. */
  datatype InputEntry = InputEntry(path: string, loaded: Option<Tree>)

  /** What `build` returns: the tree, if any, and the warnings. */
  datatype BuildResult = BuildResult(tree: Option<Tree>, warnings: seq<string>)

  /** `_extract_tree_mode`: the tree's built mode when it is a non-empty table (`Tree` has no mode string to fall back on). */
  function ExtractTreeMode(t: Tree): (r: Option<ModeTable>)
    reads t
    ensures r.Some? <==> TruthyMode(t.builtMode)
    ensures r.Some? ==> r == t.builtMode
  {
    if TruthyMode(t.builtMode) then t.builtMode else None
  }

  /** The tree `build` keeps for an entry: the kind match has no folder case, so a folder never yields one. */
  function EntryTree(e: InputEntry): (r: Option<Tree>)
    ensures ClassifyInputPath(e.path) == Folder ==> r.None?
    ensures ClassifyInputPath(e.path) != Folder ==> r == e.loaded
  {
    match ClassifyInputPath(e.path)
    case Folder => None
    case _ => e.loaded
  }

  /** The trees that become sources, in input order. */
  function LoadedTrees(es: seq<InputEntry>): (r: seq<Tree>)
    ensures |r| <= |es|
  {
    if es == [] then []
    else
      var last := es[|es| - 1];
      LoadedTrees(es[..|es| - 1]) + (if EntryTree(last).Some? then [EntryTree(last).value] else [])
  }

  /** Every tree an entry arrived with. */
  function EntryTrees(es: seq<InputEntry>): set<Tree>
  {
    set e | e in es && e.loaded.Some? :: e.loaded.value
  }

  /** Every kept tree is one the entries arrived with. */
  lemma {:induction false} LoadedAreEntries(es: seq<InputEntry>)
    ensures forall k | 0 <= k < |LoadedTrees(es)| :: LoadedTrees(es)[k] in EntryTrees(es)
  {
    if es != [] {
      var n := |es| - 1;
      LoadedAreEntries(es[..n]);
      assert forall t | t in EntryTrees(es[..n]) :: t in EntryTrees(es);
    }
  }

  /** The built mode of every tree the entries arrived with, as `build` reads it. */
  ghost function BuiltModes(es: seq<InputEntry>): map<Tree, Option<ModeTable>>
    reads EntryTrees(es)
  {
    map t | t in EntryTrees(es) :: t.builtMode
  }

  /** The `LoadedSource` appended for the entry at `idx`, if its tree was kept; `modes` holds the trees' built modes. */
  function SourceFor(e: InputEntry, idx: nat, modes: map<Tree, Option<ModeTable>>): (r: seq<LoadedSource>)
  {
    match EntryTree(e)
    case None => []
    case Some(t) => [LoadedSource(e.path, ClassifyInputPath(e.path), idx, Some(t), if t in modes then modes[t] else None, [])]
  }

  /** The sources `build` collects: one per kept tree, in input order. */
  function SourcesOf(es: seq<InputEntry>, modes: map<Tree, Option<ModeTable>>): (r: seq<LoadedSource>)
  {
    if es == [] then []
    else
      var n := |es| - 1;
      SourcesOf(es[..n], modes) + SourceFor(es[n], n, modes)
  }

  /** The source carries tree `t` and no warnings. */
  predicate Holds(s: LoadedSource, t: Tree)
  {
    s.tree == Some(t) && s.warnings == []
  }

  /** Each source holds the kept tree at its position, and no warnings. */
  lemma {:induction false} SourcesHoldTrees(es: seq<InputEntry>, modes: map<Tree, Option<ModeTable>>)
    ensures |SourcesOf(es, modes)| == |LoadedTrees(es)|
    ensures forall k | 0 <= k < |SourcesOf(es, modes)| :: Holds(SourcesOf(es, modes)[k], LoadedTrees(es)[k])
  {
    if es != [] {
      var n := |es| - 1;
      SourcesHoldTrees(es[..n], modes);
      var front, back := SourcesOf(es[..n], modes), LoadedTrees(es[..n]);
      match EntryTree(es[n])
      case None =>
        assert SourcesOf(es, modes) == front + [];
        assert LoadedTrees(es) == back + [];
        HoldsAppend(front, back, [], []);
      case Some(t) =>
        var piece := SourceFor(es[n], n, modes);
        assert SourcesOf(es, modes) == front + piece;
        assert LoadedTrees(es) == back + [t];
        assert Holds(piece[0], t);
        HoldsAppend(front, back, piece, [t]);
    }
  }

  /** Pairing sources with trees survives concatenation. */
  lemma HoldsAppend(ss: seq<LoadedSource>, ts: seq<Tree>, ss2: seq<LoadedSource>, ts2: seq<Tree>)
    requires |ss| == |ts| && forall k | 0 <= k < |ss| :: Holds(ss[k], ts[k])
    requires |ss2| == |ts2| && forall k | 0 <= k < |ss2| :: Holds(ss2[k], ts2[k])
    ensures |ss + ss2| == |ts + ts2| && forall k | 0 <= k < |ss + ss2| :: Holds((ss + ss2)[k], (ts + ts2)[k])
  {
    forall k | 0 <= k < |ss + ss2| ensures Holds((ss + ss2)[k], (ts + ts2)[k]) {
      if k < |ss| {
        assert (ss + ss2)[k] == ss[k] && (ts + ts2)[k] == ts[k];
      } else {
        assert (ss + ss2)[k] == ss2[k - |ss|] && (ts + ts2)[k] == ts2[k - |ss|];
      }
    }
  }

  /** The mode a source reports to `_apply_mode_precedence`. */
  function ModeOf(s: LoadedSource): Option<ModeTable>
  {
    if s.tree.Some? && TruthyMode(s.mode) then s.mode else None
  }

  /** The mode of the first source that reports one. */
  function FirstMode(ss: seq<LoadedSource>): (r: Option<ModeTable>)
    ensures r.Some? ==> TruthyMode(r)
  {
    if ss == [] then None
    else if ModeOf(ss[0]).Some? then ModeOf(ss[0])
    else FirstMode(ss[1..])
  }

  /** `FirstMode` is the mode of the earliest reporting source, and None when none reports. */
  lemma {:induction false} FirstModeSpec(ss: seq<LoadedSource>)
    ensures FirstMode(ss).None? <==> forall k | 0 <= k < |ss| :: ModeOf(ss[k]).None?
    ensures FirstMode(ss).Some? ==>
      exists k | 0 <= k < |ss| :: ModeOf(ss[k]) == FirstMode(ss) && forall j | 0 <= j < k :: ModeOf(ss[j]).None?
  {
    if ss != [] && ModeOf(ss[0]).None? {
      var tail := ss[1..];
      FirstModeSpec(tail);
      assert forall j | 0 <= j < |tail| :: tail[j] == ss[j + 1];
      if FirstMode(tail).Some? {
        var k :| 0 <= k < |tail| && ModeOf(tail[k]) == FirstMode(tail) && forall j | 0 <= j < k :: ModeOf(tail[j]).None?;
        assert ModeOf(ss[k + 1]) == FirstMode(ss);
        assert forall j | 0 <= j < k + 1 :: ModeOf(ss[j]).None? by {
          forall j | 0 <= j < k + 1 ensures ModeOf(ss[j]).None? {
            if j > 0 { assert ss[j] == tail[j - 1]; }
          }
        }
      } else {
        assert forall k | 0 <= k < |ss| :: ModeOf(ss[k]).None? by {
          forall k | 0 <= k < |ss| ensures ModeOf(ss[k]).None? {
            if k > 0 { assert ss[k] == tail[k - 1]; }
          }
        }
      }
    }
  }

  /** A source appended after the first reporting one changes nothing; otherwise its own mode is the first. */
  lemma {:induction false} FirstModeAppend(ss: seq<LoadedSource>, s: LoadedSource)
    ensures FirstMode(ss + [s]) == if FirstMode(ss).Some? then FirstMode(ss) else ModeOf(s)
  {
    if ss != [] {
      assert (ss + [s])[1..] == ss[1..] + [s];
      FirstModeAppend(ss[1..], s);
    }
  }

  /** The first reporting source decides, whatever follows it. */
  lemma FirstModeUnique(ss: seq<LoadedSource>, k: nat)
    requires k < |ss| && ModeOf(ss[k]).Some? && forall j | 0 <= j < k :: ModeOf(ss[j]).None?
    ensures FirstMode(ss) == ModeOf(ss[k])
  {
    FirstModeSpec(ss);
    assert FirstMode(ss).Some?;
    var i :| 0 <= i < |ss| && ModeOf(ss[i]) == FirstMode(ss) && forall j | 0 <= j < i :: ModeOf(ss[j]).None?;
    assert i == k;
  }

  /** `_apply_mode_precedence`: without a command-line mode the first source with a tree and a mode sets the global mode. */
  method ApplyModePrecedence(d: Defaults, sources: seq<LoadedSource>)
    modifies d`globalMode, d`globalIsRandom, d`globalDontRecurse
    ensures d.globalIsRandom == old(d.globalIsRandom) && d.globalDontRecurse == old(d.globalDontRecurse)
    ensures d.globalMode == (if d.argsMode.None? && FirstMode(sources).Some? then FirstMode(sources) else old(d.globalMode))
  {
    if d.argsMode.Some? {
      return;
    }
    var i := 0;
    while i < |sources|
      invariant 0 <= i <= |sources|
      invariant forall j | 0 <= j < i :: ModeOf(sources[j]).None?
    {
      var src := sources[i];
      if src.tree.Some? && TruthyMode(src.mode) {
        FirstModeUnique(sources, i);
        d.SetGlobalDefaults(src.mode, None, None);
        return;
      }
      i := i + 1;
    }
    FirstModeSpec(sources);
  }

  /** The sources as the merger receives them. */
  function TreesOf(ss: seq<LoadedSource>): (r: seq<Option<Tree>>)
    ensures |r| == |ss| && forall k | 0 <= k < |ss| :: r[k] == ss[k].tree
  {
    if ss == [] then [] else [ss[0].tree] + TreesOf(ss[1..])
  }

  /** The first kept tree, as a frame. */
  function FirstTree(ts: seq<Tree>): set<Tree>
  {
    if ts == [] then {} else {ts[0]}
  }

  /** The sources gathered so far grow by the entry at `i`. */
  lemma SourcesStep(es: seq<InputEntry>, i: nat, modes: map<Tree, Option<ModeTable>>)
    requires i < |es|
    ensures SourcesOf(es[..i + 1], modes) == SourcesOf(es[..i], modes) + SourceFor(es[i], i, modes)
  {
    assert es[..i + 1][..i] == es[..i];
  }

  /** `_harmonise_tree_mode` acts on source `s` under the target mode: it is not a `.txt` source and its tree reports another mode. */
  predicate Clashes(s: LoadedSource, target: Option<ModeTable>)
  {
    s.kind != Txt && ModeOf(s) != target
  }

  /** Some source of `ss` clashes with the target mode. */
  function AnyClash(ss: seq<LoadedSource>, target: Option<ModeTable>): (r: bool)
    ensures r <==> exists k | 0 <= k < |ss| :: Clashes(ss[k], target)
  {
    if ss == [] then false
    else
      var front := ss[..|ss| - 1];
      assert forall k | 0 <= k < |front| :: front[k] == ss[k];
      AnyClash(front, target) || Clashes(ss[|ss| - 1], target)
  }

  /**
   * The global mode after the loop of `build`: with a command-line mode,
   * that mode once some non-`.txt` source reports another one; otherwise
   * the mode of the first source that reports one; else what it was.
   */
  function CollectedMode(argsMode: Option<ModeTable>, ss: seq<LoadedSource>, before: Option<ModeTable>): Option<ModeTable>
  {
    if TruthyMode(argsMode) then (if AnyClash(ss, argsMode) then argsMode else before)
    else if FirstMode(ss).Some? then FirstMode(ss)
    else before
  }

  /**
   * The loop of `build` over the inputs: the target mode starts as the
   * command-line mode; while it is empty, the first kept tree with a mode
   * replaces it and writes it to the global defaults; a kept non-`.txt`
   * tree reporting another mode than a non-empty target writes the target
   * to the global defaults.
   */
  method CollectSources(d: Defaults, entries: seq<InputEntry>) returns (sources: seq<LoadedSource>)
    modifies d`globalMode, d`globalIsRandom, d`globalDontRecurse
    ensures d.globalIsRandom == old(d.globalIsRandom) && d.globalDontRecurse == old(d.globalDontRecurse)
    ensures sources == SourcesOf(entries, old(BuiltModes(entries)))
    ensures d.globalMode == CollectedMode(d.argsMode, sources, old(d.globalMode))
  {
    ghost var modes := BuiltModes(entries);
    assert entries[..|entries|] == entries;
    sources := [];
    var targetMode := d.argsMode;
    ghost var first: Option<ModeTable> := None;
    ghost var mode0, random0, recurse0 := d.globalMode, d.globalIsRandom, d.globalDontRecurse;
    var idx := 0;
    while idx < |entries|
      invariant 0 <= idx <= |entries|
      invariant sources == SourcesOf(entries[..idx], modes)
      invariant first == FirstMode(sources)
      invariant targetMode == (if TruthyMode(d.argsMode) || first.None? then d.argsMode else first)
      invariant d.globalMode == CollectedMode(d.argsMode, sources, mode0)
      invariant d.globalIsRandom == random0 && d.globalDontRecurse == recurse0
    {
      var entry := entries[idx];
      assert entry in entries;
      SourcesStep(entries, idx, modes);
      var piece;
      piece, targetMode := CollectEntry(d, entry, idx, targetMode, modes);
      FirstModeConcat(sources, piece);
      ClashConcat(sources, piece, targetMode);
      sources := sources + piece;
      if first.None? {
        first := FirstMode(piece);
      }
      idx := idx + 1;
    }
  }

  /**
   * The body of the loop of `build` for one entry: its source, if it keeps
   * a tree, and the target mode after it; the global mode takes a mode the
   * target adopts, and the target when the source clashes with it.
   */
  method CollectEntry(d: Defaults, entry: InputEntry, idx: nat, targetMode: Option<ModeTable>,
                      ghost modes: map<Tree, Option<ModeTable>>)
    returns (piece: seq<LoadedSource>, newTarget: Option<ModeTable>)
    requires EntryTree(entry).Some? ==>
      EntryTree(entry).value in modes && modes[EntryTree(entry).value] == EntryTree(entry).value.builtMode
    modifies d`globalMode, d`globalIsRandom, d`globalDontRecurse
    ensures piece == SourceFor(entry, idx, modes)
    ensures var adopt := FirstMode(piece).Some? && !TruthyMode(targetMode);
      newTarget == (if adopt then FirstMode(piece) else targetMode) &&
      d.globalMode == (if adopt then FirstMode(piece)
                       else if TruthyMode(newTarget) && AnyClash(piece, newTarget) then newTarget
                       else old(d.globalMode))
    ensures d.globalIsRandom == old(d.globalIsRandom) && d.globalDontRecurse == old(d.globalDontRecurse)
  {
    var kind := ClassifyInputPath(entry.path);
    var tree: Option<Tree> := None;
    match kind {
      case TreeFile => tree := entry.loaded;
      case Lst => tree := entry.loaded;
      case Txt => tree := entry.loaded;
      case _ =>
    }
    assert tree == EntryTree(entry);
    newTarget := targetMode;
    piece := [];
    if tree.Some? {
      var inferred := ExtractTreeMode(tree.value);
      newTarget := AdoptMode(d, targetMode, inferred);
      if kind != Txt && TruthyMode(newTarget) {
        Harmonise(d, tree.value, newTarget);
      }
      piece := [LoadedSource(entry.path, kind, idx, tree, tree.value.builtMode, [])];
      assert ModeOf(piece[0]) == inferred;
      assert FirstMode(piece) == inferred by { assert piece[1..] == []; }
      assert AnyClash(piece, newTarget) == Clashes(piece[0], newTarget) by { assert piece[..0] == []; }
    }
  }

  /** `FirstMode` over a concatenation. */
  lemma {:induction false} FirstModeConcat(ss: seq<LoadedSource>, extra: seq<LoadedSource>)
    requires |extra| <= 1
    ensures FirstMode(ss + extra) == if FirstMode(ss).Some? then FirstMode(ss) else FirstMode(extra)
  {
    if extra == [] {
      assert ss + extra == ss;
    } else {
      assert extra == [extra[0]];
      FirstModeAppend(ss, extra[0]);
      assert extra[1..] == [];
    }
  }

  /**
   * `_harmonise_tree_mode`: a tree reporting another mode than the target
   * has the target written to the global defaults; the recalculation that
   * follows is not part of this model.
   */
  method Harmonise(d: Defaults, t: Tree, target: Option<ModeTable>)
    modifies d`globalMode, d`globalIsRandom, d`globalDontRecurse
    ensures d.globalMode == (if ExtractTreeMode(t) == target || target.None? then old(d.globalMode) else target)
    ensures d.globalIsRandom == old(d.globalIsRandom) && d.globalDontRecurse == old(d.globalDontRecurse)
  {
    var current := ExtractTreeMode(t);
    if current == target {
      return;
    }
    d.SetGlobalDefaults(target, None, None);
  }

  /** `AnyClash` over a concatenation. */
  lemma ClashConcat(ss: seq<LoadedSource>, extra: seq<LoadedSource>, target: Option<ModeTable>)
    ensures AnyClash(ss + extra, target) == (AnyClash(ss, target) || AnyClash(extra, target))
  {
    var all := ss + extra;
    assert forall k | 0 <= k < |ss| :: all[k] == ss[k];
    assert forall k | 0 <= k < |extra| :: all[|ss| + k] == extra[k];
  }

  /** A tree's mode replaces an empty target mode and becomes the global mode. */
  method AdoptMode(d: Defaults, targetMode: Option<ModeTable>, inferred: Option<ModeTable>) returns (r: Option<ModeTable>)
    modifies d`globalMode, d`globalIsRandom, d`globalDontRecurse
    ensures r == (if inferred.Some? && !TruthyMode(targetMode) then inferred else targetMode)
    ensures d.globalMode == (if inferred.Some? && !TruthyMode(targetMode) then inferred else old(d.globalMode))
    ensures d.globalIsRandom == old(d.globalIsRandom) && d.globalDontRecurse == old(d.globalDontRecurse)
  {
    r := targetMode;
    if inferred.Some? && !TruthyMode(targetMode) {
      r := inferred;
      d.SetGlobalDefaults(r, None, None);
    }
  }

  /**
   * `build`. No source gives `(None, [])`, one source is returned as it
   * is, and several are merged into the first and weighed once (a
   * command-line mode stays the effective one: `CliModeWins`).
   */
  method Build(d: Defaults, entries: seq<InputEntry>, pow: Power)
    returns (r: Result<BuildResult>, ghost merged: Option<map<NodeId, NodeInfo>>)
    requires forall k | 0 <= k < |LoadedTrees(entries)| :: LoadedTrees(entries)[k].Valid()
    requires forall k | 1 <= k < |LoadedTrees(entries)| :: LoadedTrees(entries)[k] != LoadedTrees(entries)[0]
    modifies d`globalMode, d`globalIsRandom, d`globalDontRecurse, FirstTree(LoadedTrees(entries))
    ensures d.globalIsRandom == old(d.globalIsRandom) && d.globalDontRecurse == old(d.globalDontRecurse)
    ensures d.globalMode == CollectedMode(d.argsMode, SourcesOf(entries, old(BuiltModes(entries))), old(d.globalMode))
    ensures |LoadedTrees(entries)| == 0 ==> r == Ok(BuildResult(None, []))
    ensures |LoadedTrees(entries)| == 1 ==>
      r == Ok(BuildResult(Some(LoadedTrees(entries)[0]), [])) && unchanged(LoadedTrees(entries)[0])
    ensures |LoadedTrees(entries)| >= 2 && r.Ok? ==>
      r.value == BuildResult(Some(LoadedTrees(entries)[0]), []) && LoadedTrees(entries)[0].Valid()
    ensures |LoadedTrees(entries)| >= 2 && merged.None? ==> r.Err?
    ensures |LoadedTrees(entries)| >= 2 && merged.Some? ==>
      var base := LoadedTrees(entries)[0];
      Fits(base.links, merged.value) && base.root in base.links.up &&
      (if r.Ok? then None else Some(r.error), base.info) ==
        Weights.CalculateWeights(base.links, merged.value, base.root, base.defaults.Mode(), false, pow)
    ensures r.Err? ==> r.error.ValueError?
  {
    ghost var modes := BuiltModes(entries);
    SourcesHoldTrees(entries, modes);
    ghost var trees := LoadedTrees(entries);
    LoadedAreEntries(entries);
    assert forall k | 0 <= k < |trees| :: allocated(trees[k]);
    assert forall k | 0 <= k < |trees| :: (trees[k] as object) != d;
    var sources := CollectSources(d, entries);
    assert sources == SourcesOf(entries, modes);
    assert forall k | 0 <= k < |trees| :: trees[k].Valid();
    ghost var views, runs;
    r, merged, views, runs := Finish(d, sources, trees, pow);
  }

  /** The end of `build` once the sources are collected, `trees` being the tree of each. */
  method Finish(d: Defaults, sources: seq<LoadedSource>, ghost trees: seq<Tree>, pow: Power)
    returns (r: Result<BuildResult>, ghost merged: Option<map<NodeId, NodeInfo>>,
             ghost views: seq<Option<Merging.View>>, ghost runs: seq<Merging.Run>)
    requires |sources| == |trees|
    requires forall k | 0 <= k < |sources| :: Holds(sources[k], trees[k])
    requires forall k | 0 <= k < |trees| :: trees[k].Valid()
    requires forall k | 1 <= k < |trees| :: trees[k] != trees[0]
    modifies d`globalMode, d`globalIsRandom, d`globalDontRecurse, FirstTree(trees)
    ensures d.globalIsRandom == old(d.globalIsRandom) && d.globalDontRecurse == old(d.globalDontRecurse)
    ensures d.globalMode == (if d.argsMode.None? && |sources| >= 2 && FirstMode(sources).Some? then FirstMode(sources) else old(d.globalMode))
    ensures |trees| == 0 ==> r == Ok(BuildResult(None, []))
    ensures |trees| == 1 ==> r == Ok(BuildResult(Some(trees[0]), [])) && unchanged(trees[0])
    ensures |trees| >= 2 && r.Ok? ==> r.value == BuildResult(Some(trees[0]), []) && trees[0].Valid()
    ensures |trees| >= 2 && merged.None? ==> r.Err?
    ensures |trees| >= 2 && merged.Some? ==>
      var base := trees[0];
      Fits(base.links, merged.value) && base.root in base.links.up &&
      (if r.Ok? then None else Some(r.error), base.info) ==
        Weights.CalculateWeights(base.links, merged.value, base.root, base.defaults.Mode(), false, pow)
    ensures |trees| >= 2 && merged.Some? ==>
      var base := trees[0];
      |views| == |trees| && (forall k | 0 <= k < |trees| :: views[k] == if k >= 1 then Some(old(Merging.ViewOf(trees[k]))) else None) &&
      Merging.MergedAll(views, runs, old(base.links.up), old(base.info), old(base.pathLookup),
                        base.links.up, merged.value, base.pathLookup)
    ensures r.Err? ==> r.error.ValueError?
  {
    merged := None;
    if |sources| == 0 {
      return Ok(BuildResult(None, [])), merged, [], [];
    }
    if |sources| == 1 {
      assert sources[0].tree == Some(trees[0]) && sources[0].warnings == [];
      assert [] + sources[0].warnings == [];
      return Ok(BuildResult(sources[0].tree, [] + sources[0].warnings)), merged, [], [];
    }
    assert forall k | 0 <= k < |sources| :: sources[k].tree == Some(trees[k]);
    r, merged, views, runs := MergeAndWeigh(d, sources, trees[0], pow);
  }

  /**
   * The several-source tail of `build`: mode precedence, then the merge
   * and the weight calculation of `MergeTrees`.
   */
  method MergeAndWeigh(d: Defaults, sources: seq<LoadedSource>, ghost base: Tree, pow: Power)
    returns (r: Result<BuildResult>, ghost merged: Option<map<NodeId, NodeInfo>>,
             ghost views: seq<Option<Merging.View>>, ghost runs: seq<Merging.Run>)
    requires |sources| >= 2 && sources[0].tree == Some(base)
    requires forall k | 0 <= k < |sources| :: sources[k].tree.Some? && sources[k].tree.value.Valid()
    requires forall k | 1 <= k < |sources| :: sources[k].tree.value != sources[0].tree.value
    modifies d`globalMode, d`globalIsRandom, d`globalDontRecurse, base
    ensures d.globalIsRandom == old(d.globalIsRandom) && d.globalDontRecurse == old(d.globalDontRecurse)
    ensures d.globalMode == (if d.argsMode.None? && FirstMode(sources).Some? then FirstMode(sources) else old(d.globalMode))
    ensures r.Ok? ==> r.value == BuildResult(Some(base), []) && base.Valid()
    ensures merged.None? ==> r.Err?
    ensures merged.Some? ==>
      Fits(base.links, merged.value) && base.root in base.links.up &&
      (if r.Ok? then None else Some(r.error), base.info) ==
        Weights.CalculateWeights(base.links, merged.value, base.root, base.defaults.Mode(), false, pow)
    ensures merged.Some? ==>
      |views| == |sources| && (forall k | 0 <= k < |sources| :: views[k] == if k >= 1 then Some(old(Merging.ViewOf(sources[k].tree.value))) else None) &&
      Merging.MergedAll(views, runs, old(base.links.up), old(base.info), old(base.pathLookup),
                        base.links.up, merged.value, base.pathLookup)
    ensures r.Err? ==> r.error.ValueError?
  {
    ApplyModePrecedence(d, sources);
    ghost var mode1, random1, recurse1 := d.globalMode, d.globalIsRandom, d.globalDontRecurse;
    assert forall k | 0 <= k < |sources| :: (sources[k].tree.value as object) != d;
    r, merged, views, runs := MergeTrees(TreesOf(sources), pow);
    assert d.globalMode == mode1 && d.globalIsRandom == random1 && d.globalDontRecurse == recurse1;
  }

  /** `TreeMerger().merge` on the loaded trees, with what the builder goes on to use: the first tree, still valid, and no warnings. */
  method MergeSources(trees: seq<Option<Tree>>)
    returns (r: Result<Merging.MergeResult>, ghost views: seq<Option<Merging.View>>, ghost runs: seq<Merging.Run>)
    requires |trees| >= 2
    requires forall k | 0 <= k < |trees| :: trees[k].Some? && trees[k].value.Valid()
    requires forall k | 1 <= k < |trees| :: trees[k].value != trees[0].value
    modifies trees[0].value
    ensures r.Ok? ==> r.value.tree == trees[0].value && r.value.tree.Valid() && r.value.warnings == []
    ensures r.Ok? ==>
      |views| == |trees| &&
      forall k | 0 <= k < |trees| :: views[k] == if k >= 1 && trees[k].Some? then Some(old(Merging.ViewOf(trees[k].value))) else None
    ensures r.Ok? ==>
      var t := r.value.tree;
      Merging.Merged(views, runs, old(t.links.up), old(t.info), old(t.pathLookup), t.links.up, t.info, t.pathLookup,
                     r.value.addedNodes, r.value.updatedNodes)
    ensures r.Err? ==> r.error.ValueError?
  {
    r, views, runs := Merging.Merge(trees);
  }

  /** `merge_trees` of the sources into the first, then one weight calculation on the result. */
  method MergeTrees(trees: seq<Option<Tree>>, pow: Power)
    returns (r: Result<BuildResult>, ghost merged: Option<map<NodeId, NodeInfo>>,
             ghost views: seq<Option<Merging.View>>, ghost runs: seq<Merging.Run>)
    requires |trees| >= 2
    requires forall k | 0 <= k < |trees| :: trees[k].Some? && trees[k].value.Valid()
    requires forall k | 1 <= k < |trees| :: trees[k].value != trees[0].value
    modifies trees[0].value
    ensures r.Ok? ==> r.value == BuildResult(trees[0], [])
    ensures r.Ok? ==> trees[0].value.Valid()
    ensures merged.None? ==> r.Err?
    ensures merged.Some? ==>
      var base := trees[0].value;
      Fits(base.links, merged.value) && base.root in base.links.up &&
      (if r.Ok? then None else Some(r.error), base.info) ==
        Weights.CalculateWeights(base.links, merged.value, base.root, base.defaults.Mode(), false, pow)
    ensures merged.Some? ==>
      var base := trees[0].value;
      |views| == |trees| && (forall k | 0 <= k < |trees| :: views[k] == if k >= 1 && trees[k].Some? then Some(old(Merging.ViewOf(trees[k].value))) else None) &&
      Merging.MergedAll(views, runs, old(base.links.up), old(base.info), old(base.pathLookup),
                        base.links.up, merged.value, base.pathLookup)
    ensures r.Err? ==> r.error.ValueError?
  {
    merged := None;
    var mr;
    mr, views, runs := MergeSources(trees);
    if mr.Err? {
      return Err(mr.error), merged, views, runs;
    }
    var result := mr.value;
    assert result.tree == trees[0].value && result.warnings == [];
    assert result.warnings + [] == [];
    merged := Some(result.tree.info);
    ghost var U, P := result.tree.links.up, result.tree.pathLookup;
    assert Merging.MergedAll(views, runs, old(result.tree.links.up), old(result.tree.info), old(result.tree.pathLookup),
                             U, merged.value, P);
    var err := TreeLogic.CalculateWeights(result.tree, false, pow);
    if err.Some? {
      // the message joins the warnings, and the error propagates
      return Err(err.value), merged, views, runs;
    }
    return Ok(BuildResult(Some(result.tree), result.warnings + [])), merged, views, runs;
  }

  /** An example of the precedence of `Modes.Defaults.Mode`: a command-line `b2` stays the balanced mode of level 2 whatever the sources report. */
  lemma CliModeWins(d: Defaults)
    requires d.argsMode == Some(ParseModeString("b2"))
    ensures d.Mode() == d.argsMode.value
    ensures 2 in d.Mode() && d.Mode()[2] == Entry("b", [0, 0])
  {
    var b := Block('b', "2", None, None);
    assert Render([b]) == "b2";
    ParseRendered([b], 2);
    assert LastBlock([b], 0);
  }
}
