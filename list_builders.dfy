/**
 * The two readers of `.lst` files: `TreeBuilderLST.build`
 * (`enkan/tree/TreeBuilderLST.py`), which makes one node per folder with a
 * proportion from the folder's summed weights, and `build_tree_from_list`
 * (`enkan/utils/input/list_tree_builder.py`), which makes one node per
 * image with a proportion among its siblings and weighs the tree. A line
 * is `path` or `path,weight`. Opening a file is a lookup in a map from path
 * to lines; a path not in the map is a file that cannot be opened.
 */
module ListBuilders {
  import opened Common
  import opened Scan
  import opened Paths
  import opened Modes
  import opened Nodes
  import opened TreeModel
  import Filtering
  import Proportions
  import Weights
  import TreeLogic

  /** A path with its weight or proportion. */
  type Entry = (string, real)

  // ------------------------------------------------------------ one line

  /** Blank lines and comments carry no entry. */
  predicate Skipped(line: string)
  {
    line == [] || line[0] == '#'
  }

  /**
   * The part both `_parse_list_line`s share: surrounding blanks, then
   * surrounding quotes, go; the rest is split at its last comma.
   */
  function ParseWeighted(line: string): (r: Entry)
    ensures r.1 > 0.0
  {
    SplitWeight(StripQuotes(Strip(line)))
  }

  /**
   * `l.rsplit(",", 1)`: the text after the last comma is the weight when it
   * parses as a number (a non-positive one counts as 1.0) and the text
   * before it, unblanked and unquoted, is the path; with no comma, or no
   * number after it, the whole of `l` is the path, with weight 1.0.
   */
  function SplitWeight(l: string): (r: Entry)
    ensures r.1 > 0.0
  {
    var c := LastIndexOf(l, ',');
    if c < 0 then (l, 1.0)
    else
      match ParseFloat(Strip(l[c + 1..]))
      case None => (l, 1.0)
      case Some(w) => (StripQuotes(Strip(l[..c])), if w > 0.0 then w else 1.0)
  }

  /** `TreeBuilderLST._parse_list_line` */
  function ParseLstLine(line: string): Option<Entry>
  {
    if Skipped(line) then None else Some(ParseWeighted(line))
  }

  /** `list_tree_builder._parse_list_line`: an empty path with weight 0.0 stands for "no entry". */
  function ParseListLine(line: string): Entry
  {
    if Skipped(line) then ("", 0.0) else ParseWeighted(line)
  }

  /** The two parsers agree on every line that is neither blank nor a comment, and on the others neither yields a path. */
  lemma ParsersAgree(line: string)
    ensures ParseLstLine(line).Some? <==> !Skipped(line)
    ensures ParseLstLine(line).Some? ==> ParseListLine(line) == ParseLstLine(line).value
    ensures ParseLstLine(line).None? ==> ParseListLine(line) == ("", 0.0)
  {
  }

  /** A line without a comma is its own path, with weight 1.0. */
  lemma PlainLine(line: string)
    requires !Skipped(line) && ',' !in StripQuotes(Strip(line))
    ensures ParseLstLine(line) == Some((StripQuotes(Strip(line)), 1.0))
  {
  }

  /** A path that needs no stripping, then a comma and a weight in digits: that path and that weight (1.0 for a zero). */
  lemma WeightedLine(path: string, n: nat)
    requires path != [] && !IsSpace(path[0]) && !IsSpace(path[|path| - 1])
    requires path[0] != '"' && path[|path| - 1] != '"' && path[0] != '#'
    ensures ParseLstLine(path + "," + NatToString(n)) == Some((path, if n > 0 then n as real else 1.0))
  {
    CleanLine(path, NatToString(n));
    SplitAtLastComma(path, n);
    NoBlanksAtEnds(path);
  }

  lemma SplitAtLastComma(path: string, n: nat)
    ensures SplitWeight(path + "," + NatToString(n)) == (StripQuotes(Strip(path)), if n > 0 then n as real else 1.0)
  {
    var d := NatToString(n);
    var l := path + "," + d;
    LastCommaAt(path, d);
    assert l[|path| + 1..] == d;
    assert l[..|path|] == path;
    NoBlanks(d);
    ParseFloatOfDigits(d);
    DecimalOfNatToString(n);
    SplitWeightAt(l, |path|, n as real);
  }

  lemma SplitWeightAt(l: string, c: nat, w: real)
    requires LastIndexOf(l, ',') == c && ParseFloat(Strip(l[c + 1..])) == Some(w)
    ensures SplitWeight(l) == (StripQuotes(Strip(l[..c])), if w > 0.0 then w else 1.0)
  {
  }

  lemma LastCommaAt(path: string, d: string)
    requires AllDigits(d)
    ensures LastIndexOf(path + "," + d, ',') == |path|
  {
    var l := path + "," + d;
    assert l[|path|] == ',';
  }

  /** Digits have no blank to strip. */
  lemma NoBlanks(d: string)
    requires d != [] && AllDigits(d)
    ensures Strip(d) == d
  {
    assert IsDigit(d[0]) && IsDigit(d[|d| - 1]);
  }

  /** A text that begins and ends with neither a blank nor a quote is left alone by both strips. */
  lemma NoBlanksAtEnds(s: string)
    requires s != [] && !IsSpace(s[0]) && !IsSpace(s[|s| - 1]) && s[0] != '"' && s[|s| - 1] != '"'
    ensures StripQuotes(Strip(s)) == s
  {
    StripWithKeeps(s, IsSpace);
    StripQuotesKeeps(s);
  }

  lemma CleanLine(path: string, d: string)
    requires path != [] && !IsSpace(path[0]) && !IsSpace(path[|path| - 1])
    requires path[0] != '"' && path[|path| - 1] != '"'
    requires d != [] && AllDigits(d)
    ensures StripQuotes(Strip(path + "," + d)) == path + "," + d
    ensures Skipped(path + "," + d) <==> path[0] == '#'
  {
    var line := path + "," + d;
    assert line[0] == path[0];
    assert line[|line| - 1] == d[|d| - 1] && IsDigit(d[|d| - 1]);
    NoBlanksAtEnds(line);
  }

  // ------------------------------------------------------------ a file

  /** What `TreeBuilderLST.build` takes from a raw line: the stripped line, parsed. */
  function LstEntryOf(raw: string): Option<Entry>
  {
    ParseLstLine(Strip(raw))
  }

  /** What `build_tree_from_list` takes from a raw line: the stripped line, parsed, unless its path is empty. */
  function ListEntryOf(raw: string): Option<Entry>
  {
    var e := ParseListLine(Strip(raw));
    if e.0 == "" then None else Some(e)
  }

  /** The entries `read` takes from the lines, in order. */
  function Entries(lines: seq<string>, read: string -> Option<Entry>): seq<Entry>
  {
    if lines == [] then []
    else
      Entries(lines[..|lines| - 1], read) +
      match read(lines[|lines| - 1])
      case None => []
      case Some(e) => [e]
  }

  predicate Positive(es: seq<Entry>)
  {
    forall k :: 0 <= k < |es| ==> es[k].1 > 0.0
  }

  /** Every entry `read` yields has a positive weight. */
  ghost predicate PositiveReader(read: string -> Option<Entry>)
  {
    forall raw :: read(raw).Some? ==> read(raw).value.1 > 0.0
  }

  /** Both readers yield positive weights only, and the list builder's never an empty path. */
  lemma ReadersPositive()
    ensures PositiveReader(LstEntryOf) && PositiveReader(ListEntryOf)
    ensures forall raw :: ListEntryOf(raw).Some? ==> ListEntryOf(raw).value.0 != ""
  {
  }

  lemma PositiveAppend(a: seq<Entry>, b: seq<Entry>)
    requires Positive(a) && Positive(b)
    ensures Positive(a + b)
  {
    assert forall k | |a| <= k < |a + b| :: (a + b)[k] == b[k - |a|];
  }

  /** A reader of positive weights reads a file into positive weights. */
  lemma {:induction false} EntriesPositive(lines: seq<string>, read: string -> Option<Entry>)
    requires PositiveReader(read)
    ensures Positive(Entries(lines, read))
  {
    if lines != [] {
      var last := read(lines[|lines| - 1]);
      EntriesPositive(lines[..|lines| - 1], read);
      PositiveAppend(Entries(lines[..|lines| - 1], read), if last.None? then [] else [last.value]);
    }
  }

  /** A file's entries: one per line the reader accepts, none for the others. */
  lemma {:induction false} EntriesCount(lines: seq<string>, read: string -> Option<Entry>)
    ensures |Entries(lines, read)| == Count(lines, read)
  {
    if lines != [] {
      EntriesCount(lines[..|lines| - 1], read);
    }
  }

  function Count(lines: seq<string>, read: string -> Option<Entry>): nat
  {
    if lines == [] then 0 else Count(lines[..|lines| - 1], read) + if read(lines[|lines| - 1]).Some? then 1 else 0
  }

  // ------------------------------------------------------------ grouping

  /** Entries grouped under a key, groups in the order their key first appeared. */
  type Groups = seq<(string, seq<Entry>)>

  /** `os.path.dirname(path) or "root"` */
  function DirKey(path: string): string
  {
    if DirName(path) == "" then RootName else DirName(path)
  }

  /** Where the group of `k` is, or -1. */
  function KeyIndex(g: Groups, k: string): (i: int)
    ensures -1 <= i < |g|
    ensures i >= 0 ==> g[i].0 == k
    ensures i < 0 ==> forall j :: 0 <= j < |g| ==> g[j].0 != k
  {
    if g == [] then -1 else if g[|g| - 1].0 == k then |g| - 1 else KeyIndex(g[..|g| - 1], k)
  }

  /** `grouped[key(path)].append(e)` on a `defaultdict(list)`: a new key goes last. */
  function Append(g: Groups, e: Entry, key: string -> string): Groups
  {
    var k := key(e.0);
    var i := KeyIndex(g, k);
    if i < 0 then g + [(k, [e])] else g[i := (k, g[i].1 + [e])]
  }

  function GroupBy(es: seq<Entry>, key: string -> string): Groups
  {
    if es == [] then [] else Append(GroupBy(es[..|es| - 1], key), es[|es| - 1], key)
  }

  /** The entries of `es` whose key is `k`, in order: the reference the grouping is checked against. */
  function InGroup(es: seq<Entry>, k: string, key: string -> string): seq<Entry>
  {
    if es == [] then []
    else InGroup(es[..|es| - 1], k, key) + if key(es[|es| - 1].0) == k then [es[|es| - 1]] else []
  }

  predicate DistinctKeys(g: Groups)
  {
    forall i, j :: 0 <= i < j < |g| ==> g[i].0 != g[j].0
  }

  /** A grouping of `es`: distinct keys, each group the entries with its key in order, and a group for every key that has entries. */
  ghost predicate Partitions(g: Groups, es: seq<Entry>, key: string -> string)
  {
    DistinctKeys(g) &&
    (forall i :: 0 <= i < |g| ==> g[i].1 == InGroup(es, g[i].0, key) && g[i].1 != []) &&
    (forall k :: KeyIndex(g, k) >= 0 <==> InGroup(es, k, key) != [])
  }

  /** Grouping partitions the entries: nothing lost, nothing duplicated, order kept within each group. */
  lemma {:induction false} GroupByPartitions(es: seq<Entry>, key: string -> string)
    ensures Partitions(GroupBy(es, key), es, key)
  {
    if es != [] {
      var init := es[..|es| - 1];
      var e := es[|es| - 1];
      GroupByPartitions(init, key);
      AppendPartitions(GroupBy(init, key), init, e, key);
      assert init + [e] == es;
    }
  }

  lemma InGroupSnoc(es: seq<Entry>, e: Entry, key: string -> string, k: string)
    ensures InGroup(es + [e], k, key) == InGroup(es, k, key) + if key(e.0) == k then [e] else []
  {
    assert (es + [e])[..|es|] == es;
  }

  lemma AppendPartitions(g: Groups, es: seq<Entry>, e: Entry, key: string -> string)
    requires Partitions(g, es, key)
    ensures Partitions(Append(g, e, key), es + [e], key)
  {
    var k := key(e.0);
    var i := KeyIndex(g, k);
    var g' := Append(g, e, key);
    var es' := es + [e];
    forall k2
      ensures InGroup(es', k2, key) == InGroup(es, k2, key) + if k == k2 then [e] else []
    {
      InGroupSnoc(es, e, key, k2);
    }
    if i < 0 {
      AppendNew(g, es, e, key);
    } else {
      AppendOld(g, es, e, key);
    }
  }

  lemma AppendNew(g: Groups, es: seq<Entry>, e: Entry, key: string -> string)
    requires Partitions(g, es, key) && KeyIndex(g, key(e.0)) < 0
    requires forall k2 :: InGroup(es + [e], k2, key) == InGroup(es, k2, key) + if key(e.0) == k2 then [e] else []
    ensures Partitions(Append(g, e, key), es + [e], key)
  {
    var k := key(e.0);
    var g' := g + [(k, [e])];
    assert InGroup(es, k, key) == [];
    forall k2
      ensures KeyIndex(g', k2) >= 0 <==> InGroup(es + [e], k2, key) != []
    {
      if k2 != k && KeyIndex(g', k2) >= 0 {
        assert g'[KeyIndex(g', k2)] == g[KeyIndex(g', k2)];
      }
    }
  }

  lemma AppendOld(g: Groups, es: seq<Entry>, e: Entry, key: string -> string)
    requires Partitions(g, es, key) && KeyIndex(g, key(e.0)) >= 0
    requires forall k2 :: InGroup(es + [e], k2, key) == InGroup(es, k2, key) + if key(e.0) == k2 then [e] else []
    ensures Partitions(Append(g, e, key), es + [e], key)
  {
    var k := key(e.0);
    var i := KeyIndex(g, k);
    assert Append(g, e, key) == g[i := (k, g[i].1 + [e])];
    AppendOldGroups(g, es, e, key, i);
    AppendOldIndex(g, es, e, key, i);
  }

  /** Extending the group at `i` keeps the keys distinct and every group the entries of its key. */
  lemma AppendOldGroups(g: Groups, es: seq<Entry>, e: Entry, key: string -> string, i: int)
    requires Partitions(g, es, key) && i == KeyIndex(g, key(e.0)) >= 0
    requires forall k2 :: InGroup(es + [e], k2, key) == InGroup(es, k2, key) + if key(e.0) == k2 then [e] else []
    ensures DistinctKeys(g[i := (key(e.0), g[i].1 + [e])])
    ensures forall j | 0 <= j < |g| ::
      g[i := (key(e.0), g[i].1 + [e])][j].1 == InGroup(es + [e], g[j].0, key) && InGroup(es + [e], g[j].0, key) != []
  {
    var g' := g[i := (key(e.0), g[i].1 + [e])];
    assert forall j | 0 <= j < |g'| :: g'[j].0 == g[j].0;
    forall j | 0 <= j < |g'|
      ensures g'[j].1 == InGroup(es + [e], g[j].0, key) && g'[j].1 != []
    {
      if j != i {
        assert g'[j] == g[j];
      }
    }
  }

  /** Extending the group at `i` leaves the set of keys with a group unchanged. */
  lemma AppendOldIndex(g: Groups, es: seq<Entry>, e: Entry, key: string -> string, i: int)
    requires Partitions(g, es, key) && i == KeyIndex(g, key(e.0)) >= 0
    requires forall k2 :: InGroup(es + [e], k2, key) == InGroup(es, k2, key) + if key(e.0) == k2 then [e] else []
    ensures forall k2 :: KeyIndex(g[i := (key(e.0), g[i].1 + [e])], k2) >= 0 <==> InGroup(es + [e], k2, key) != []
  {
    var g' := g[i := (key(e.0), g[i].1 + [e])];
    forall k2
      ensures KeyIndex(g', k2) >= 0 <==> InGroup(es + [e], k2, key) != []
    {
      var j := KeyIndex(g', k2);
      if j >= 0 {
        assert g'[j].0 == g[j].0;
      }
      if KeyIndex(g, k2) >= 0 {
        assert g'[KeyIndex(g, k2)].0 == k2;
      }
    }
  }

  /** The folder groups `TreeBuilderLST.build` reads from `lines`. */
  function LstGroups(lines: seq<string>): Groups
  {
    GroupBy(Entries(lines, LstEntryOf), DirKey)
  }

  /** The folder groups `build_tree_from_list` reads from `lines`. */
  function ListGroups(lines: seq<string>): Groups
  {
    GroupBy(Entries(lines, ListEntryOf), DirKey)
  }

  /** The read loop both builders share: each raw line read and, when it yields an entry, grouped under its key. */
  method GroupLines(lines: seq<string>, read: string -> Option<Entry>, key: string -> string) returns (g: Groups)
    ensures g == GroupBy(Entries(lines, read), key)
  {
    g := [];
    var i := 0;
    while i < |lines|
      invariant 0 <= i <= |lines|
      invariant g == GroupBy(Entries(lines[..i], read), key)
    {
      var parsed := read(lines[i]);
      assert lines[..i + 1][..i] == lines[..i];
      if parsed.Some? {
        assert Entries(lines[..i + 1], read) == Entries(lines[..i], read) + [parsed.value];
        GroupBySnoc(Entries(lines[..i], read), parsed.value, key);
        g := Append(g, parsed.value, key);
      } else {
        assert Entries(lines[..i + 1], read) == Entries(lines[..i], read) + [];
        assert Entries(lines[..i + 1], read) == Entries(lines[..i], read);
      }
      i := i + 1;
    }
    assert lines[..i] == lines;
  }

  lemma GroupBySnoc(es: seq<Entry>, e: Entry, key: string -> string)
    ensures GroupBy(es + [e], key) == Append(GroupBy(es, key), e, key)
  {
    assert (es + [e])[..|es|] == es;
  }

  // ------------------------------------------------------------ proportions

  /** `sum(w for _, w in entries)`: a positive total for a non-empty group of positive weights. */
  function GroupWeight(es: seq<Entry>): (r: real)
    ensures Positive(es) && es != [] ==> r > 0.0
  {
    if es == [] then 0.0
    else
      var init := es[..|es| - 1];
      assert Positive(es) ==> Positive(init);
      GroupWeight(init) + es[|es| - 1].1
  }

  /** `{dir: sum(weights)}`, in the order of the groups. */
  function DirWeights(g: Groups): (r: seq<real>)
    ensures |r| == |g|
  {
    if g == [] then [] else DirWeights(g[..|g| - 1]) + [GroupWeight(g[|g| - 1].1)]
  }

  /** `sum(dir_weights.values()) or len(dir_weights) or 1.0` */
  function TotalWeight(ws: seq<real>): (r: real)
    ensures r != 0.0
  {
    if SumReal(ws) != 0.0 then SumReal(ws) else if |ws| != 0 then |ws| as real else 1.0
  }

  /** `(w / total) * 100.0`: `w` as a percentage of `total`. */
  function Percent(w: real, total: real): real
    requires total != 0.0
  {
    w / total * 100.0
  }

  lemma PercentAdd(a: real, b: real, total: real)
    requires total != 0.0
    ensures Percent(a, total) + Percent(b, total) == Percent(a + b, total)
  {
  }

  lemma PercentOfWhole(total: real)
    requires total != 0.0
    ensures Percent(total, total) == 100.0
  {
  }

  /** The percentage of each weight. */
  function Shares(ws: seq<real>, total: real): (r: seq<real>)
    requires total != 0.0
    ensures |r| == |ws|
  {
    if ws == [] then [] else Shares(ws[..|ws| - 1], total) + [Percent(ws[|ws| - 1], total)]
  }

  lemma {:induction false} SharesSum(ws: seq<real>, total: real)
    requires total != 0.0
    ensures SumReal(Shares(ws, total)) == Percent(SumReal(ws), total)
  {
    if ws != [] {
      var init := ws[..|ws| - 1];
      var x := ws[|ws| - 1];
      SharesSum(init, total);
      var sh := Shares(ws, total);
      assert sh[..|sh| - 1] == Shares(init, total);
      PercentAdd(SumReal(init), x, total);
    }
  }

  lemma {:induction false} SharesAt(ws: seq<real>, total: real, i: nat)
    requires total != 0.0 && i < |ws|
    ensures Shares(ws, total)[i] == Percent(ws[i], total)
  {
    if i < |ws| - 1 {
      SharesAt(ws[..|ws| - 1], total, i);
    }
  }

  lemma {:induction false} SumPositive(ws: seq<real>)
    requires ws != [] && forall k :: 0 <= k < |ws| ==> ws[k] > 0.0
    ensures SumReal(ws) > 0.0
  {
    if |ws| > 1 {
      SumPositive(ws[..|ws| - 1]);
    }
  }

  lemma {:induction false} DirWeightsPositive(g: Groups)
    requires forall i :: 0 <= i < |g| ==> g[i].1 != [] && Positive(g[i].1)
    ensures forall k :: 0 <= k < |g| ==> DirWeights(g)[k] > 0.0
  {
    if g != [] {
      DirWeightsPositive(g[..|g| - 1]);
    }
  }

  /** Every group of positive entries is non-empty and positive. */
  lemma GroupsPositive(es: seq<Entry>, key: string -> string)
    requires Positive(es)
    ensures forall i :: 0 <= i < |GroupBy(es, key)| ==> GroupBy(es, key)[i].1 != [] && Positive(GroupBy(es, key)[i].1)
  {
    var g := GroupBy(es, key);
    GroupByPartitions(es, key);
    forall i | 0 <= i < |g|
      ensures Positive(g[i].1)
    {
      InGroupPositive(es, g[i].0, key);
    }
  }

  lemma {:induction false} InGroupPositive(es: seq<Entry>, k: string, key: string -> string)
    requires Positive(es)
    ensures Positive(InGroup(es, k, key))
  {
    if es != [] {
      var init := es[..|es| - 1];
      assert Positive(init);
      InGroupPositive(init, k, key);
      PositiveAppend(InGroup(init, k, key), if key(es[|es| - 1].0) == k then [es[|es| - 1]] else []);
    }
  }

  /** The folder proportions of a `.lst` file with at least one entry add up to 100. */
  lemma FolderSharesSumTo100(lines: seq<string>)
    requires LstGroups(lines) != []
    ensures var ws := DirWeights(LstGroups(lines));
      SumReal(Shares(ws, TotalWeight(ws))) == 100.0
  {
    var es := Entries(lines, LstEntryOf);
    var g := LstGroups(lines);
    var ws := DirWeights(g);
    ReadersPositive();
    EntriesPositive(lines, LstEntryOf);
    GroupsPositive(es, DirKey);
    DirWeightsPositive(g);
    SumPositive(ws);
    SharesSum(ws, TotalWeight(ws));
    PercentOfWhole(SumReal(ws));
  }

  /** `_normalise_proportions`: each weight over the total (`or 1.0`), times 100, paths and order kept. */
  function Normalise(es: seq<Entry>): (r: seq<Entry>)
    ensures |r| == |es|
  {
    var s := GroupWeight(es);
    Scaled(es, if s != 0.0 then s else 1.0)
  }

  function Scaled(es: seq<Entry>, total: real): (r: seq<Entry>)
    requires total != 0.0
    ensures |r| == |es|
  {
    if es == [] then [] else Scaled(es[..|es| - 1], total) + [(es[|es| - 1].0, Percent(es[|es| - 1].1, total))]
  }

  lemma {:induction false} ScaledSum(es: seq<Entry>, total: real)
    requires total != 0.0
    ensures GroupWeight(Scaled(es, total)) == Percent(GroupWeight(es), total)
  {
    if es != [] {
      var init := es[..|es| - 1];
      var x := es[|es| - 1].1;
      ScaledSum(init, total);
      var sc := Scaled(es, total);
      assert sc[..|sc| - 1] == Scaled(init, total);
      assert GroupWeight(sc) == GroupWeight(Scaled(init, total)) + Percent(x, total);
      PercentAdd(GroupWeight(init), x, total);
    }
  }

  lemma {:induction false} ScaledAt(es: seq<Entry>, total: real, k: nat)
    requires total != 0.0 && k < |es|
    ensures Scaled(es, total)[k] == (es[k].0, Percent(es[k].1, total))
  {
    if k < |es| - 1 {
      ScaledAt(es[..|es| - 1], total, k);
    }
  }

  /** Normalising makes the proportions of a non-empty positive group add up to 100. */
  lemma NormaliseSumsTo100(es: seq<Entry>)
    requires es != [] && Positive(es)
    ensures GroupWeight(Normalise(es)) == 100.0
  {
    var s := GroupWeight(es);
    ScaledSum(es, s);
    PercentOfWhole(s);
  }

  /** Each entry keeps its path and place, its proportion the weight as a percentage of the group's total. */
  lemma NormaliseAt(es: seq<Entry>, k: nat)
    requires Positive(es) && k < |es|
    ensures Normalise(es)[k] == (es[k].0, Percent(es[k].1, GroupWeight(es)))
  {
    ScaledAt(es, GroupWeight(es), k);
  }

  /** Normalising keeps weights positive. */
  lemma NormalisePositive(es: seq<Entry>)
    requires Positive(es)
    ensures Positive(Normalise(es))
  {
    forall k | 0 <= k < |es|
      ensures Normalise(es)[k].1 > 0.0
    {
      NormaliseAt(es, k);
      PositiveShare(es[k].1, GroupWeight(es));
    }
  }

  lemma PositiveShare(x: real, s: real)
    requires x > 0.0 && s > 0.0
    ensures Percent(x, s) > 0.0
  {
  }

  /** A group already normalised is left as it is. */
  lemma NormaliseIdempotent(es: seq<Entry>)
    requires es != [] && Positive(es)
    ensures Normalise(Normalise(es)) == Normalise(es)
  {
    var n := Normalise(es);
    NormaliseSumsTo100(es);
    NormalisePositive(es);
    forall k | 0 <= k < |n|
      ensures Normalise(n)[k] == n[k]
    {
      NormaliseAt(n, k);
    }
  }

  // ------------------------------------------------------------ the nodes

  /** A node to create: its path and its `node_data`. */
  type Planned = (string, NodeData)

  /** The `node_data` of a folder node of `TreeBuilderLST.build`. */
  function FolderData(images: seq<Entry>, share: real): NodeData
  {
    NodeData(100, true, Some(share), None, None, false, None, PathsOf(images))
  }

  function PathsOf(es: seq<Entry>): (r: seq<string>)
    ensures |r| == |es|
  {
    if es == [] then [] else PathsOf(es[..|es| - 1]) + [es[|es| - 1].0]
  }

  /** One folder node per group, in the order of the groups, with the group's share of the total weight. */
  function FolderPlan(g: Groups): (r: seq<Planned>)
    ensures |r| == |g|
  {
    var ws := DirWeights(g);
    FolderPlanWith(g, Shares(ws, TotalWeight(ws)))
  }

  function FolderPlanWith(g: Groups, shares: seq<real>): (r: seq<Planned>)
    requires |shares| == |g|
    ensures |r| == |g|
    ensures forall i :: 0 <= i < |g| ==> r[i] == (g[i].0, FolderData(g[i].1, shares[i]))
  {
    if g == [] then []
    else FolderPlanWith(g[..|g| - 1], shares[..|g| - 1]) + [(g[|g| - 1].0, FolderData(g[|g| - 1].1, shares[|g| - 1]))]
  }

  /** The folder node planned for group `i`: its key, its images, and its share of the weight. */
  lemma FolderPlanAt(g: Groups, i: nat)
    requires i < |g|
    ensures var ws := DirWeights(g);
      FolderPlan(g)[i] == (g[i].0, FolderData(g[i].1, Percent(DirWeights(g)[i], TotalWeight(ws))))
  {
    var ws := DirWeights(g);
    var sh := Shares(ws, TotalWeight(ws));
    SharesAt(ws, TotalWeight(ws), i);
    assert FolderPlan(g) == FolderPlanWith(g, sh);
    assert FolderPlanWith(g, sh)[i] == (g[i].0, FolderData(g[i].1, sh[i]));
  }

  /** The `node_data` of an image node of `build_tree_from_list`. */
  function LeafData(path: string, proportion: real): NodeData
  {
    NodeData(100, true, Some(proportion), None, None, false, None, [path])
  }

  /** One image node per entry, group after group, with its proportion among its siblings. */
  function LeafPlan(g: Groups): (r: seq<Planned>)
  {
    if g == [] then [] else LeafPlan(g[..|g| - 1]) + Leaves(Normalise(g[|g| - 1].1))
  }

  /** The image node of an entry holding its proportion: named by its path without the extension, holding that one image. */
  function Leaf(e: Entry): Planned
  {
    (StemName(e.0), LeafData(e.0, e.1))
  }

  function Leaves(weighted: seq<Entry>): (r: seq<Planned>)
    ensures |r| == |weighted|
  {
    if weighted == [] then [] else Leaves(weighted[..|weighted| - 1]) + [Leaf(weighted[|weighted| - 1])]
  }

  lemma {:induction false} LeavesAt(weighted: seq<Entry>, k: nat)
    requires k < |weighted|
    ensures Leaves(weighted)[k] == Leaf(weighted[k])
  {
    if k < |weighted| - 1 {
      LeavesAt(weighted[..|weighted| - 1], k);
    }
  }

  /** One image node per entry of the file: the list builder loses no entry and adds none. */
  lemma ListLeafCount(lines: seq<string>)
    ensures |LeafPlan(ListGroups(lines))| == |Entries(lines, ListEntryOf)|
  {
    LeafPlanSize(ListGroups(lines));
    GroupSizes(Entries(lines, ListEntryOf), DirKey);
  }

  lemma {:induction false} LeafPlanSize(g: Groups)
    ensures |LeafPlan(g)| == SumGroupSizes(g)
  {
    if g != [] {
      LeafPlanSize(g[..|g| - 1]);
    }
  }

  function SumGroupSizes(g: Groups): nat
  {
    if g == [] then 0 else SumGroupSizes(g[..|g| - 1]) + |g[|g| - 1].1|
  }

  lemma {:induction false} GroupSizes(es: seq<Entry>, key: string -> string)
    ensures SumGroupSizes(GroupBy(es, key)) == |es|
  {
    if es != [] {
      var init := es[..|es| - 1];
      GroupSizes(init, key);
      AppendSize(GroupBy(init, key), es[|es| - 1], key);
    }
  }

  lemma AppendSize(g: Groups, e: Entry, key: string -> string)
    ensures SumGroupSizes(Append(g, e, key)) == SumGroupSizes(g) + 1
  {
    var k := key(e.0);
    var i := KeyIndex(g, k);
    if i < 0 {
      assert (g + [(k, [e])])[..|g|] == g;
    } else {
      SizesUpdate(g, i, (k, g[i].1 + [e]));
    }
  }

  lemma {:induction false} SizesUpdate(g: Groups, i: nat, v: (string, seq<Entry>))
    requires i < |g|
    ensures SumGroupSizes(g[i := v]) == SumGroupSizes(g) - |g[i].1| + |v.1|
  {
    var n := |g| - 1;
    assert g[i := v][..n] == if i == n then g[..n] else g[..n][i := v];
    if i < n {
      SizesUpdate(g[..n], i, v);
    }
  }

  /** The attributes `create_node` gives one planned node. */
  function Made(p: Planned): NodeInfo
  {
    NodeFromData(ConvertPathToTreeFormat(p.0), p.0, p.1)
  }

  /** The attributes `create_node` gives each planned node, in plan order. */
  function Expected(plan: seq<Planned>): (r: seq<NodeInfo>)
    ensures |r| == |plan|
  {
    MapSeq(plan, Made)
  }

  lemma ExpectedAt(plan: seq<Planned>, k: nat)
    requires k < |plan|
    ensures Expected(plan)[k] == Made(plan[k])
  {
    MapSeqAt(plan, Made, k);
  }

  /** Each id names, in `info`, a node with the expected attributes. */
  ghost predicate CreatedIn(info: map<NodeId, NodeInfo>, expected: seq<NodeInfo>, ids: seq<NodeId>)
  {
    |ids| == |expected| && forall k | 0 <= k < |ids| :: ids[k] in info && info[ids[k]] == expected[k]
  }

  /** Each expected node was created, in order, as a node new to the tree since `U0`. */
  ghost predicate Created(t: Tree, U0: map<NodeId, Option<NodeId>>, expected: seq<NodeInfo>, ids: seq<NodeId>)
    reads t
  {
    CreatedIn(t.info, expected, ids) && forall k | 0 <= k < |ids| :: ids[k] !in U0
  }

  /**
   * The `create_node` calls of a builder's loop, in order; the first
   * `ValueError` (a path whose parent is relative, say) ends the build.
   */
  method CreateNodes(t: Tree, plan: seq<Planned>) returns (err: Option<Error>, ghost ids: seq<NodeId>)
    requires t.Valid()
    modifies t`links, t`info, t`nextId, t`nodeLookup, t`pathLookup
    ensures t.Valid()
    ensures err.None? ==> Created(t, old(t.links.up), Expected(plan), ids)
  {
    ghost var U0 := t.links.up;
    err, ids := None, [];
    var i := 0;
    while i < |plan|
      invariant 0 <= i <= |plan| && t.Valid()
      invariant U0.Keys <= t.links.up.Keys
      invariant Created(t, U0, Expected(plan)[..i], ids)
    {
      ghost var U1, I1 := t.links.up, t.info;
      var r := CreatePlanned(t, plan, i);
      if r.Err? {
        return Some(r.error), ids;
      }
      CreatedStep(t.info, t.links.up, U0, U1, I1, Expected(plan), i, ids, r.value);
      ids := ids + [r.value];
      i := i + 1;
    }
    assert Expected(plan)[..i] == Expected(plan);
  }

  /** One `create_node` call of the loop: the node planned at `i`. */
  method CreatePlanned(t: Tree, plan: seq<Planned>, i: nat) returns (r: Result<NodeId>)
    requires t.Valid() && i < |plan|
    modifies t`links, t`info, t`nextId, t`nodeLookup, t`pathLookup
    ensures t.Valid()
    ensures OldUntouched(old(t.links.up), old(t.info), t.links.up, t.info)
    ensures r.Ok? ==> r.value !in old(t.links.up) && r.value in t.info && t.info[r.value] == Expected(plan)[i]
  {
    r := t.CreateNode(plan[i].0, plan[i].1);
    ExpectedAt(plan, i);
  }

  lemma CreatedStep(I: map<NodeId, NodeInfo>, U: map<NodeId, Option<NodeId>>,
                    U0: map<NodeId, Option<NodeId>>, U1: map<NodeId, Option<NodeId>>, I1: map<NodeId, NodeInfo>,
                    expected: seq<NodeInfo>, i: nat, ids: seq<NodeId>, c: NodeId)
    requires i < |expected| && U0.Keys <= U1.Keys && I1.Keys == U1.Keys
    requires CreatedIn(I1, expected[..i], ids) && forall k | 0 <= k < |ids| :: ids[k] !in U0
    requires OldUntouched(U1, I1, U, I)
    requires c !in U1 && c in I && I[c] == expected[i]
    ensures U0.Keys <= U.Keys
    ensures CreatedIn(I, expected[..i + 1], ids + [c]) && forall k | 0 <= k < |ids| + 1 :: (ids + [c])[k] !in U0
  {
    assert expected[..i + 1][..i] == expected[..i];
  }

  // ------------------------------------------------------------ the builders

  /** `TreeBuilderLST`: a builder that adds the folders of a `.lst` file to `tree`. */
  class LstBuilder {
    const tree: Tree

    constructor (tree: Tree)
      ensures this.tree == tree
    {
      this.tree := tree;
    }

    /**
     * `build(list_path)`: a `ValueError` when the file cannot be read or has
     * no entry; otherwise one node per folder, in the order the folders
     * first appear, holding the folder's images and its share of the weight.
     */
    method Build(listPath: string, files: map<string, seq<string>>) returns (err: Option<Error>, ghost ids: seq<NodeId>)
      requires tree.Valid()
      modifies tree`links, tree`info, tree`nextId, tree`nodeLookup, tree`pathLookup
      ensures tree.Valid()
      ensures listPath !in files ==> err.Some? && err.value.ValueError? && unchanged(tree)
      ensures listPath in files && LstGroups(files[listPath]) == [] ==> err.Some? && err.value.ValueError? && unchanged(tree)
      ensures err.None? ==> listPath in files && Created(tree, old(tree.links.up), Expected(FolderPlan(LstGroups(files[listPath]))), ids)
    {
      if listPath !in files {
        return Some(ValueError("Unable to read list file")), [];
      }
      var grouped := GroupLines(files[listPath], LstEntryOf, DirKey);
      if grouped == [] {
        return Some(ValueError("No entries found in list file")), [];
      }
      err, ids := CreateNodes(tree, FolderPlan(grouped));
    }
  }

  /**
   * `build_tree_from_list(list_path, defaults, filters)`: a new tree with
   * one node per entry (named by its path without the extension, holding
   * that one image, with its proportion among the entries of its folder),
   * then weighed; a `ValueError` when the file cannot be read, and the
   * errors of node creation and weighing otherwise. `before` is the tree's
   * attribute map once the nodes are in, before the weights. The source's
   * loop over folders and then entries is the single loop over the plan.
   */
  method BuildTreeFromList(listPath: string, defaults: Defaults, filters: Filtering.Filters,
                           files: map<string, seq<string>>, pow: Proportions.Power)
    returns (r: Result<Tree>, ghost ids: seq<NodeId>, ghost before: map<NodeId, NodeInfo>)
    ensures listPath !in files ==> r.Err? && r.error.ValueError?
    ensures r.Ok? ==> fresh(r.value) && r.value.Valid() && listPath in files
    ensures r.Ok? ==> before.Keys == r.value.info.Keys
    ensures r.Ok? ==>
      (None, r.value.info) == Weights.CalculateWeights(r.value.links, before, r.value.root, defaults.Mode(), false, pow)
    ensures r.Ok? ==> CreatedIn(before, Expected(LeafPlan(ListGroups(files[listPath]))), ids)
  {
    var tree := new Tree(defaults, filters);
    if listPath !in files {
      return Err(ValueError("Unable to read list file")), [], map[];
    }
    var grouped := GroupLines(files[listPath], ListEntryOf, DirKey);
    var err;
    err, ids := CreateNodes(tree, LeafPlan(grouped));
    before := tree.info;
    if err.Some? {
      return Err(err.value), ids, before;
    }
    err := TreeLogic.CalculateWeights(tree, false, pow);
    if err.Some? {
      return Err(err.value), ids, before;
    }
    r := Ok(tree);
  }
}
