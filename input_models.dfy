/**
 * `enkan/utils/input/input_models.py`: the kind of an input, decided by its
 * extension, and the fast path that hands a lone input straight to its
 * builder instead of merging. Reading a text file is a map from path to
 * its lines; a path not in the map is a file that cannot be opened.
 */
module InputModels {
  import opened Common
  import opened Paths
  import opened Scan
  import opened Modes
  import opened Modifiers
  import opened TreeModel

  datatype SourceKind = Txt | Lst | TreeFile | Folder | Other

  /** `LoadedSource`: one input normalised to a tree before merging. */
  datatype LoadedSource = LoadedSource(
    sourcePath: string,
    kind: SourceKind,
    orderIndex: nat,
    tree: Option<Tree>,
    mode: Option<ModeTable>,
    warnings: seq<string>)

  /** `s.endswith((".txt", ".lst", ".tree"))` */
  predicate EndsWithInput(s: string)
  {
    EndsWith(s, ".txt") || EndsWith(s, ".lst") || EndsWith(s, ".tree")
  }

  /** `classify_input_path`: the lower-cased extension decides; the final `OTHER` cannot be reached. */
  function ClassifyInputPath(path: string): (k: SourceKind)
    ensures k != Other
    ensures k == Txt <==> EndsWith(Lower(path), ".txt")
    ensures k == Lst <==> EndsWith(Lower(path), ".lst")
    ensures k == TreeFile <==> EndsWith(Lower(path), ".tree")
    ensures k == Folder <==> !EndsWithInput(Lower(path))
  {
    var lower := Lower(path);
    assert EndsWith(lower, ".txt") ==> !EndsWith(lower, ".lst") && !EndsWith(lower, ".tree")
      by { if EndsWith(lower, ".txt") { assert lower[|lower| - 3] == 't' && lower[|lower| - 1] == 't'; } }
    assert EndsWith(lower, ".lst") ==> !EndsWith(lower, ".tree")
      by { if EndsWith(lower, ".lst") { assert lower[|lower| - 1] == 't'; } }
    if EndsWith(lower, ".txt") then Txt
    else if EndsWith(lower, ".lst") then Lst
    else if EndsWith(lower, ".tree") then TreeFile
    else if !EndsWithInput(lower) then Folder
    else Other
  }

  /** What a text line names once its modifiers, surrounding blanks and quotes are gone. */
  function ReferencedPath(line: string): string
  {
    StripQuotes(Strip(StripModifiers(line)))
  }

  /** `_looks_like_nested_reference`: the line names another input file. */
  predicate LooksLikeNestedReference(line: string)
  {
    EndsWithInput(Lower(ReferencedPath(line)))
  }

  /** A nested reference is exactly a line whose named path is classified as a text, list or tree input. */
  lemma NestedIffInputKind(line: string)
    ensures LooksLikeNestedReference(line) <==> ClassifyInputPath(ReferencedPath(line)) in {Txt, Lst, TreeFile}
  {
  }

  /** Modifiers never make a line a nested reference: only what remains matters. */
  lemma NestedIgnoresModifiers(line: string)
    ensures LooksLikeNestedReference(line) <==> LooksLikeNestedReference(StripModifiers(line))
  {
    StripIdempotent(line);
  }

  /** A file line the scan of `_txt_contains_nested_inputs` counts: not blank, not a comment, a nested reference. */
  predicate NestedLine(raw: string)
  {
    var line := Strip(raw);
    line != [] && line[0] != '#' && LooksLikeNestedReference(line)
  }

  predicate HasNested(lines: seq<string>)
  {
    AnyOf(lines, NestedLine)
  }

  /** Some element satisfies `p`. */
  predicate AnyOf<T>(s: seq<T>, p: T -> bool)
  {
    exists i | 0 <= i < |s| :: p(s[i])
  }

  /** `_txt_contains_nested_inputs`: an unreadable file counts as having nested inputs. */
  method TxtContainsNestedInputs(path: string, files: map<string, seq<string>>) returns (r: bool)
    ensures path !in files ==> r
    ensures path in files ==> (r <==> HasNested(files[path]))
  {
    if path !in files {
      return true;
    }
    var lines := files[path];
    var i := 0;
    while i < |lines|
      invariant 0 <= i <= |lines|
      invariant !HasNested(lines[..i])
    {
      var line := Strip(lines[i]);
      AnyOfStep(lines, i, NestedLine);
      if line == [] || line[0] == '#' {
        i := i + 1;
        continue;
      }
      if LooksLikeNestedReference(line) {
        AnyOfPrefix(lines, i + 1, NestedLine);
        return true;
      }
      i := i + 1;
    }
    assert lines[..i] == lines;
    return false;
  }

  lemma AnyOfStep<T>(s: seq<T>, i: nat, p: T -> bool)
    requires i < |s|
    ensures AnyOf(s[..i + 1], p) <==> AnyOf(s[..i], p) || p(s[i])
  {
    assert forall k | 0 <= k < i :: s[..i + 1][k] == s[..i][k];
    assert s[..i + 1][i] == s[i];
  }

  lemma AnyOfPrefix<T>(s: seq<T>, i: nat, p: T -> bool)
    requires i <= |s| && AnyOf(s[..i], p)
    ensures AnyOf(s, p)
  {
    var k :| 0 <= k < i && p(s[..i][k]);
    assert s[k] == s[..i][k];
  }

  /** Comment lines never make a file nested, however they end. */
  lemma CommentNotNested(lines: seq<string>, comment: string)
    requires Strip(comment) != [] && Strip(comment)[0] == '#'
    ensures HasNested(lines + [comment]) <==> HasNested(lines)
  {
    assert forall i | 0 <= i < |lines| :: (lines + [comment])[i] == lines[i];
    if HasNested(lines + [comment]) {
      var i :| 0 <= i < |lines| + 1 && NestedLine((lines + [comment])[i]);
      assert i < |lines|;
    }
  }

  /** The decision of `should_bypass_merge`, with the file read as `files` does. */
  predicate Bypasses(inputs: seq<string>, files: map<string, seq<string>>)
  {
    |inputs| == 1 &&
    match ClassifyInputPath(inputs[0])
    case Txt => inputs[0] in files && !HasNested(files[inputs[0]])
    case Lst => false
    case TreeFile => true
    case Folder => true
    case Other => false
  }

  /** `should_bypass_merge` */
  method ShouldBypassMerge(inputs: seq<string>, files: map<string, seq<string>>) returns (r: bool)
    ensures r <==> Bypasses(inputs, files)
  {
    if |inputs| != 1 {
      return false;
    }
    var single := inputs[0];
    var kind := ClassifyInputPath(single);
    if kind == Txt {
      var nested := TxtContainsNestedInputs(single, files);
      return !nested;
    }
    if kind == Lst {
      return false;
    }
    return kind == TreeFile || kind == Folder;
  }

  /** Only a lone input can bypass; a lone list never does; a lone tree or folder always does. */
  lemma BypassCases(inputs: seq<string>, files: map<string, seq<string>>)
    ensures |inputs| != 1 ==> !Bypasses(inputs, files)
    ensures |inputs| == 1 && EndsWith(Lower(inputs[0]), ".lst") ==> !Bypasses(inputs, files)
    ensures |inputs| == 1 && (EndsWith(Lower(inputs[0]), ".tree") || !EndsWithInput(Lower(inputs[0]))) ==>
      Bypasses(inputs, files)
    ensures |inputs| == 1 && EndsWith(Lower(inputs[0]), ".txt") ==>
      (Bypasses(inputs, files) <==> inputs[0] in files && !HasNested(files[inputs[0]]))
  {
  }
}
