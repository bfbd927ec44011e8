/**
 * `InputProcessor.parse_input_line` (`enkan/utils/input/InputProcessor.py`):
 * one line of an input file either configures the filters or the global
 * defaults, stores a group bundle, or names a directory or a file together
 * with the settings its bracket modifiers choose. The modifier grammar is
 * that of `enkan/constants.py`. `os.path.isdir` and `os.path.isfile` are
 * answered by a `Disk`.
 */
module InputProcessing {
  import opened Common
  import opened Scan
  import opened Paths
  import opened Modes
  import opened Modifiers
  import Utils
  import Filtering
  import TreeModel

  /** The directories and the files of the file system, as `isdir` and `isfile` see them. */
  datatype Disk = Disk(dirs: set<string>, files: set<string>)

  // ------------------------------------------------------ modifier grammar

  /** `\d+` over ASCII digits. */
  predicate Digits(s: string)
  {
    s != [] && AllDigits(s)
  }

  /** `WEIGHT_MODIFIER_PATTERN`: digits, optionally followed by `%`. */
  predicate IsWeightText(c: string)
  {
    Digits(c) || (c != [] && c[|c| - 1] == '%' && Digits(c[..|c| - 1]))
  }

  /** `PROPORTION_PATTERN`: a `%`, then a weight text. */
  predicate IsProportionText(c: string)
  {
    c != [] && c[0] == '%' && IsWeightText(c[1..])
  }

  /** `GRAFT_PATTERN`: `g` in either case, then digits. */
  predicate IsGraftText(c: string)
  {
    c != [] && (c[0] == 'g' || c[0] == 'G') && Digits(c[1..])
  }

  /** `GROUP_PATTERN`: anything that starts with `>`. */
  predicate IsGroupText(c: string)
  {
    c != [] && c[0] == '>'
  }

  /** A one-word pattern matched ignoring case (`f`, `v`, `nv`, `m`, `nm`). */
  predicate IsWord(c: string, word: string)
  {
    Lower(c) == word
  }

  predicate IsBracket(c: char) { c == '[' || c == ']' }

  predicate IsPercent(c: char) { c == '%' }

  /** What a handler makes of the text of one modifier. */
  datatype Modifier =
    | Weight(amount: nat, percent: bool)
    | Proportion(amount: nat)
    | Graft(level: nat)
    | Group(name: string)
    | ModeSpec(table: ModeTable)
    | Flat
    | Video
    | NoVideo
    | Mute
    | NoMute
    | DontRecurse
    | Unknown(text: string)

  /** `handle_weight`: a trailing `%` makes the weight a percentage. */
  function WeightOf(c: string): Modifier
    requires IsWeightText(c)
  {
    if c[|c| - 1] == '%' then Weight(DecimalValue(c[..|c| - 1]), true) else Weight(DecimalValue(c), false)
  }

  /** The `HANDLERS` loop: the first pattern that matches decides, in the order of the tuple. */
  function Classify(c: string): Modifier
  {
    if IsWeightText(c) then WeightOf(c)
    else if IsProportionText(c) then Proportion(DecimalValue(StripWith(c, IsPercent)))
    else if IsGraftText(c) then Graft(DecimalValue(c[1..]))
    else if IsGroupText(c) then Group(c[1..])
    else if IsModeString(c) then ModeSpec(ParseModeString(c))
    else if IsWord(c, "f") then Flat
    else if IsWord(c, "v") then Video
    else if IsWord(c, "nv") then NoVideo
    else if IsWord(c, "m") then Mute
    else if IsWord(c, "nm") then NoMute
    else if c == "/" then DontRecurse
    else Unknown(c)
  }

  /** The same handlers tried in the reverse order: a reference for the claim that the order is immaterial. */
  function ClassifyReversed(c: string): Modifier
  {
    if c == "/" then DontRecurse
    else if IsWord(c, "nm") then NoMute
    else if IsWord(c, "m") then Mute
    else if IsWord(c, "nv") then NoVideo
    else if IsWord(c, "v") then Video
    else if IsWord(c, "f") then Flat
    else if IsModeString(c) then ModeSpec(ParseModeString(c))
    else if IsGroupText(c) then Group(c[1..])
    else if IsGraftText(c) then Graft(DecimalValue(c[1..]))
    else if IsProportionText(c) then Proportion(DecimalValue(StripWith(c, IsPercent)))
    else if IsWeightText(c) then WeightOf(c)
    else Unknown(c)
  }

  function Count(b: bool): nat { if b then 1 else 0 }

  /** How many of the eleven patterns match `c`. */
  function MatchCount(c: string): nat
  {
    Count(IsWeightText(c)) + Count(IsProportionText(c)) + Count(IsGraftText(c)) + Count(IsGroupText(c)) +
    Count(IsModeString(c)) + Count(IsWord(c, "f")) + Count(IsWord(c, "v")) + Count(IsWord(c, "nv")) +
    Count(IsWord(c, "m")) + Count(IsWord(c, "nm")) + Count(c == "/")
  }

  /** The lower-case form of the first character, for each word pattern. */
  lemma WordShape(c: string, word: string)
    requires IsWord(c, word) && word != []
    ensures |c| == |word| && LowerChar(c[0]) == word[0]
    ensures |word| == 2 ==> LowerChar(c[1]) == word[1]
  {
  }

  /** Each pattern fixes the first character (and, for the words, the length). */
  lemma FirstCharacters(c: string)
    ensures IsWeightText(c) ==> IsDigit(c[0])
    ensures IsProportionText(c) ==> c[0] == '%'
    ensures IsModeString(c) ==> IsModeLetter(c[0])
    ensures IsWord(c, "f") ==> |c| == 1 && (c[0] == 'f' || c[0] == 'F')
    ensures IsWord(c, "v") ==> |c| == 1 && (c[0] == 'v' || c[0] == 'V')
    ensures IsWord(c, "m") ==> |c| == 1 && (c[0] == 'm' || c[0] == 'M')
    ensures IsWord(c, "nv") ==> |c| == 2 && (c[0] == 'n' || c[0] == 'N') && (c[1] == 'v' || c[1] == 'V')
    ensures IsWord(c, "nm") ==> |c| == 2 && (c[0] == 'n' || c[0] == 'N') && (c[1] == 'm' || c[1] == 'M')
  {
    if IsWeightText(c) && !Digits(c) {
      assert c[..|c| - 1][0] == c[0];
    }
    if IsModeString(c) {
      assert MatchAt(c).Some?;
    }
    if IsWord(c, "f") { WordShape(c, "f"); }
    if IsWord(c, "v") { WordShape(c, "v"); }
    if IsWord(c, "m") { WordShape(c, "m"); }
    if IsWord(c, "nv") { WordShape(c, "nv"); }
    if IsWord(c, "nm") { WordShape(c, "nm"); }
  }

  /**
   * No text matches two patterns, and a text is unknown exactly when none
   * matches: the fixed `HANDLERS` order never decides between two handlers.
   */
  lemma PatternsDisjoint(c: string)
    ensures MatchCount(c) <= 1
    ensures Classify(c).Unknown? <==> MatchCount(c) == 0
    ensures Classify(c) == ClassifyReversed(c)
  {
    FirstCharacters(c);
  }

  /** `mod.strip("[]").strip()`: the text inside one token. */
  function Content(token: string): string
  {
    Strip(StripWith(token, IsBracket))
  }

  /** A dropped first character is stripped. */
  lemma StripLeftOne(c: char, s: string, drop: char -> bool)
    requires drop(c)
    ensures StripLeft([c] + s, drop) == StripLeft(s, drop)
  {
    assert ([c] + s)[0] == c;
    assert ([c] + s)[1..] == s;
  }

  /** A dropped last character is stripped. */
  lemma StripRightOne(s: string, c: char, drop: char -> bool)
    requires drop(c)
    ensures StripRight(s + [c], drop) == StripRight(s, drop)
  {
    assert (s + [c])[|s + [c]| - 1] == c;
    assert (s + [c])[..|s + [c]| - 1] == s;
  }

  /** Neither end of `x` is a bracket or a blank. */
  predicate Unpadded(x: string)
  {
    x != [] && !IsBracket(x[0]) && !IsBracket(x[|x| - 1]) && !IsSpace(x[0]) && !IsSpace(x[|x| - 1])
  }

  /** The brackets of a token and the blanks inside it are not part of its text. */
  lemma ContentOfToken(x: string)
    requires Unpadded(x)
    ensures Content("[" + x + "]") == x
  {
    var t := "[" + x + "]";
    assert t == ['['] + (x + [']']);
    StripLeftOne('[', x + [']'], IsBracket);
    assert (x + [']'])[0] == x[0];
    assert StripLeft(t, IsBracket) == x + [']'];
    StripRightOne(x, ']', IsBracket);
    assert StripRight(x + [']'], IsBracket) == x;
    assert StripWith(t, IsBracket) == x;
    StripWithKeeps(x, IsSpace);
  }

  /** `[N]` is a weight of N that is not a percentage. */
  lemma WeightRoundTrip(n: nat)
    ensures Classify(NatToString(n)) == Weight(n, false)
    ensures Classify(NatToString(n) + "%") == Weight(n, true)
  {
    DecimalOfNatToString(n);
    var d := NatToString(n);
    assert (d + "%")[..|d + "%"| - 1] == d;
  }

  /** `[%N]` and `[%N%]` set the proportion to N. */
  lemma ProportionRoundTrip(n: nat)
    ensures Classify("%" + NatToString(n)) == Proportion(n)
    ensures Classify("%" + NatToString(n) + "%") == Proportion(n)
  {
    DecimalOfNatToString(n);
    var d := NatToString(n);
    var c1 := ['%'] + d;
    var c2 := ['%'] + (d + ['%']);
    assert "%" + d == c1 && "%" + d + "%" == c2;
    assert c1[1..] == d && c2[1..] == d + ['%'];
    assert (d + ['%'])[..|d|] == d;
    assert c1[|c1| - 1] == d[|d| - 1] && !IsPercent(d[|d| - 1]);
    assert c2[..|c2| - 1][0] == '%';
    assert !IsWeightText(c1) && !IsWeightText(c2);
    assert IsProportionText(c1) && IsProportionText(c2);
    StripLeftOne('%', d, IsPercent);
    StripLeftOne('%', d + ['%'], IsPercent);
    assert (d + ['%'])[0] == d[0];
    assert StripLeft(d + ['%'], IsPercent) == d + ['%'];
    StripRightOne(d, '%', IsPercent);
    assert StripWith(c1, IsPercent) == d;
    assert StripWith(c2, IsPercent) == d;
  }

  /** `[gN]` grafts at level N, `[>name]` joins group `name`. */
  lemma GraftAndGroupRoundTrip(n: nat, name: string)
    ensures Classify("g" + NatToString(n)) == Graft(n)
    ensures Classify("G" + NatToString(n)) == Graft(n)
    ensures Classify(">" + name) == Group(name)
  {
    DecimalOfNatToString(n);
    var d := NatToString(n);
    assert ("g" + d)[1..] == d && ("G" + d)[1..] == d && (">" + name)[1..] == name;
    FirstCharacters("g" + d);
    FirstCharacters("G" + d);
    FirstCharacters(">" + name);
  }

  /** The text of `[N%]` is `N%` and that of `[N]` is `N`. */
  lemma NumberTokenContent(n: nat)
    ensures Content("[" + NatToString(n) + "%]") == NatToString(n) + "%"
    ensures Content("[" + NatToString(n) + "]") == NatToString(n)
  {
    var d := NatToString(n);
    assert "[" + d + "%]" == "[" + (d + "%") + "]";
    NumberUnpadded(d);
    ContentOfToken(d + "%");
    ContentOfToken(d);
  }

  lemma NumberUnpadded(d: string)
    requires d != [] && AllDigits(d)
    ensures Unpadded(d) && Unpadded(d + "%")
  {
    assert IsDigit(d[0]) && IsDigit(d[|d| - 1]);
    assert (d + "%")[0] == d[0];
  }

  /** The whole token, brackets included: `[N%]` and `[N]` are weights. */
  lemma WeightTokenRoundTrip(n: nat)
    ensures Classify(Content("[" + NatToString(n) + "%]")) == Weight(n, true)
    ensures Classify(Content("[" + NatToString(n) + "]")) == Weight(n, false)
  {
    NumberTokenContent(n);
    WeightRoundTrip(n);
  }

  // ------------------------------------------------------------ line state

  /** The `state` dictionary the handlers mutate. */
  datatype LineState = LineState(
    weightModifier: int,
    proportion: Option<int>,
    userProportion: Option<int>,
    isPercentage: bool,
    graftLevel: Option<int>,
    group: Option<string>,
    modeModifier: Option<ModeTable>,
    flat: bool,
    video: Option<bool>,
    mute: Option<bool>,
    dontRecurse: Option<bool>)

  /** The state before the first modifier: weight 100 as a percentage, nothing else set. */
  const Start: LineState := LineState(100, None, None, true, None, None, None, false, None, None, None)

  /** One handler's write to the state; an unknown modifier writes nothing. */
  function Step(st: LineState, m: Modifier): LineState
  {
    match m
    case Weight(n, pct) => st.(weightModifier := n, isPercentage := pct)
    case Proportion(n) => st.(proportion := Some(n), userProportion := Some(n))
    case Graft(n) => st.(graftLevel := Some(n))
    case Group(g) => st.(group := Some(g))
    case ModeSpec(t) => st.(modeModifier := Some(t))
    case Flat => st.(flat := true)
    case Video => st.(video := Some(true))
    case NoVideo => st.(video := Some(false))
    case Mute => st.(mute := Some(true))
    case NoMute => st.(mute := Some(false))
    case DontRecurse => st.(dontRecurse := Some(true))
    case Unknown(_) => st
  }

  /** The modifiers of a line's tokens, in order. */
  function ClassifyAll(tokens: seq<string>): (ms: seq<Modifier>)
    ensures |ms| == |tokens|
  {
    if tokens == [] then [] else ClassifyAll(tokens[..|tokens| - 1]) + [Classify(Content(tokens[|tokens| - 1]))]
  }

  /** The handlers applied left to right. */
  function Fold(st: LineState, ms: seq<Modifier>): LineState
  {
    if ms == [] then st else Step(Fold(st, ms[..|ms| - 1]), ms[|ms| - 1])
  }

  lemma {:induction false} FoldAppend(st: LineState, a: seq<Modifier>, b: seq<Modifier>)
    ensures Fold(st, a + b) == Fold(Fold(st, a), b)
    decreases |b|
  {
    if b == [] {
      assert a + b == a;
    } else {
      assert (a + b)[..|a + b| - 1] == a + b[..|b| - 1];
      FoldAppend(st, a, b[..|b| - 1]);
    }
  }

  /** The known modifiers, in order. */
  function Known(ms: seq<Modifier>): (r: seq<Modifier>)
    ensures forall i :: 0 <= i < |r| ==> !r[i].Unknown?
  {
    if ms == [] then []
    else if ms[|ms| - 1].Unknown? then Known(ms[..|ms| - 1])
    else Known(ms[..|ms| - 1]) + [ms[|ms| - 1]]
  }

  /** Unknown modifiers change no state: only the known ones matter. */
  lemma {:induction false} UnknownIgnored(st: LineState, ms: seq<Modifier>)
    ensures Fold(st, ms) == Fold(st, Known(ms))
  {
    if ms != [] {
      UnknownIgnored(st, ms[..|ms| - 1]);
      if !ms[|ms| - 1].Unknown? {
        var k := Known(ms[..|ms| - 1]) + [ms[|ms| - 1]];
        assert k[..|k| - 1] == Known(ms[..|ms| - 1]);
      }
    }
  }

  /** The last weight modifier decides the weight and the percentage flag. */
  lemma {:induction false} LastWeightWins(st: LineState, a: seq<Modifier>, n: nat, pct: bool, b: seq<Modifier>)
    requires forall i :: 0 <= i < |b| ==> !b[i].Weight?
    ensures Fold(st, a + [Weight(n, pct)] + b).weightModifier == n
    ensures Fold(st, a + [Weight(n, pct)] + b).isPercentage == pct
  {
    FoldAppend(st, a + [Weight(n, pct)], b);
    var mid := Fold(st, a + [Weight(n, pct)]);
    assert (a + [Weight(n, pct)])[..|a|] == a;
    assert mid.weightModifier == n && mid.isPercentage == pct;
    WeightUntouched(mid, b);
  }

  /** Modifiers other than weights leave the weight and the percentage flag alone. */
  lemma {:induction false} WeightUntouched(st: LineState, b: seq<Modifier>)
    requires forall i :: 0 <= i < |b| ==> !b[i].Weight?
    ensures Fold(st, b).weightModifier == st.weightModifier && Fold(st, b).isPercentage == st.isPercentage
  {
    if b != [] {
      WeightUntouched(st, b[..|b| - 1]);
    }
  }

  /** Proportion and user proportion are always written together, so they agree. */
  lemma {:induction false} ProportionMirrored(st: LineState, ms: seq<Modifier>)
    requires st.proportion == st.userProportion
    ensures Fold(st, ms).proportion == Fold(st, ms).userProportion
  {
    if ms != [] {
      ProportionMirrored(st, ms[..|ms| - 1]);
    }
  }

  /** From the initial state, the line is flat exactly when a `[f]` occurs, and dont-recurse is set exactly when a `[/]` does. */
  lemma {:induction false} FlagsFromTokens(ms: seq<Modifier>)
    ensures Fold(Start, ms).flat <==> Flat in ms
    ensures Fold(Start, ms).dontRecurse == (if DontRecurse in ms then Some(true) else None)
  {
    if ms != [] {
      var init := ms[..|ms| - 1];
      FlagsFromTokens(init);
      assert ms == init + [ms[|ms| - 1]];
    }
  }

  // ------------------------------------------------------------- results

  /** A group bundle: `or None` turns a zero into None and `or ()` an absent or empty mode into `()`. */
  function Bundle(st: LineState): (g: GroupConfig)
    ensures g.proportion.Some? ==> g.proportion == st.proportion && g.proportion.value != 0
    ensures st.proportion.Some? && st.proportion.value != 0 ==> g.proportion == st.proportion
    ensures g.graftLevel.Some? ==> g.graftLevel == st.graftLevel && g.graftLevel.value != 0
    ensures st.graftLevel.Some? && st.graftLevel.value != 0 ==> g.graftLevel == st.graftLevel
    ensures g.modeModifier != map[] ==> st.modeModifier == Some(g.modeModifier)
  {
    GroupConfig(NonZero(st.proportion), NonZero(st.userProportion), NonZero(st.graftLevel),
                if TruthyMode(st.modeModifier) then st.modeModifier.value else map[])
  }

  /** `x or None` for an optional integer. */
  function NonZero(x: Option<int>): Option<int>
  {
    if x.Some? && x.value != 0 then x else None
  }

  /** `_effective_graft_level`: the explicit level, else the number of non-empty parts of the normalised path. */
  function BaseLevel(graftLevel: Option<int>, path: string): int
  {
    if graftLevel.Some? then graftLevel.value else Utils.LevelOf(NormPath(path))
  }

  /** `base_level + graft_offset if graft_offset else base_level`: the condition never changes the value. */
  function EffectiveGraftLevel(graftLevel: Option<int>, path: string, graftOffset: int): (r: int)
    ensures r == BaseLevel(graftLevel, path) + graftOffset
    ensures graftLevel.None? ==> r >= graftOffset
  {
    var base := BaseLevel(graftLevel, path);
    if graftOffset != 0 then base + graftOffset else base
  }

  /** The settings returned for a directory or a file. */
  datatype EntryConfig = EntryConfig(
    weightModifier: int,
    isPercentage: bool,
    proportion: Option<int>,
    userProportion: Option<int>,
    graftLevel: int,
    group: Option<string>,
    modeModifier: Option<ModeTable>)

  /** What `parse_input_line` returns: `(None, None)`, or a path with its settings (a directory's carry `flat` and `video` too). */
  datatype Parsed =
    | NoEntry
    | Directory(path: string, config: EntryConfig, flat: bool, video: Option<bool>)
    | File(path: string, config: EntryConfig)

  function ConfigOf(st: LineState, path: string, graftOffset: int): EntryConfig
  {
    EntryConfig(st.weightModifier, st.isPercentage, st.proportion, st.userProportion,
                EffectiveGraftLevel(st.graftLevel, path, graftOffset), st.group, st.modeModifier)
  }

  /** The final `isdir` / `isfile` dispatch; a path that is neither yields nothing. */
  function EntryResult(path: string, st: LineState, graftOffset: int, disk: Disk): (r: Parsed)
    ensures r.Directory? <==> path in disk.dirs
    ensures r.File? <==> path !in disk.dirs && path in disk.files
    ensures r != NoEntry ==> r.path == path && r.config == ConfigOf(st, path, graftOffset)
    ensures r.Directory? ==> r.flat == st.flat && r.video == st.video
  {
    if path in disk.dirs then Directory(path, ConfigOf(st, path, graftOffset), st.flat, st.video)
    else if path in disk.files then File(path, ConfigOf(st, path, graftOffset))
    else NoEntry
  }

  // ------------------------------------------------------------ a whole line

  /** The line with its quotes removed and trimmed. */
  function LineText(line: string): string { Strip(RemoveQuotes(line)) }

  /** The path a line names: its text with every modifier removed, trimmed. */
  function LinePath(line: string): string { Strip(StripModifiers(LineText(line))) }

  /** The modifiers of a line, in order. */
  function LineModifiers(line: string): seq<Modifier> { ClassifyAll(FindModifiers(LineText(line))) }

  /** The state the modifiers of a line leave. */
  function LineStateOf(line: string): LineState { Fold(Start, LineModifiers(line)) }

  /** The three kinds of line that only configure a filter or the random flag. */
  datatype ControlKind = RandomLine | RequireLine | ExcludeLine

  /** `[r]`, `[+]` and `[-]`, matched in that order. */
  function ControlKindOf(line: string): Option<ControlKind>
  {
    if StartsWith(line, "[r]") then Some(RandomLine)
    else if StartsWith(line, "[+]") then Some(RequireLine)
    else if StartsWith(line, "[-]") then Some(ExcludeLine)
    else None
  }

  /** A line that only configures a filter or the random flag. */
  predicate IsControlLine(line: string)
  {
    ControlKindOf(line).Some?
  }

  /** The keyword or path after the three-character prefix, trimmed. */
  function ControlArgument(line: string): string
    requires IsControlLine(line)
  {
    Strip(line[3..])
  }

  /** Everything one line does: the calls it makes on `defaults` and `filters`, and what it returns. */
  datatype Effect = Effect(
    random: bool,
    mustContain: set<string>,
    mustNotContain: set<string>,
    ignoredFiles: set<string>,
    ignoredDirs: set<string>,
    dontRecurseBeyond: set<string>,
    group: Option<(string, GroupConfig)>,
    video: Option<(Option<bool>, Option<bool>)>,
    globals: Option<(ModeTable, Option<bool>)>,
    result: Parsed)

  const NoEffect: Effect := Effect(false, {}, {}, {}, {}, {}, None, None, None, NoEntry)

  /** `[r]`, `[+]x` and `[-]x`, with `x` the argument. */
  function ControlEffect(kind: ControlKind, x: string, disk: Disk): Effect
  {
    match kind
    case RandomLine => NoEffect.(random := true)
    case RequireLine => NoEffect.(mustContain := {x})
    case ExcludeLine => Exclusion(x, IsAbs(x), x in disk.files)
  }

  /** `[-]x`: an absolute path is an ignored file when it is one, else an ignored directory; anything else a forbidden keyword. */
  function Exclusion(x: string, absolute: bool, isFile: bool): Effect
  {
    if absolute then
      if isFile then NoEffect.(ignoredFiles := {x}) else NoEffect.(ignoredDirs := {x})
    else NoEffect.(mustNotContain := {x})
  }

  /** A group was named (a `>` with at least one character after it). */
  predicate NamesGroup(st: LineState)
  {
    st.group.Some? && st.group.value != ""
  }

  /**
   * A `*` line: a named group stores its bundle and stops; otherwise a
   * video or mute setting goes global, and at the top level (when allowed)
   * so do the mode (the line's own, else the current effective one) and the
   * dont-recurse flag.
   */
  function StarEffect(st: LineState, recdepth: int, applyGlobalMode: bool, mode: ModeTable): Effect
  {
    if NamesGroup(st) then NoEffect.(group := Some((st.group.value, Bundle(st))))
    else
      NoEffect.(
        video := if st.video.Some? || st.mute.Some? then Some((st.video, st.mute)) else None,
        globals := if recdepth == 1 && applyGlobalMode
                   then Some((if TruthyMode(st.modeModifier) then st.modeModifier.value else mode, st.dontRecurse))
                   else None)
  }

  /** The set a `[/]` adds the line's path to. */
  function RecurseStops(ms: seq<Modifier>, path: string): set<string>
  {
    if DontRecurse in ms then {path} else {}
  }

  lemma ClassifyAllStep(tokens: seq<string>, i: nat)
    requires i < |tokens|
    ensures ClassifyAll(tokens[..i + 1]) == ClassifyAll(tokens[..i]) + [Classify(Content(tokens[i]))]
  {
    assert tokens[..i + 1][..i] == tokens[..i];
  }

  lemma RecurseStopsStep(ms: seq<Modifier>, m: Modifier, path: string)
    ensures RecurseStops(ms + [m], path) == RecurseStops(ms, path) + RecurseStops([m], path)
  {
    assert DontRecurse in ms + [m] <==> DontRecurse in ms || m == DontRecurse;
  }

  /** The modifier of each token, in order. */
  method ClassifyTokens(tokens: seq<string>) returns (ms: seq<Modifier>)
    ensures ms == ClassifyAll(tokens)
  {
    ms := [];
    var i := 0;
    while i < |tokens|
      invariant 0 <= i <= |tokens|
      invariant ms == ClassifyAll(tokens[..i])
    {
      ms := ms + [Classify(Content(tokens[i]))];
      ClassifyAllStep(tokens, i);
      i := i + 1;
    }
    assert tokens[..i] == tokens;
  }

  /** A line that names a path (or `*`) with the modifiers `ms`: what it does, with `mode` the effective mode before it. */
  function EntryEffect(ms: seq<Modifier>, path: string, recdepth: int, graftOffset: int, applyGlobalMode: bool,
                       disk: Disk, mode: ModeTable): Effect
  {
    var st := Fold(Start, ms);
    var stops := RecurseStops(ms, path);
    if path == "*" then StarEffect(st, recdepth, applyGlobalMode, mode).(dontRecurseBeyond := stops)
    else NoEffect.(dontRecurseBeyond := stops, result := EntryResult(path, st, graftOffset, disk))
  }

  /** `parse_input_line(line, recdepth, graft_offset, apply_global_mode)`, with `mode` the effective mode before the line. */
  function Interpret(line: string, recdepth: int, graftOffset: int, applyGlobalMode: bool, disk: Disk, mode: ModeTable): Effect
  {
    if IsControlLine(line) then ControlEffect(ControlKindOf(line).value, ControlArgument(line), disk)
    else EntryEffect(LineModifiers(line), LinePath(line), recdepth, graftOffset, applyGlobalMode, disk, mode)
  }

  /** Control lines return nothing and touch neither groups nor the video, mode or dont-recurse globals. */
  lemma ControlLinesOnlyConfigure(line: string, recdepth: int, graftOffset: int, applyGlobalMode: bool, disk: Disk, mode: ModeTable)
    requires IsControlLine(line)
    ensures var e := Interpret(line, recdepth, graftOffset, applyGlobalMode, disk, mode);
      e.result == NoEntry && e.group.None? && e.video.None? && e.globals.None? && e.dontRecurseBeyond == {}
    ensures var e := Interpret(line, recdepth, graftOffset, applyGlobalMode, disk, mode);
      e.random <==> StartsWith(line, "[r]")
  {
  }

  /** `[-]x` excludes a file or directory when x is absolute (a file when `isfile` says so) and a keyword otherwise. */
  lemma ExclusionKinds(line: string, disk: Disk, recdepth: int, graftOffset: int, applyGlobalMode: bool, mode: ModeTable)
    requires StartsWith(line, "[-]") && !StartsWith(line, "[r]")
    ensures var e := Interpret(line, recdepth, graftOffset, applyGlobalMode, disk, mode);
      var x := Strip(line[3..]);
      e.mustContain == {} &&
      (e.ignoredFiles == {x} <==> IsAbs(x) && x in disk.files) &&
      (e.ignoredDirs == {x} <==> IsAbs(x) && x !in disk.files) &&
      (e.mustNotContain == {x} <==> !IsAbs(x)) &&
      |e.ignoredFiles| + |e.ignoredDirs| + |e.mustNotContain| == 1
  {
    assert line[..3] == "[-]";
    assert !StartsWith(line, "[+]");
  }

  /** The global mode and dont-recurse are written only by a top-level `*` line without a group, with global mode allowed. */
  lemma GlobalsOnlyFromTopStarLine(line: string, recdepth: int, graftOffset: int, applyGlobalMode: bool, disk: Disk, mode: ModeTable)
    ensures Interpret(line, recdepth, graftOffset, applyGlobalMode, disk, mode).globals.Some? <==>
      !IsControlLine(line) && LinePath(line) == "*" && !NamesGroup(LineStateOf(line)) && recdepth == 1 && applyGlobalMode
  {
  }

  /** A `*` line without a mode of its own writes the current effective mode back as the global one. */
  lemma StarLineKeepsMode(line: string, graftOffset: int, disk: Disk, mode: ModeTable)
    requires !IsControlLine(line) && LinePath(line) == "*" && !NamesGroup(LineStateOf(line))
    requires !TruthyMode(LineStateOf(line).modeModifier)
    ensures Interpret(line, 1, graftOffset, true, disk, mode).globals == Some((mode, LineStateOf(line).dontRecurse))
  {
  }

  /** A group line stores its bundle and does nothing else to the defaults, and returns nothing. */
  lemma GroupLineStopsEarly(line: string, recdepth: int, graftOffset: int, applyGlobalMode: bool, disk: Disk, mode: ModeTable)
    requires !IsControlLine(line) && LinePath(line) == "*" && NamesGroup(LineStateOf(line))
    ensures var e := Interpret(line, recdepth, graftOffset, applyGlobalMode, disk, mode);
      e.group == Some((LineStateOf(line).group.value, Bundle(LineStateOf(line)))) &&
      e.video.None? && e.globals.None? && !e.random && e.result == NoEntry
  {
  }

  /** A line naming a path changes no default and no filter except the dont-recurse set, and returns that path when it exists. */
  lemma EntryLinesChangeNoDefaults(line: string, recdepth: int, graftOffset: int, applyGlobalMode: bool, disk: Disk, mode: ModeTable)
    requires !IsControlLine(line) && LinePath(line) != "*"
    ensures var e := Interpret(line, recdepth, graftOffset, applyGlobalMode, disk, mode);
      !e.random && e.group.None? && e.video.None? && e.globals.None? &&
      e.mustContain == {} && e.mustNotContain == {} && e.ignoredFiles == {} && e.ignoredDirs == {} &&
      e.dontRecurseBeyond <= {LinePath(line)} &&
      (e.result != NoEntry <==> LinePath(line) in disk.dirs || LinePath(line) in disk.files) &&
      (e.result != NoEntry ==> e.result.path == LinePath(line))
  {
  }

  /** The settings returned for a path: weight, percentage, proportion and user proportion all come from the modifiers. */
  lemma EntrySettings(line: string, recdepth: int, graftOffset: int, applyGlobalMode: bool, disk: Disk, mode: ModeTable)
    requires !IsControlLine(line) && LinePath(line) != "*"
    requires LinePath(line) in disk.dirs || LinePath(line) in disk.files
    ensures var r := Interpret(line, recdepth, graftOffset, applyGlobalMode, disk, mode).result;
      var st := LineStateOf(line);
      r.config.weightModifier == st.weightModifier && r.config.isPercentage == st.isPercentage &&
      r.config.proportion == r.config.userProportion &&
      r.config.graftLevel == BaseLevel(st.graftLevel, LinePath(line)) + graftOffset
  {
    ProportionMirrored(Start, LineModifiers(line));
  }

  // ------------------------------------------------------------ the .tree fallback

  /** What the `.tree` case of `process_entry` does. */
  datatype TreeOutcome =
    | Current(tree: TreeModel.Tree)
    | Reprocess(source: string, recdepth: int, graftOffset: int, applyGlobalMode: bool)
    | NoTree

  /**
   * `_load_tree_if_current`: the tree, if it could be loaded (`load` is None
   * when unpickling failed) and its `_pickle_version` is present and current.
   */
  function LoadTreeIfCurrent(load: Option<(TreeModel.Tree, Option<int>)>): (r: Option<TreeModel.Tree>)
    ensures r.Some? <==> load.Some? && load.value.1.Some? && TreeModel.IsCurrent(load.value.1.value)
    ensures r.Some? ==> r.value == load.value.0
  {
    if load.Some? && load.value.1.Some? && TreeModel.IsCurrent(load.value.1.value) then Some(load.value.0) else None
  }

  /** The sibling list a stale tree falls back to: the `.lst` first, then the `.txt`. */
  function Alternate(full: string, disk: Disk): (r: Option<string>)
    ensures r.Some? ==> r.value == SplitExt(full).0 + ".lst" || r.value == SplitExt(full).0 + ".txt"
    ensures r.Some? ==> r.value in disk.files
    ensures r.None? <==> SplitExt(full).0 + ".lst" !in disk.files && SplitExt(full).0 + ".txt" !in disk.files
    ensures SplitExt(full).0 + ".lst" in disk.files ==> r == Some(SplitExt(full).0 + ".lst")
  {
    var stem := SplitExt(full).0;
    if stem + ".lst" in disk.files then Some(stem + ".lst")
    else if stem + ".txt" in disk.files then Some(stem + ".txt")
    else None
  }

  /**
   * The fallback as written: the re-invocation of `process_entry` passes
   * neither `graft_offset` nor `apply_global_mode`, so they revert to 0 and True.
   */
  function TreeFallbackAsWritten(full: string, loaded: Option<TreeModel.Tree>, recdepth: int, graftOffset: int,
                                 applyGlobalMode: bool, disk: Disk): TreeOutcome
  {
    if loaded.Some? then Current(loaded.value)
    else match Alternate(full, disk)
      case Some(alt) => Reprocess(alt, recdepth, 0, true)
      case None => NoTree
  }

  /** The fallback as intended: the alternate source is processed in the caller's context. */
  function TreeFallback(full: string, loaded: Option<TreeModel.Tree>, recdepth: int, graftOffset: int,
                        applyGlobalMode: bool, disk: Disk): TreeOutcome
  {
    if loaded.Some? then Current(loaded.value)
    else match Alternate(full, disk)
      case Some(alt) => Reprocess(alt, recdepth, graftOffset, applyGlobalMode)
      case None => NoTree
  }

  /** A loaded tree is used as it is (a `Tree` is always true); otherwise the `.lst`, then the `.txt`, else nothing. */
  lemma FallbackOrder(full: string, loaded: Option<TreeModel.Tree>, recdepth: int, graftOffset: int,
                      applyGlobalMode: bool, disk: Disk)
    ensures var o := TreeFallback(full, loaded, recdepth, graftOffset, applyGlobalMode, disk);
      (loaded.Some? ==> o == Current(loaded.value)) &&
      (o.NoTree? <==> loaded.None? && Alternate(full, disk).None?) &&
      (o.Reprocess? ==> o.source in disk.files && o.recdepth == recdepth &&
                        o.graftOffset == graftOffset && o.applyGlobalMode == applyGlobalMode)
  {
  }

  /**
   * As written, a stale tree reached with a graft offset or with global
   * mode switched off (as the multi-source builder calls it) loses both when
   * its sibling list is processed instead.
   */
  lemma FallbackDropsContext(full: string, recdepth: int, graftOffset: int, applyGlobalMode: bool, disk: Disk)
    requires Alternate(full, disk).Some?
    requires graftOffset != 0 || !applyGlobalMode
    ensures TreeFallbackAsWritten(full, None, recdepth, graftOffset, applyGlobalMode, disk) !=
            TreeFallback(full, None, recdepth, graftOffset, applyGlobalMode, disk)
    ensures TreeFallbackAsWritten(full, None, recdepth, graftOffset, applyGlobalMode, disk).graftOffset == 0
    ensures TreeFallbackAsWritten(full, None, recdepth, graftOffset, applyGlobalMode, disk).applyGlobalMode
  {
  }

  // ------------------------------------------------------------ the processor

  class InputProcessor {
    const defaults: Defaults
    const filters: Filtering.Filters

    constructor (defaults: Defaults, filters: Filtering.Filters)
      ensures this.defaults == defaults && this.filters == filters
    {
      this.defaults := defaults;
      this.filters := filters;
    }

    /** The defaults and filters after the calls `e` describes, every other field as before. */
    twostate predicate Performed(e: Effect)
      reads this, defaults, filters
    {
      defaults.globalIsRandom == (if e.random then Some(true) else old(defaults.globalIsRandom)) &&
      defaults.globalMode == (if e.globals.Some? then Some(e.globals.value.0) else old(defaults.globalMode)) &&
      defaults.globalDontRecurse ==
        (if e.globals.Some? && e.globals.value.1.Some? then e.globals.value.1 else old(defaults.globalDontRecurse)) &&
      defaults.globalVideo == (if e.video.Some? && e.video.value.0.Some? then e.video.value.0 else old(defaults.globalVideo)) &&
      defaults.globalMute == (if e.video.Some? && e.video.value.1.Some? then e.video.value.1 else old(defaults.globalMute)) &&
      defaults.groups == (if e.group.Some? then old(defaults.groups)[e.group.value.0 := e.group.value.1] else old(defaults.groups)) &&
      filters.mustContain == old(filters.mustContain) + e.mustContain &&
      filters.mustNotContain == old(filters.mustNotContain) + e.mustNotContain &&
      filters.ignoredFiles == old(filters.ignoredFiles) + e.ignoredFiles &&
      filters.ignoredDirs == old(filters.ignoredDirs) + e.ignoredDirs &&
      filters.dontRecurseBeyond == old(filters.dontRecurseBeyond) + e.dontRecurseBeyond
    }

    /** `parse_input_line`: the defaults and filters change as `Interpret` says, and the result is its result. */
    method ParseInputLine(line: string, recdepth: int, graftOffset: int, applyGlobalMode: bool, disk: Disk) returns (r: Parsed)
      modifies defaults`globalMode, defaults`globalIsRandom, defaults`globalDontRecurse, defaults`globalVideo,
               defaults`globalMute, defaults`groups
      modifies filters`mustContain, filters`mustNotContain, filters`ignoredFiles, filters`ignoredDirs, filters`dontRecurseBeyond
      ensures Performed(Interpret(line, recdepth, graftOffset, applyGlobalMode, disk, old(defaults.Mode())))
      ensures r == Interpret(line, recdepth, graftOffset, applyGlobalMode, disk, old(defaults.Mode())).result
    {
      var kind := ControlKindOf(line);
      if kind.Some? {
        Configure(kind.value, Strip(line[3..]), disk);
        return NoEntry;
      }
      var text := Strip(RemoveQuotes(line));
      var tokens := FindModifiers(text);
      var path := Strip(StripModifiers(text));
      r := ParseEntry(tokens, path, recdepth, graftOffset, applyGlobalMode, disk);
    }

    /** A line that is not a control line, once split into its modifier tokens and its path. */
    method ParseEntry(tokens: seq<string>, path: string, recdepth: int, graftOffset: int, applyGlobalMode: bool, disk: Disk)
      returns (r: Parsed)
      modifies defaults`globalMode, defaults`globalIsRandom, defaults`globalDontRecurse, defaults`globalVideo,
               defaults`globalMute, defaults`groups
      modifies filters`dontRecurseBeyond
      ensures Performed(EntryEffect(ClassifyAll(tokens), path, recdepth, graftOffset, applyGlobalMode, disk, old(defaults.Mode())))
      ensures r == EntryEffect(ClassifyAll(tokens), path, recdepth, graftOffset, applyGlobalMode, disk, old(defaults.Mode())).result
    {
      var st := ApplyModifiers(tokens, path);
      if path == "*" {
        StarLine(st, recdepth, applyGlobalMode);
        return NoEntry;
      }
      r := EntryResult(path, st, graftOffset, disk);
    }

    /** The `[r]`, `[+]` and `[-]` branches, with `x` the argument. */
    method Configure(kind: ControlKind, x: string, disk: Disk)
      modifies defaults`globalMode, defaults`globalIsRandom, defaults`globalDontRecurse
      modifies filters`mustContain, filters`mustNotContain, filters`ignoredFiles, filters`ignoredDirs
      ensures Performed(ControlEffect(kind, x, disk))
    {
      match kind
      case RandomLine => SetRandom();
      case RequireLine => filters.AddMustContain(x);
      case ExcludeLine => Exclude(x, IsAbs(x), x in disk.files);
    }

    /** The `[-]` branch. */
    method Exclude(x: string, absolute: bool, isFile: bool)
      modifies filters`mustNotContain, filters`ignoredFiles, filters`ignoredDirs
      ensures Performed(Exclusion(x, absolute, isFile))
    {
      if absolute {
        if isFile {
          filters.AddIgnoredFile(x);
        } else {
          filters.AddIgnoredDir(x);
        }
      } else {
        filters.AddMustNotContain(x);
      }
    }

    /** `set_global_defaults(is_random=True)` */
    method SetRandom()
      modifies defaults`globalMode, defaults`globalIsRandom, defaults`globalDontRecurse
      ensures Performed(NoEffect.(random := true))
    {
      defaults.SetGlobalDefaults(None, Some(true), None);
    }

    /**
     * The handler loop: each token's text is classified and its handler
     * run; `[/]` also stops recursion below `path`. Classifying reads
     * nothing, so the tokens are classified first and the handlers run after.
     */
    method ApplyModifiers(tokens: seq<string>, path: string) returns (st: LineState)
      modifies filters`dontRecurseBeyond
      ensures st == Fold(Start, ClassifyAll(tokens))
      ensures filters.dontRecurseBeyond == old(filters.dontRecurseBeyond) + RecurseStops(ClassifyAll(tokens), path)
    {
      var ms := ClassifyTokens(tokens);
      st := RunHandlers(ms, path);
    }

    /** The handlers of `ms`, left to right, from the initial state. */
    method RunHandlers(ms: seq<Modifier>, path: string) returns (st: LineState)
      modifies filters`dontRecurseBeyond
      ensures st == Fold(Start, ms)
      ensures filters.dontRecurseBeyond == old(filters.dontRecurseBeyond) + RecurseStops(ms, path)
    {
      st := Start;
      var i := 0;
      while i < |ms|
        invariant 0 <= i <= |ms|
        invariant st == Fold(Start, ms[..i])
        invariant filters.dontRecurseBeyond == old(filters.dontRecurseBeyond) + RecurseStops(ms[..i], path)
      {
        if ms[i] == DontRecurse {
          filters.AddDontRecurseBeyondFolder(path);
        }
        st := Step(st, ms[i]);
        assert ms[..i + 1] == ms[..i] + [ms[i]];
        RecurseStopsStep(ms[..i], ms[i], path);
        i := i + 1;
      }
      assert ms[..i] == ms;
    }

    /** The `*` line: a group bundle, or the video, mute, mode and dont-recurse globals. */
    method StarLine(st: LineState, recdepth: int, applyGlobalMode: bool)
      modifies defaults`globalMode, defaults`globalIsRandom, defaults`globalDontRecurse, defaults`globalVideo, defaults`globalMute, defaults`groups
      ensures Performed(StarEffect(st, recdepth, applyGlobalMode, old(defaults.Mode())))
    {
      if NamesGroup(st) {
        defaults.SetGroup(st.group.value, Bundle(st));
        return;
      }
      if st.video.Some? || st.mute.Some? {
        SetVideo(st.video, st.mute);
      }
      if recdepth == 1 && applyGlobalMode {
        var mode := if TruthyMode(st.modeModifier) then st.modeModifier.value else defaults.Mode();
        SetModeAndRecursion(mode, st.dontRecurse);
      }
    }

    /** `set_global_video(video, mute)` */
    method SetVideo(video: Option<bool>, mute: Option<bool>)
      modifies defaults`globalVideo, defaults`globalMute
      ensures defaults.globalVideo == (if video.Some? then video else old(defaults.globalVideo))
      ensures defaults.globalMute == (if mute.Some? then mute else old(defaults.globalMute))
    {
      defaults.SetGlobalVideo(video, mute);
    }

    /** `set_global_defaults(mode=mode, dont_recurse=dontRecurse)` */
    method SetModeAndRecursion(mode: ModeTable, dontRecurse: Option<bool>)
      modifies defaults`globalMode, defaults`globalIsRandom, defaults`globalDontRecurse
      ensures defaults.globalIsRandom == old(defaults.globalIsRandom)
      ensures defaults.globalMode == Some(mode)
      ensures defaults.globalDontRecurse == (if dontRecurse.Some? then dontRecurse else old(defaults.globalDontRecurse))
    {
      defaults.SetGlobalDefaults(Some(mode), None, dontRecurse);
    }
  }
}
