/**
 * The mode table (`enkan/utils/Defaults.py`): the parser of mode strings such
 * as `b2,3w1`, the per-level policy lookup, and the `Defaults` object whose
 * getters resolve each setting as command line, else global, else built-in.
 */
module Modes {
  import opened Common
  import opened Scan

  /** A table entry: a letter with its slopes, or a bare letter (the built-in `{1: "w"}`). */
  datatype ModeEntry = Entry(letter: string, slopes: seq<int>) | Bare(letter: string)

  /** Level to mode entry. */
  type ModeTable = map<int, ModeEntry>

  /** The policy `resolve_mode` hands out: a letter and exactly the stored slopes. */
  datatype Policy = Policy(letter: string, slopes: seq<int>)

  /** The built-in mode of `Defaults`. */
  const BuiltinMode: ModeTable := map[1 := Bare("w")]

  // ------------------------------------------------------------ mode strings

  /** One `findall` match of `([bw])(\d+)(?:,(-?\d+))?(?:,(-?\d+))?`. */
  datatype ModeMatch = ModeMatch(letter: char, level: nat, slope1: Option<int>, slope2: Option<int>)

  predicate IsModeLetter(c: char)
  {
    c == 'b' || c == 'B' || c == 'w' || c == 'W'
  }

  function LowerLetter(c: char): char
  {
    if c == 'B' then 'b' else if c == 'W' then 'w' else c
  }

  /** `-n` when the minus sign was present, else `n`. */
  function Signed(neg: bool, n: nat): int
  {
    if neg then -(n as int) else n
  }

  /** The optional group `,(-?\d+)` at `i`: its value and end, if it matches. */
  function SlopeAt(s: string, i: nat): (r: Option<(int, nat)>)
    requires i <= |s|
    ensures r.Some? ==> i < r.value.1 <= |s|
  {
    if i < |s| && s[i] == ',' then
      var neg := i + 1 < |s| && s[i + 1] == '-';
      var start := if neg then i + 2 else i + 1;
      var end := DigitsEnd(s, start);
      if end == start then None
      else
        Some((Signed(neg, DecimalValue(s[start..end])), end))
    else None
  }

  /** The greedy match anchored at the start of `s`, with its length. */
  function MatchAt(s: string): (r: Option<(ModeMatch, nat)>)
    ensures r.Some? ==> 0 < r.value.1 <= |s|
  {
    if |s| >= 2 && IsModeLetter(s[0]) && IsDigit(s[1]) then
      var levelEnd := DigitsEnd(s, 1);
      var level := DecimalValue(s[1..levelEnd]);
      match SlopeAt(s, levelEnd)
      case None => Some((ModeMatch(s[0], level, None, None), levelEnd))
      case Some((s1, end1)) =>
        match SlopeAt(s, end1)
        case None => Some((ModeMatch(s[0], level, Some(s1), None), end1))
        case Some((s2, end2)) => Some((ModeMatch(s[0], level, Some(s1), Some(s2)), end2))
    else None
  }

  /** `pattern.findall(s)`: scan left to right, resuming after each match. */
  function Matches(s: string): seq<ModeMatch>
    decreases |s|
  {
    if s == [] then []
    else match MatchAt(s)
      case Some((m, len)) => [m] + Matches(s[len..])
      case None => Matches(s[1..])
  }

  /** The table entry one match contributes. */
  function EntryOf(m: ModeMatch): ModeEntry
  {
    Entry([LowerLetter(m.letter)], [m.slope1.GetOr(0), m.slope2.GetOr(0)])
  }

  /** The dictionary loop: each match assigns its level, later ones overwriting. */
  function FoldMatches(ms: seq<ModeMatch>, acc: ModeTable): ModeTable
    decreases |ms|
  {
    if ms == [] then acc else FoldMatches(ms[1..], acc[ms[0].level := EntryOf(ms[0])])
  }

  /** A mode table Python treats as true: present and not empty. */
  predicate TruthyMode(m: Option<ModeTable>)
  {
    m.Some? && m.value != map[]
  }

  /** `parse_mode_string` */
  function ParseModeString(s: string): ModeTable
  {
    FoldMatches(Matches(s), map[])
  }

  /** `CX_PATTERN.match(s)`: `s` is one or more mode blocks and nothing else. */
  predicate IsModeString(s: string)
  {
    s != [] && AllBlocks(s)
  }

  predicate AllBlocks(s: string)
    decreases |s|
  {
    s == [] || (MatchAt(s).Some? && AllBlocks(s[MatchAt(s).value.1..]))
  }

  /** Every entry `parse_mode_string` produces is a lowercase `b`/`w` with two slopes. */
  lemma {:induction false} FoldMatchesShape(ms: seq<ModeMatch>, acc: ModeTable)
    requires forall k :: k in acc ==> WellShaped(acc[k])
    requires forall k :: 0 <= k < |ms| ==> IsModeLetter(ms[k].letter)
    ensures forall k :: k in FoldMatches(ms, acc) ==> WellShaped(FoldMatches(ms, acc)[k])
    decreases |ms|
  {
    if ms != [] {
      var acc' := acc[ms[0].level := EntryOf(ms[0])];
      FoldMatchesShape(ms[1..], acc');
    }
  }

  predicate WellShaped(m: ModeEntry)
  {
    m.Entry? && (m.letter == "b" || m.letter == "w") && |m.slopes| == 2
  }

  lemma {:induction false} MatchesLetters(s: string)
    ensures forall k :: 0 <= k < |Matches(s)| ==> IsModeLetter(Matches(s)[k].letter)
    decreases |s|
  {
    if s != [] {
      match MatchAt(s)
      case Some((m, len)) => MatchesLetters(s[len..]);
      case None => MatchesLetters(s[1..]);
    }
  }

  lemma ParseModeStringShape(s: string)
    ensures forall k :: k in ParseModeString(s) ==> WellShaped(ParseModeString(s)[k])
  {
    MatchesLetters(s);
    FoldMatchesShape(Matches(s), map[]);
  }

  /** The table after the loop: the last match for a level wins, other levels keep `acc`. */
  lemma {:induction false} FoldMatchesLast(ms: seq<ModeMatch>, acc: ModeTable, level: int)
    ensures level in FoldMatches(ms, acc) <==>
              (level in acc || exists k :: 0 <= k < |ms| && ms[k].level == level)
    ensures forall k :: 0 <= k < |ms| && ms[k].level == level && LastWithLevel(ms, k) ==>
              FoldMatches(ms, acc)[level] == EntryOf(ms[k])
    ensures (forall k :: 0 <= k < |ms| ==> ms[k].level != level) && level in acc ==>
              FoldMatches(ms, acc)[level] == acc[level]
    decreases |ms|
  {
    if ms != [] {
      var tl := ms[1..];
      var acc' := acc[ms[0].level := EntryOf(ms[0])];
      FoldMatchesLast(tl, acc', level);
      if exists k :: 0 <= k < |tl| && tl[k].level == level {
        var k :| 0 <= k < |tl| && tl[k].level == level;
        assert ms[k + 1].level == level;
      }
      if exists k :: 0 <= k < |ms| && ms[k].level == level {
        var k :| 0 <= k < |ms| && ms[k].level == level;
        if k > 0 { assert tl[k - 1].level == level; }
      }
      forall k | 0 <= k < |ms| && ms[k].level == level && LastWithLevel(ms, k)
        ensures FoldMatches(ms, acc)[level] == EntryOf(ms[k])
      {
        if k > 0 {
          assert tl[k - 1] == ms[k];
          assert LastWithLevel(tl, k - 1) by {
            forall j | k - 1 < j < |tl| ensures tl[j].level != tl[k - 1].level {
              assert tl[j] == ms[j + 1];
            }
          }
        } else {
          forall j | 0 <= j < |tl| ensures tl[j].level != level {
            assert tl[j] == ms[j + 1];
          }
        }
      }
      if (forall k :: 0 <= k < |ms| ==> ms[k].level != level) && level in acc {
        forall j | 0 <= j < |tl| ensures tl[j].level != level {
          assert tl[j] == ms[j + 1];
        }
      }
    }
  }

  /** No later match in `ms` has the level of `ms[k]`. */
  predicate LastWithLevel(ms: seq<ModeMatch>, k: nat)
    requires k < |ms|
  {
    forall j :: k < j < |ms| ==> ms[j].level != ms[k].level
  }

  // ---------------------------------------------------- rendering, round trip

  /** A slope as written: an optional minus sign and a run of digits. */
  datatype Slope = Slope(neg: bool, digits: string)

  /** A mode block as a user writes it: letter, level digits and up to two slopes. */
  datatype Block = Block(letter: char, level: string, slope1: Option<Slope>, slope2: Option<Slope>)

  predicate ValidSlope(o: Option<Slope>)
  {
    o.Some? ==> o.value.digits != [] && AllDigits(o.value.digits)
  }

  predicate ValidBlock(b: Block)
  {
    && IsModeLetter(b.letter)
    && b.level != [] && AllDigits(b.level)
    && ValidSlope(b.slope1) && ValidSlope(b.slope2)
    && (b.slope2.Some? ==> b.slope1.Some?)
  }

  function SlopeHead(neg: bool): string
  {
    if neg then ",-" else ","
  }

  function SlopeText(o: Option<Slope>): (r: string)
    ensures o.Some? ==> r != [] && r[0] == ','
    ensures o.None? ==> r == []
  {
    match o
    case None => ""
    case Some(sl) => SlopeHead(sl.neg) + sl.digits
  }

  /** The value `int()` gives the slope's text. */
  function SlopeValue(o: Option<Slope>): Option<int>
    requires ValidSlope(o)
  {
    match o
    case None => None
    case Some(sl) => Some(Signed(sl.neg, DecimalValue(sl.digits)))
  }

  function RenderBlock(b: Block): (r: string)
    ensures r != [] && r[0] == b.letter
  {
    [b.letter] + b.level + SlopeText(b.slope1) + SlopeText(b.slope2)
  }

  function Render(bs: seq<Block>): string
  {
    if bs == [] then "" else RenderBlock(bs[0]) + Render(bs[1..])
  }

  /** The match the pattern should report for a block. */
  function MatchOf(b: Block): ModeMatch
    requires ValidBlock(b)
  {
    ModeMatch(b.letter, DecimalValue(b.level), SlopeValue(b.slope1), SlopeValue(b.slope2))
  }

  /** A run of digits followed by a non-digit ends where the run ends. */
  lemma {:induction false} DigitsEndSuffix(s: string, off: nat, t: string, tail: string)
    requires off <= |s| && s[off..] == t + tail && AllDigits(t)
    requires tail == [] || !IsDigit(tail[0])
    ensures DigitsEnd(s, off) == off + |t| && s[off..off + |t|] == t
    decreases |t|
  {
    if |t| > 0 {
      assert s[off] == t[0];
      assert s[off + 1..] == t[1..] + tail;
      DigitsEndSuffix(s, off + 1, t[1..], tail);
    } else if tail != [] {
      assert s[off] == tail[0];
    }
    assert s[off..off + |t|] == s[off..][..|t|];
  }

  lemma SuffixDrop(s: string, i: nat, a: string, b: string, c: string)
    requires i <= |s| && s[i..] == a + b + c
    ensures s[i + |a|..] == b + c
  {
    assert s[i + |a|..] == s[i..][|a|..];
    assert (a + b + c)[|a|..] == b + c;
  }

  /**
   * What the scanner sees of an optional slope group at `e` that ends at
   * `end`: nothing but a non-comma when absent; otherwise a comma, the sign
   * and a maximal run of the slope's digits.
   */
  predicate SlopeSeen(s: string, e: nat, o: Option<Slope>, end: nat)
  {
    && e <= |s|
    && (o.None? ==> end == e && (e == |s| || s[e] != ','))
    && (o.Some? ==>
          var start := e + |SlopeHead(o.value.neg)|;
          && e < |s| && s[e] == ','
          && o.value.neg == (e + 1 < |s| && s[e + 1] == '-')
          && start == (if o.value.neg then e + 2 else e + 1)
          && start < end <= |s|
          && DigitsEnd(s, start) == end
          && s[start..end] == o.value.digits)
  }

  /** A written slope group, followed by a non-digit, is seen as such. */
  lemma SlopeSeenOf(s: string, e: nat, o: Option<Slope>, t: string, tail: string, end: nat)
    requires ValidSlope(o) && t == SlopeText(o) && end == e + |t|
    requires e <= |s| && s[e..] == t + tail
    requires tail == [] || !IsDigit(tail[0])
    requires o.None? ==> tail == [] || tail[0] != ','
    ensures SlopeSeen(s, e, o, end)
  {
    if o.None? {
      assert s[e..] == tail;
      if e < |s| { assert s[e] == tail[0]; }
    } else {
      var head := SlopeHead(o.value.neg);
      var digits := o.value.digits;
      SuffixDrop(s, e, head, digits, tail);
      assert s[e] == ',' by { assert s[e] == s[e..][0]; }
      if o.value.neg {
        assert s[e + 1] == '-' by { assert s[e + 1] == s[e..][1]; }
      } else {
        assert s[e + 1] == digits[0] by { assert s[e + 1] == s[e + |head|..][0]; }
      }
      DigitsEndSuffix(s, e + |head|, digits, tail);
    }
  }

  /** A seen slope group is what `SlopeAt` reports. */
  lemma SlopeAtSeen(s: string, e: nat, o: Option<Slope>, end: nat)
    requires ValidSlope(o) && SlopeSeen(s, e, o, end)
    ensures o.None? ==> SlopeAt(s, e).None?
    ensures o.Some? ==> SlopeAt(s, e) == Some((SlopeValue(o).value, end))
  {
  }

  /** The letter and level digits of a block are read as such. */
  lemma MatchAtLevel(s: string, letter: char, lv: string, after: string)
    requires s == [letter] + lv + after
    requires IsModeLetter(letter) && lv != [] && AllDigits(lv)
    requires after == [] || !IsDigit(after[0])
    ensures |s| >= 2 && IsModeLetter(s[0]) && IsDigit(s[1])
    ensures DigitsEnd(s, 1) == 1 + |lv| && s[1..1 + |lv|] == lv
    ensures s[1 + |lv|..] == after
  {
    assert s[1..] == lv + after;
    assert s[1] == lv[0];
    DigitsEndSuffix(s, 1, lv, after);
    assert s[1 + |lv|..] == s[1..][|lv|..];
  }

  /** `MatchAt` unfolded once, given the level and the slope groups seen. */
  lemma MatchAtSeen(s: string, lv: string, o1: Option<Slope>, o2: Option<Slope>, e0: nat, e1: nat, e2: nat)
    requires ValidSlope(o1) && ValidSlope(o2) && (o2.Some? ==> o1.Some?)
    requires |s| >= 2 && IsModeLetter(s[0]) && IsDigit(s[1])
    requires e0 == 1 + |lv| && e0 <= |s| && DigitsEnd(s, 1) == e0 && s[1..e0] == lv
    requires SlopeSeen(s, e0, o1, e1)
    requires o1.Some? ==> SlopeSeen(s, e1, o2, e2)
    requires o1.None? ==> e2 == e1
    ensures MatchAt(s) == Some((ModeMatch(s[0], DecimalValue(lv), SlopeValue(o1), SlopeValue(o2)), e2))
  {
    SlopeAtSeen(s, e0, o1, e1);
    if o1.Some? {
      SlopeAtSeen(s, e1, o2, e2);
    }
  }

  /** A rendered block, followed by nothing or by another block, matches as itself. */
  lemma MatchAtBlock(b: Block, rest: string)
    requires ValidBlock(b)
    requires rest == [] || IsModeLetter(rest[0])
    ensures MatchAt(RenderBlock(b) + rest) == Some((MatchOf(b), |RenderBlock(b)|))
  {
    var s := RenderBlock(b) + rest;
    var e0, e1, e2 := BlockSeen(s, b, rest);
    MatchAtSeen(s, b.level, b.slope1, b.slope2, e0, e1, e2);
  }

  /** What the scanner sees of a rendered block: the level digits and the slope groups. */
  lemma BlockSeen(s: string, b: Block, rest: string) returns (e0: nat, e1: nat, e2: nat)
    requires ValidBlock(b)
    requires rest == [] || IsModeLetter(rest[0])
    requires s == RenderBlock(b) + rest
    ensures |s| >= 2 && IsModeLetter(s[0]) && IsDigit(s[1]) && s[0] == b.letter
    ensures e0 == 1 + |b.level| && e0 <= |s| && DigitsEnd(s, 1) == e0 && s[1..e0] == b.level
    ensures SlopeSeen(s, e0, b.slope1, e1)
    ensures b.slope1.Some? ==> SlopeSeen(s, e1, b.slope2, e2)
    ensures b.slope1.None? ==> e2 == e1
    ensures e2 == |RenderBlock(b)|
  {
    var t1 := SlopeText(b.slope1);
    var t2 := SlopeText(b.slope2);
    Assoc5([b.letter], b.level, t1, t2, rest);
    e0, e1, e2 := PartsSeen(s, b.letter, b.level, b.slope1, b.slope2, t1, t2, rest);
  }

  lemma Assoc5(a: string, b: string, c: string, d: string, e: string)
    ensures a + b + c + d + e == a + b + (c + d + e)
    ensures c + d + e == c + (d + e)
  {
  }

  lemma PartsSeen(s: string, letter: char, lv: string, o1: Option<Slope>, o2: Option<Slope>,
                  t1: string, t2: string, rest: string) returns (e0: nat, e1: nat, e2: nat)
    requires IsModeLetter(letter) && lv != [] && AllDigits(lv)
    requires ValidSlope(o1) && ValidSlope(o2) && (o2.Some? ==> o1.Some?)
    requires t1 == SlopeText(o1) && t2 == SlopeText(o2)
    requires rest == [] || IsModeLetter(rest[0])
    requires s == [letter] + lv + (t1 + t2 + rest)
    ensures |s| >= 2 && IsModeLetter(s[0]) && IsDigit(s[1]) && s[0] == letter
    ensures e0 == 1 + |lv| && e0 <= |s| && DigitsEnd(s, 1) == e0 && s[1..e0] == lv
    ensures e1 == e0 + |t1| && e2 == e1 + |t2|
    ensures SlopeSeen(s, e0, o1, e1)
    ensures o1.Some? ==> SlopeSeen(s, e1, o2, e2)
  {
    var after := t1 + t2 + rest;
    TailsStart(o1, o2, t1, t2, rest);
    MatchAtLevel(s, letter, lv, after);
    e0 := 1 + |lv|;
    e1 := e0 + |t1|;
    e2 := e1 + |t2|;
    SlopesSeen(s, e0, o1, o2, t1, t2, rest, e1, e2);
  }

  /** The text after the level, and after the first slope, starts with no digit. */
  lemma TailsStart(o1: Option<Slope>, o2: Option<Slope>, t1: string, t2: string, rest: string)
    requires ValidSlope(o1) && ValidSlope(o2) && (o2.Some? ==> o1.Some?)
    requires t1 == SlopeText(o1) && t2 == SlopeText(o2)
    requires rest == [] || IsModeLetter(rest[0])
    ensures t1 + t2 + rest == [] || !IsDigit((t1 + t2 + rest)[0])
    ensures t2 + rest == [] || !IsDigit((t2 + rest)[0])
    ensures o1.None? ==> t2 + rest == rest
  {
    if o1.Some? { assert (t1 + t2 + rest)[0] == t1[0]; }
    else { assert t1 + t2 + rest == rest; }
    if o2.Some? { assert (t2 + rest)[0] == t2[0]; }
    else { assert t2 + rest == rest; }
  }

  lemma SlopesSeen(s: string, e0: nat, o1: Option<Slope>, o2: Option<Slope>,
                   t1: string, t2: string, rest: string, e1: nat, e2: nat)
    requires ValidSlope(o1) && ValidSlope(o2) && (o2.Some? ==> o1.Some?)
    requires t1 == SlopeText(o1) && t2 == SlopeText(o2)
    requires rest == [] || IsModeLetter(rest[0])
    requires t2 + rest == [] || !IsDigit((t2 + rest)[0])
    requires o1.None? ==> t2 + rest == rest
    requires e0 <= |s| && s[e0..] == t1 + t2 + rest
    requires e1 == e0 + |t1| && e2 == e1 + |t2|
    ensures SlopeSeen(s, e0, o1, e1)
    ensures o1.Some? ==> SlopeSeen(s, e1, o2, e2)
  {
    assert t1 + t2 + rest == t1 + (t2 + rest);
    SlopeSeenOf(s, e0, o1, t1, t2 + rest, e1);
    if o1.Some? {
      SuffixDrop(s, e0, t1, t2, rest);
      SlopeSeenOf(s, e1, o2, t2, rest, e2);
    }
  }

  lemma {:induction false} MatchesRender(bs: seq<Block>)
    requires forall k :: 0 <= k < |bs| ==> ValidBlock(bs[k])
    ensures Matches(Render(bs)) == MatchesOfBlocks(bs)
  {
    if bs != [] {
      var rest := Render(bs[1..]);
      if bs[1..] != [] { assert rest[0] == bs[1].letter; }
      MatchAtBlock(bs[0], rest);
      var s := Render(bs);
      assert s == RenderBlock(bs[0]) + rest;
      assert s[|RenderBlock(bs[0])|..] == rest;
      MatchesRender(bs[1..]);
    }
  }

  function MatchesOfBlocks(bs: seq<Block>): (r: seq<ModeMatch>)
    requires forall k :: 0 <= k < |bs| ==> ValidBlock(bs[k])
    ensures |r| == |bs| && forall k :: 0 <= k < |bs| ==> r[k] == MatchOf(bs[k])
  {
    if bs == [] then [] else [MatchOf(bs[0])] + MatchesOfBlocks(bs[1..])
  }

  /**
   * Round trip: parsing a rendered list of blocks gives, for every level that
   * occurs, the entry of the LAST block with that level, letter lower-cased and
   * missing slopes read as 0; no other level is present.
   */
  lemma ParseRendered(bs: seq<Block>, level: int)
    requires forall k :: 0 <= k < |bs| ==> ValidBlock(bs[k])
    ensures level in ParseModeString(Render(bs)) <==>
              exists k :: 0 <= k < |bs| && DecimalValue(bs[k].level) == level
    ensures forall k :: 0 <= k < |bs| && DecimalValue(bs[k].level) == level && LastBlock(bs, k) ==>
              ParseModeString(Render(bs))[level] == BlockEntry(bs[k])
  {
    MatchesRender(bs);
    FoldBlocks(bs, level);
  }

  /** The entry a block should leave in the table. */
  function BlockEntry(b: Block): ModeEntry
    requires ValidBlock(b)
  {
    Entry([LowerLetter(b.letter)], [SlopeValue(b.slope1).GetOr(0), SlopeValue(b.slope2).GetOr(0)])
  }

  lemma FoldBlocks(bs: seq<Block>, level: int)
    requires forall k :: 0 <= k < |bs| ==> ValidBlock(bs[k])
    ensures level in FoldMatches(MatchesOfBlocks(bs), map[]) <==>
              exists k :: 0 <= k < |bs| && DecimalValue(bs[k].level) == level
    ensures forall k :: 0 <= k < |bs| && DecimalValue(bs[k].level) == level && LastBlock(bs, k) ==>
              FoldMatches(MatchesOfBlocks(bs), map[])[level] == BlockEntry(bs[k])
  {
    var ms := MatchesOfBlocks(bs);
    FoldMatchesLast(ms, map[], level);
    forall k | 0 <= k < |bs| && DecimalValue(bs[k].level) == level && LastBlock(bs, k)
      ensures FoldMatches(ms, map[])[level] == BlockEntry(bs[k])
    {
      assert LastWithLevel(ms, k);
      assert EntryOf(ms[k]) == BlockEntry(bs[k]);
    }
    if exists k :: 0 <= k < |bs| && DecimalValue(bs[k].level) == level {
      var k :| 0 <= k < |bs| && DecimalValue(bs[k].level) == level;
      assert ms[k].level == level;
    }
  }

  /** No later block has the level of `bs[k]`. */
  predicate LastBlock(bs: seq<Block>, k: nat)
    requires k < |bs| && forall j :: 0 <= j < |bs| ==> ValidBlock(bs[j])
  {
    forall j :: k < j < |bs| ==> DecimalValue(bs[j].level) != DecimalValue(bs[k].level)
  }

  /** A rendered non-empty block list is accepted by `CX_PATTERN`. */
  lemma {:induction false} RenderedIsModeString(bs: seq<Block>)
    requires forall k :: 0 <= k < |bs| ==> ValidBlock(bs[k])
    ensures AllBlocks(Render(bs))
  {
    if bs != [] {
      var rest := Render(bs[1..]);
      if bs[1..] != [] { assert rest[0] == bs[1].letter; }
      MatchAtBlock(bs[0], rest);
      assert Render(bs)[|RenderBlock(bs[0])|..] == rest;
      RenderedIsModeString(bs[1..]);
    }
  }

  // ------------------------------------------------------------ resolve_mode

  lemma MinExists(s: set<int>)
    requires s != {}
    ensures exists m :: m in s && forall x :: x in s ==> m <= x
    decreases |s|
  {
    var x := Pick(s);
    var r := s - {x};
    if r == {} {
      forall z | z in s ensures x <= z {
        assert z == x || z in r;
      }
    } else {
      MinExists(r);
      var y :| y in r && forall z :: z in r ==> y <= z;
      var m := if x < y then x else y;
      forall z | z in s ensures m <= z {
        if z != x { assert z in r; }
      }
      assert m in s;
    }
  }

  lemma Pick(s: set<int>) returns (x: int)
    requires s != {}
    ensures x in s
  {
    if forall y :: y !in s {
      assert false;
    }
    x :| x in s;
  }

  /** `min(keys)` */
  function MinKey(t: ModeTable): (m: int)
    requires t != map[]
    ensures m in t && forall k :: k in t ==> m <= k
  {
    assert t.Keys != {} by {
      if t.Keys == {} { assert false; }
    }
    MinExists(t.Keys);
    var m :| m in t.Keys && forall x :: x in t.Keys ==> m <= x;
    m
  }

  /** Slopes padded to two entries, as `resolve_mode` does for a stored tuple. */
  function PadSlopes(s: seq<int>): (r: seq<int>)
    ensures |s| <= 2 ==> |r| == 2
    ensures |r| >= |s| && r[..|s|] == s
    ensures forall k :: |s| <= k < |r| ==> r[k] == 0
  {
    if |s| == 1 then [s[0], 0] else if |s| == 0 then [0, 0] else s
  }

  /** `resolve_mode(mode_dict, number)` */
  function ResolveMode(t: ModeTable, level: int): (p: Policy)
    ensures t == map[] ==> p == Policy("w", [0, 0])
    ensures t != map[] && level < MinKey(t) ==> p == Policy("l", [0, 0])
    ensures t != map[] && level >= MinKey(t) && level !in t ==> p == Policy("w", [0, 0])
    ensures level in t && t[level].Entry? ==>
              p.letter == t[level].letter && p.slopes == PadSlopes(t[level].slopes)
    ensures level in t && t[level].Bare? ==> p == Policy(t[level].letter, [0, 0])
  {
    if t == map[] then Policy("w", [0, 0])
    else if level < MinKey(t) then Policy("l", [0, 0])
    else if level in t then
      match t[level]
      case Entry(letter, slopes) => Policy(letter, PadSlopes(slopes))
      case Bare(letter) => Policy(letter, [0, 0])
    else Policy("w", [0, 0])
  }

  /** Entries from `parse_mode_string` resolve to their stored slopes exactly. */
  lemma ResolveParsed(s: string, level: int)
    requires level in ParseModeString(s)
    ensures var p := ResolveMode(ParseModeString(s), level);
            |p.slopes| == 2 && (p.letter == "b" || p.letter == "w")
  {
    ParseModeStringShape(s);
  }

  // ---------------------------------------------------------------- Defaults

  /** A group bundle stored by a `*` line (`mode_modifier` empty stands for `()`). */
  datatype GroupConfig = GroupConfig(
    proportion: Option<int>,
    userProportion: Option<int>,
    graftLevel: Option<int>,
    modeModifier: ModeTable)

  /** The command-line values `Defaults` reads; None is an option not given. */
  datatype CliArgs = CliArgs(
    mode: Option<string>,
    random: Option<bool>,
    dontRecurse: Option<bool>,
    video: Option<bool>,
    mute: Option<bool>)

  /** The three-tier precedence every getter of `Defaults` follows. */
  function Precedence<T>(cli: Option<T>, global: Option<T>, builtin: T): (r: T)
    ensures cli.Some? ==> r == cli.value
    ensures cli.None? && global.Some? ==> r == global.value
    ensures cli.None? && global.None? ==> r == builtin
  {
    if cli.Some? then cli.value else if global.Some? then global.value else builtin
  }

  class Defaults {
    const weightModifier: int
    const builtinMode: ModeTable
    const builtinIsRandom: bool
    const builtinDontRecurse: bool
    const builtinVideo: bool
    const builtinMute: bool

    var globalMode: Option<ModeTable>
    var globalIsRandom: Option<bool>
    var globalDontRecurse: Option<bool>
    var globalVideo: Option<bool>
    var globalMute: Option<bool>

    const argsMode: Option<ModeTable>
    const argsIsRandom: Option<bool>
    const argsDontRecurse: Option<bool>
    const argsVideo: Option<bool>
    const argsMute: Option<bool>

    var groups: map<string, GroupConfig>

    /** `Defaults(args=args)` with the built-in defaults of the signature. */
    constructor (args: CliArgs)
      ensures weightModifier == 100 && builtinMode == BuiltinMode
      ensures !builtinIsRandom && !builtinDontRecurse && builtinVideo && builtinMute
      ensures globalMode.None? && globalIsRandom.None? && globalDontRecurse.None?
      ensures globalVideo.None? && globalMute.None?
      ensures argsMode == (if args.mode.Some? then Some(ParseModeString(args.mode.value)) else None)
      ensures argsIsRandom == args.random && argsDontRecurse == args.dontRecurse
      ensures argsVideo == args.video && argsMute == args.mute
      ensures groups == map[]
    {
      weightModifier := 100;
      builtinMode := BuiltinMode;
      builtinIsRandom := false;
      builtinDontRecurse := false;
      builtinVideo := true;
      builtinMute := true;
      globalMode := None;
      globalIsRandom := None;
      globalDontRecurse := None;
      globalVideo := None;
      globalMute := None;
      argsMode := if args.mode.Some? then Some(ParseModeString(args.mode.value)) else None;
      argsIsRandom := args.random;
      argsDontRecurse := args.dontRecurse;
      argsVideo := args.video;
      argsMute := args.mute;
      groups := map[];
    }

    function Mode(): ModeTable reads this
    {
      Precedence(argsMode, globalMode, builtinMode)
    }

    function IsRandom(): bool reads this
    {
      Precedence(argsIsRandom, globalIsRandom, builtinIsRandom)
    }

    function DontRecurse(): bool reads this
    {
      Precedence(argsDontRecurse, globalDontRecurse, builtinDontRecurse)
    }

    function Video(): bool reads this
    {
      Precedence(argsVideo, globalVideo, builtinVideo)
    }

    function Mute(): bool reads this
    {
      Precedence(argsMute, globalMute, builtinMute)
    }

    /** `set_global_defaults`: only the values passed (not None) are written. */
    method SetGlobalDefaults(mode: Option<ModeTable>, isRandom: Option<bool>, dontRecurse: Option<bool>)
      modifies this`globalMode, this`globalIsRandom, this`globalDontRecurse
      ensures globalMode == (if mode.Some? then mode else old(globalMode))
      ensures globalIsRandom == (if isRandom.Some? then isRandom else old(globalIsRandom))
      ensures globalDontRecurse == (if dontRecurse.Some? then dontRecurse else old(globalDontRecurse))
      ensures argsMode.None? && mode.Some? ==> Mode() == mode.value
      ensures argsMode.Some? || mode.None? ==> Mode() == old(Mode())
      ensures argsIsRandom.None? && isRandom.Some? ==> IsRandom() == isRandom.value
      ensures argsIsRandom.Some? || isRandom.None? ==> IsRandom() == old(IsRandom())
      ensures argsDontRecurse.None? && dontRecurse.Some? ==> DontRecurse() == dontRecurse.value
      ensures argsDontRecurse.Some? || dontRecurse.None? ==> DontRecurse() == old(DontRecurse())
    {
      if mode.Some? { globalMode := mode; }
      if isRandom.Some? { globalIsRandom := isRandom; }
      if dontRecurse.Some? { globalDontRecurse := dontRecurse; }
    }

    /** `set_global_video` */
    method SetGlobalVideo(video: Option<bool>, mute: Option<bool>)
      modifies this`globalVideo, this`globalMute
      ensures globalVideo == (if video.Some? then video else old(globalVideo))
      ensures globalMute == (if mute.Some? then mute else old(globalMute))
      ensures argsVideo.None? && video.Some? ==> Video() == video.value
      ensures argsVideo.Some? || video.None? ==> Video() == old(Video())
      ensures argsMute.None? && mute.Some? ==> Mute() == mute.value
      ensures argsMute.Some? || mute.None? ==> Mute() == old(Mute())
    {
      if video.Some? { globalVideo := video; }
      if mute.Some? { globalMute := mute; }
    }

    /** `defaults.groups[name] = bundle` */
    method SetGroup(name: string, config: GroupConfig)
      modifies this`groups
      ensures groups == old(groups)[name := config]
    {
      groups := groups[name := config];
    }
  }
}
