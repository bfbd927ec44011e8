/**
 * The bracket modifiers of an input line (`MODIFIER_PATTERN`,
 * `(\[.*?\])` in `enkan/constants.py`): a `[` up to the nearest `]` on the
 * same line. `FindModifiers` is `re.findall` and `StripModifiers` is
 * `re.sub(..., "")` over the same left-to-right, non-overlapping scan.
 */
module Modifiers {
  import opened Common

  /**
   * The offset of the `]` closing a `[` opened just before `s`: the first
   * `]`, provided no newline comes first (`.` never matches a newline).
   */
  function CloseIndex(s: string): (r: Option<nat>)
    ensures r.Some? ==> r.value < |s| && s[r.value] == ']' && ']' !in s[..r.value] && '\n' !in s[..r.value]
    ensures r.None? ==> forall k | 0 <= k < |s| && s[k] == ']' :: '\n' in s[..k]
  {
    if s == [] then None
    else if s[0] == ']' then Some(0)
    else if s[0] == '\n' then None
    else
      match CloseIndex(s[1..])
      case None => (assert forall k | 1 <= k < |s| :: s[1..][..k - 1] == s[..k][1..]; None)
      case Some(j) => (assert s[..j + 1] == [s[0]] + s[1..][..j]; Some(j + 1))
  }

  /** The length of the modifier token `s` opens with, if it opens with one. */
  function TokenLength(s: string): (r: Option<nat>)
    ensures r.Some? ==> 2 <= r.value <= |s| && s[0] == '[' && s[r.value - 1] == ']'
  {
    if s != [] && s[0] == '[' && CloseIndex(s[1..]).Some? then Some(CloseIndex(s[1..]).value + 2) else None
  }

  /** A well-formed token: `[`, then text with neither `]` nor a newline, then `]`. */
  predicate IsToken(t: string)
  {
    |t| >= 2 && t[0] == '[' && t[|t| - 1] == ']' && ']' !in t[1..|t| - 1] && '\n' !in t[1..|t| - 1]
  }

  /** `re.findall(MODIFIER_PATTERN, s)` */
  function FindModifiers(s: string): (r: seq<string>)
    ensures forall i | 0 <= i < |r| :: IsToken(r[i])
    decreases |s|
  {
    if s == [] then []
    else match TokenLength(s)
      case Some(n) =>
        assert s[..n][1..n - 1] == s[1..][..n - 2];
        [s[..n]] + FindModifiers(s[n..])
      case None => FindModifiers(s[1..])
  }

  /** `re.sub(MODIFIER_PATTERN, "", s)` */
  function StripModifiers(s: string): (r: string)
    ensures |r| <= |s|
    decreases |s|
  {
    if s == [] then []
    else match TokenLength(s)
      case Some(n) => StripModifiers(s[n..])
      case None => [s[0]] + StripModifiers(s[1..])
  }

  /** Every character kept or removed is accounted for: the tokens and the rest together are as long as the line. */
  lemma {:induction false} ScanCovers(s: string)
    ensures |StripModifiers(s)| + SumLengths(FindModifiers(s)) == |s|
    decreases |s|
  {
    if s != [] {
      match TokenLength(s)
      case Some(n) => ScanCovers(s[n..]);
      case None => ScanCovers(s[1..]);
    }
  }

  function SumLengths(ts: seq<string>): nat
  {
    if ts == [] then 0 else |ts[0]| + SumLengths(ts[1..])
  }

  /** A line with no modifier is its own stripped form. */
  lemma {:induction false} NoModifierUnchanged(s: string)
    requires FindModifiers(s) == []
    ensures StripModifiers(s) == s
    decreases |s|
  {
    if s != [] {
      NoModifierUnchanged(s[1..]);
    }
  }

  /** A `[` left without a closing `]` stays unclosed once the rest is stripped. */
  lemma {:induction false} UnclosedStaysUnclosed(u: string)
    requires CloseIndex(u).None?
    ensures CloseIndex(StripModifiers(u)).None?
    decreases |u|
  {
    if u != [] && u[0] != '\n' {
      assert u[0] != ']';
      assert CloseIndex(u[1..]).None?;
      assert TokenLength(u).None?;
      UnclosedStaysUnclosed(u[1..]);
    }
  }

  /** Stripping leaves nothing to find: the substitution removes every match of the pattern. */
  lemma {:induction false} StrippedHasNoModifier(s: string)
    ensures FindModifiers(StripModifiers(s)) == []
    decreases |s|
  {
    if s != [] {
      match TokenLength(s)
      case Some(n) => StrippedHasNoModifier(s[n..]);
      case None =>
        var rest := StripModifiers(s[1..]);
        StrippedHasNoModifier(s[1..]);
        if s[0] == '[' {
          UnclosedStaysUnclosed(s[1..]);
        }
        assert ([s[0]] + rest)[1..] == rest;
        assert TokenLength([s[0]] + rest).None?;
    }
  }

  /** Stripping twice is stripping once. */
  lemma StripIdempotent(s: string)
    ensures StripModifiers(StripModifiers(s)) == StripModifiers(s)
  {
    StrippedHasNoModifier(s);
    NoModifierUnchanged(StripModifiers(s));
  }
}
