/**
 * Windows path strings as the program sees them through Python's `ntpath`
 * (the behaviour of Python 3.11's pure-Python implementation): `str.split`,
 * `str.join`, `splitdrive`, `normpath`, `split`/`dirname`/`basename`,
 * `join`, `splitext` and `isabs`, plus the ASCII case-folding used for
 * tree-format names.
 */
module Paths {

  const Sep: char := '\\'
  const AltSep: char := '/'

  predicate IsSep(c: char) { c == Sep || c == AltSep }

  // ---------------------------------------------------------------- strings

  function JoinWith(parts: seq<string>, c: char): string
  {
    if |parts| == 0 then ""
    else if |parts| == 1 then parts[0]
    else parts[0] + [c] + JoinWith(parts[1..], c)
  }

  /** `s.split(c)`: the pieces between the occurrences of `c`, at least one. */
  function Split(s: string, c: char): (r: seq<string>)
    ensures |r| >= 1
    ensures forall i :: 0 <= i < |r| ==> c !in r[i]
    ensures JoinWith(r, c) == s
  {
    if |s| == 0 then [""]
    else
      var rest := Split(s[1..], c);
      if s[0] == c then [""] + rest
      else
        assert s == [s[0]] + s[1..];
        [[s[0]] + rest[0]] + rest[1..]
  }

  lemma {:induction false} SplitJoin(parts: seq<string>, c: char)
    requires |parts| >= 1
    requires forall i :: 0 <= i < |parts| ==> c !in parts[i]
    ensures Split(JoinWith(parts, c), c) == parts
    decreases |parts|, |parts[0]|
  {
    if |parts[0]| > 0 {
      var p0 := parts[0];
      var shorter := [p0[1..]] + parts[1..];
      forall i | 0 <= i < |shorter| ensures c !in shorter[i] {
        if i == 0 { assert forall x :: x in p0[1..] ==> x in p0; }
      }
      SplitJoin(shorter, c);
      SplitJoinChar(parts, shorter, c);
    } else if |parts| > 1 {
      SplitJoin(parts[1..], c);
      SplitJoinSep(parts, c);
    }
  }

  /** Step of `SplitJoin` when the first piece starts with a non-separator. */
  lemma SplitJoinChar(parts: seq<string>, shorter: seq<string>, c: char)
    requires |parts| >= 1 && |parts[0]| > 0 && c !in parts[0]
    requires shorter == [parts[0][1..]] + parts[1..]
    requires Split(JoinWith(shorter, c), c) == shorter
    ensures Split(JoinWith(parts, c), c) == parts
  {
    var p0 := parts[0];
    var j := JoinWith(parts, c);
    JoinWithHead(parts, shorter, c);
    assert j[0] == p0[0] && j[1..] == JoinWith(shorter, c);
    assert p0[0] in p0;
    assert Split(j, c) == [[j[0]] + shorter[0]] + shorter[1..];
    assert [p0[0]] + p0[1..] == p0;
    assert shorter[1..] == parts[1..];
  }

  lemma JoinWithHead(parts: seq<string>, shorter: seq<string>, c: char)
    requires |parts| >= 1 && |parts[0]| > 0
    requires shorter == [parts[0][1..]] + parts[1..]
    ensures JoinWith(parts, c) == [parts[0][0]] + JoinWith(shorter, c)
  {
    var p0 := parts[0];
    assert p0 == [p0[0]] + p0[1..];
    if |parts| > 1 {
      assert shorter[1..] == parts[1..];
      assert JoinWith(parts, c) == [p0[0]] + (p0[1..] + [c] + JoinWith(parts[1..], c));
    }
  }

  /** Step of `SplitJoin` when the first piece is empty. */
  lemma SplitJoinSep(parts: seq<string>, c: char)
    requires |parts| > 1 && parts[0] == []
    requires Split(JoinWith(parts[1..], c), c) == parts[1..]
    ensures Split(JoinWith(parts, c), c) == parts
  {
    var j := JoinWith(parts, c);
    assert j == [c] + JoinWith(parts[1..], c);
    assert j[1..] == JoinWith(parts[1..], c);
    assert parts == [[]] + parts[1..];
  }


  /** `[p for p in parts if p]` */
  function NonEmpty(parts: seq<string>): (r: seq<string>)
    ensures |r| <= |parts|
    ensures forall i :: 0 <= i < |r| ==> r[i] != "" && r[i] in parts
  {
    if parts == [] then []
    else if parts[0] == "" then NonEmpty(parts[1..])
    else [parts[0]] + NonEmpty(parts[1..])
  }

  lemma {:induction false} NonEmptyAppend(a: seq<string>, b: seq<string>)
    ensures NonEmpty(a + b) == NonEmpty(a) + NonEmpty(b)
  {
    if a == [] {
      assert a + b == b;
    } else {
      assert (a + b)[0] == a[0];
      assert (a + b)[1..] == a[1..] + b;
      NonEmptyAppend(a[1..], b);
    }
  }

  lemma {:induction false} NonEmptyOfNonEmpty(parts: seq<string>)
    requires forall i :: 0 <= i < |parts| ==> parts[i] != ""
    ensures NonEmpty(parts) == parts
  {
    if parts != [] {
      NonEmptyOfNonEmpty(parts[1..]);
    }
  }

  /** The non-empty separator-delimited components of a path. */
  function Components(p: string): (r: seq<string>)
    ensures forall i :: 0 <= i < |r| ==> r[i] != "" && Sep !in r[i]
  {
    NonEmpty(Split(p, Sep))
  }

  function LowerChar(c: char): char
  {
    if 'A' <= c <= 'Z' then (c as int + 32) as char else c
  }

  function UpperChar(c: char): char
  {
    if 'a' <= c <= 'z' then (c as int - 32) as char else c
  }

  /** `s.lower()`, restricted to ASCII letters. */
  function Lower(s: string): (r: string)
    ensures |r| == |s|
    ensures forall i :: 0 <= i < |s| ==> r[i] == LowerChar(s[i])
  {
    if s == [] then [] else [LowerChar(s[0])] + Lower(s[1..])
  }

  function Upper(s: string): (r: string)
    ensures |r| == |s|
  {
    if s == [] then [] else [UpperChar(s[0])] + Upper(s[1..])
  }

  predicate StartsWith(s: string, prefix: string)
  {
    |prefix| <= |s| && s[..|prefix|] == prefix
  }

  predicate EndsWith(s: string, suffix: string)
  {
    |suffix| <= |s| && s[|s| - |suffix|..] == suffix
  }

  /** `sub in s` for strings. */
  predicate Contains(s: string, sub: string)
  {
    StartsWith(s, sub) || (s != [] && Contains(s[1..], sub))
  }

  /** `s.replace(a, b)` for single characters. */
  function ReplaceChar(s: string, a: char, b: char): (r: string)
    ensures |r| == |s|
    ensures forall i :: 0 <= i < |s| ==> r[i] == if s[i] == a then b else s[i]
  {
    if s == [] then [] else [if s[0] == a then b else s[0]] + ReplaceChar(s[1..], a, b)
  }

  /** `s.find(c, start)`: first index at or after `start`, or -1. */
  function Find(s: string, c: char, start: nat): (r: int)
    ensures r == -1 || (start <= r < |s| && s[r] == c)
    ensures r == -1 ==> forall i :: start <= i < |s| ==> s[i] != c
    ensures r >= 0 ==> forall i :: start <= i < r ==> s[i] != c
    decreases |s| - start
  {
    if start >= |s| then -1 else if s[start] == c then start else Find(s, c, start + 1)
  }

  /** `s.rfind(c)`: last index of `c`, or -1. */
  function RFind(s: string, c: char): (r: int)
    ensures -1 <= r < |s|
    ensures r >= 0 ==> s[r] == c
    ensures forall i :: r < i < |s| ==> s[i] != c
  {
    if s == [] then -1
    else if s[|s| - 1] == c then |s| - 1
    else RFind(s[..|s| - 1], c)
  }

  /** `s.lstrip(seps)` */
  function LStripSeps(s: string, both: bool): (r: string)
    ensures |r| <= |s| && r == s[|s| - |r|..]
    ensures r != [] ==> !(r[0] == Sep || (both && r[0] == AltSep))
  {
    if s != [] && (s[0] == Sep || (both && s[0] == AltSep)) then LStripSeps(s[1..], both) else s
  }

  /** `s.rstrip(seps)` */
  function RStripSeps(s: string, both: bool): (r: string)
    ensures |r| <= |s| && r == s[..|r|]
  {
    if s != [] && (s[|s| - 1] == Sep || (both && s[|s| - 1] == AltSep))
    then RStripSeps(s[..|s| - 1], both) else s
  }

  /** `s.strip(os.path.sep)` */
  function StripSep(s: string): string
  {
    RStripSeps(LStripSeps(s, false), false)
  }

  // ------------------------------------------------------------------ ntpath

  /** `ntpath.splitdrive`: a drive letter `X:` or a UNC `\\server\share` prefix. */
  function SplitDrive(p: string): (r: (string, string))
    ensures r.0 + r.1 == p
  {
    if |p| < 2 then ("", p)
    else
      var normp := ReplaceChar(p, AltSep, Sep);
      if normp[0] == Sep && normp[1] == Sep then
        var start := if |normp| >= 8 && Upper(normp[..8]) == "\\\\?\\UNC\\" then 8 else 2;
        var index := Find(normp, Sep, start);
        if index == -1 then (p, "")
        else
          var index2 := Find(normp, Sep, index + 1);
          if index2 == -1 then (p, "")
          else (p[..index2], p[index2..])
      else if normp[1] == ':' then (p[..2], p[2..])
      else ("", p)
  }

  /** The component loop of `ntpath.normpath`, with `out` the components kept so far. */
  function NormComps(out: seq<string>, rest: seq<string>, rooted: bool): seq<string>
    decreases |rest|
  {
    if rest == [] then out
    else
      var c := rest[0];
      if c == "" || c == "." then NormComps(out, rest[1..], rooted)
      else if c == ".." then
        if |out| > 0 && out[|out| - 1] != ".." then NormComps(out[..|out| - 1], rest[1..], rooted)
        else if |out| == 0 && rooted then NormComps(out, rest[1..], rooted)
        else NormComps(out + [c], rest[1..], rooted)
      else NormComps(out + [c], rest[1..], rooted)
  }

  /** `ntpath.normpath` */
  function NormPath(path: string): string
  {
    if StartsWith(path, "\\\\.\\") || StartsWith(path, "\\\\?\\") then path
    else
      var replaced := ReplaceChar(path, AltSep, Sep);
      var (drive, tail) := SplitDrive(replaced);
      var rooted := |tail| > 0 && tail[0] == Sep;
      var prefix := if rooted then drive + [Sep] else drive;
      var rest := if rooted then LStripSeps(tail, false) else tail;
      var comps := NormComps([], Split(rest, Sep), EndsWith(prefix, [Sep]));
      var comps' := if prefix == "" && comps == [] then ["."] else comps;
      prefix + JoinWith(comps', Sep)
  }

  /** `ntpath.split`: (head, tail) around the last separator. */
  function SplitPath(p: string): (r: (string, string))
  {
    var (d, rest) := SplitDrive(p);
    var i := LastSepEnd(rest);
    var head := rest[..i];
    var tail := rest[i..];
    var stripped := RStripSeps(head, true);
    (d + (if stripped == "" then head else stripped), tail)
  }

  /** Index just past the last separator of `s`, or 0. */
  function LastSepEnd(s: string): (i: nat)
    ensures i <= |s|
    ensures forall k :: i <= k < |s| ==> !IsSep(s[k])
    ensures i > 0 ==> IsSep(s[i - 1])
  {
    if s == [] then 0 else if IsSep(s[|s| - 1]) then |s| else LastSepEnd(s[..|s| - 1])
  }

  function DirName(p: string): string { SplitPath(p).0 }

  function BaseName(p: string): string { SplitPath(p).1 }

  /** One step of the argument loop of `ntpath.join`. */
  function JoinStep(acc: (string, string), p: string): (string, string)
  {
    var (resultDrive, resultPath) := acc;
    var (pDrive, pPath) := SplitDrive(p);
    if |pPath| > 0 && IsSep(pPath[0]) then
      (if |pDrive| > 0 || |resultDrive| == 0 then pDrive else resultDrive, pPath)
    else if |pDrive| > 0 && pDrive != resultDrive && Lower(pDrive) != Lower(resultDrive) then
      (pDrive, pPath)
    else
      var drive := if |pDrive| > 0 then pDrive else resultDrive;
      (drive, WithTrailingSep(resultPath) + pPath)
  }

  /** `resultPath` with a separator appended unless it is empty or already ends in one. */
  function WithTrailingSep(path: string): string
  {
    if |path| > 0 && !IsSep(path[|path| - 1]) then path + [Sep] else path
  }

  function JoinFold(acc: (string, string), rest: seq<string>): (string, string)
    decreases |rest|
  {
    if rest == [] then acc else JoinFold(JoinStep(acc, rest[0]), rest[1..])
  }

  /** `ntpath.join(*parts)`; Python refuses a call without arguments. */
  function Join(parts: seq<string>): string
    requires |parts| >= 1
  {
    var (drive, path) := JoinFold(SplitDrive(parts[0]), parts[1..]);
    if |path| > 0 && !IsSep(path[0]) && |drive| > 0 && drive[|drive| - 1] != ':'
    then drive + [Sep] + path
    else drive + path
  }

  /** `ntpath.splitext`: a trailing extension after the last dot of the last component. */
  function SplitExt(p: string): (r: (string, string))
    ensures r.0 + r.1 == p
    ensures r.1 == "" || r.1[0] == '.'
  {
    var sepIndex := if RFind(p, Sep) < RFind(p, AltSep) then RFind(p, AltSep) else RFind(p, Sep);
    var dotIndex := RFind(p, '.');
    if dotIndex > sepIndex && HasNonDot(p, sepIndex + 1, dotIndex)
    then (p[..dotIndex], p[dotIndex..])
    else (p, "")
  }

  /** `os.path.join(dirname(path), splitext(basename(path))[0])`: the path without its extension. */
  function StemName(path: string): string
  {
    Join([DirName(path), SplitExt(BaseName(path)).0])
  }

  /** Some character of `p[lo..hi]` is not a dot. */
  predicate HasNonDot(p: string, lo: int, hi: int)
    requires 0 <= lo && hi <= |p|
  {
    exists k :: lo <= k < hi && p[k] != '.'
  }

  /** `ntpath.isabs`, including its legacy acceptance of a leading separator without a drive. */
  predicate IsAbs(s: string)
  {
    var head := ReplaceChar(if |s| <= 3 then s else s[..3], AltSep, Sep);
    (|head| >= 1 && head[0] == Sep) || (|head| >= 3 && head[1] == ':' && head[2] == Sep)
  }

  // ------------------------------------------------------------ properties

  /** A component that `ntpath` treats as plain text: no separator and no drive colon. */
  predicate Plain(c: string)
  {
    c != "" && (forall i :: 0 <= i < |c| ==> !IsSep(c[i])) && (|c| < 2 || c[1] != ':')
  }

  predicate AllPlain(parts: seq<string>)
  {
    forall i :: 0 <= i < |parts| ==> Plain(parts[i])
  }

  lemma SplitDrivePlain(c: string)
    requires Plain(c)
    ensures SplitDrive(c) == ("", c)
  {
    if |c| >= 2 {
      var normp := ReplaceChar(c, AltSep, Sep);
      assert normp[0] == c[0] && normp[1] == c[1];
    }
  }

  lemma {:induction false} JoinFoldPlain(acc: (string, string), rest: seq<string>)
    requires |rest| >= 1 && AllPlain(rest)
    ensures JoinFold(acc, rest) == (acc.0, WithTrailingSep(acc.1) + JoinWith(rest, Sep))
    decreases |rest|
  {
    assert Plain(rest[0]);
    var next := JoinStepPlain(acc, rest[0]);
    if |rest| > 1 {
      assert !IsSep(rest[0][|rest[0]| - 1]);
      assert AllPlain(rest[1..]) by {
        forall i | 0 <= i < |rest[1..]| ensures Plain(rest[1..][i]) { assert rest[1..][i] == rest[i + 1]; }
      }
      JoinFoldPlain(next, rest[1..]);
      JoinWithTail(acc.1, rest);
    }
  }

  /** One step of the join loop over a plain component appends it after a separator. */
  lemma JoinStepPlain(acc: (string, string), p: string) returns (next: (string, string))
    requires Plain(p)
    ensures next == JoinStep(acc, p) == (acc.0, WithTrailingSep(acc.1) + p)
  {
    SplitDrivePlain(p);
    next := JoinStep(acc, p);
  }

  lemma JoinWithTail(path: string, rest: seq<string>)
    requires |rest| > 1 && Plain(rest[0])
    ensures WithTrailingSep(WithTrailingSep(path) + rest[0]) + JoinWith(rest[1..], Sep)
         == WithTrailingSep(path) + JoinWith(rest, Sep)
  {
    assert JoinWith(rest, Sep) == rest[0] + [Sep] + JoinWith(rest[1..], Sep);
    AppendAfterPlain(WithTrailingSep(path), rest[0], JoinWith(rest[1..], Sep));
  }

  lemma AppendAfterPlain(a: string, r0: string, j: string)
    requires r0 != [] && !IsSep(r0[|r0| - 1])
    ensures WithTrailingSep(a + r0) + j == a + (r0 + [Sep] + j)
  {
    var base := a + r0;
    assert base[|base| - 1] == r0[|r0| - 1];
    assert WithTrailingSep(base) == base + [Sep];
  }


  /** Joining plain components is joining them with the separator. */
  lemma JoinPlain(parts: seq<string>)
    requires |parts| >= 1 && AllPlain(parts)
    ensures Join(parts) == JoinWith(parts, Sep)
  {
    SplitDrivePlain(parts[0]);
    if |parts| > 1 {
      JoinFoldPlain(("", parts[0]), parts[1..]);
      var p0 := parts[0];
      assert !IsSep(p0[|p0| - 1]);
    }
  }

  /** A drive-letter root such as `C:\`. */
  predicate DriveRoot(d: string)
  {
    |d| == 3 && !IsSep(d[0]) && d[1] == ':' && d[2] == Sep
  }

  /** Joining a drive root with plain components. */
  lemma JoinDriveRoot(d: string, rest: seq<string>)
    requires DriveRoot(d) && AllPlain(rest)
    ensures Join([d] + rest) == d + JoinWith(rest, Sep)
  {
    var parts := [d] + rest;
    assert parts[0] == d && parts[1..] == rest;
    SplitDriveRoot(d);
    var acc := (d[..2], d[2..]);
    assert d[2..] == [Sep];
    var path: string;
    if |rest| >= 1 {
      JoinFoldPlain(acc, rest);
      assert WithTrailingSep(d[2..]) == [Sep];
      path := [Sep] + JoinWith(rest, Sep);
    } else {
      path := [Sep];
    }
    assert JoinFold(acc, rest) == (d[..2], path);
    assert path[0] == Sep;
    assert Join(parts) == d[..2] + path;
    assert d == d[..2] + [Sep];
  }

  lemma SplitDriveRoot(d: string)
    requires DriveRoot(d)
    ensures SplitDrive(d) == (d[..2], d[2..])
  {
    var normp := ReplaceChar(d, AltSep, Sep);
    assert normp[0] == d[0] && normp[1] == ':';
  }

  /**
   * A path that starts with two separators always has a drive: the whole
   * path when no separator follows the server part, else the
   * `\\server\share` prefix, which is never empty.
   */
  lemma UncHasDrive(p: string)
    requires |p| >= 2 && p[0] == Sep && p[1] == Sep
    ensures SplitDrive(p).0 != ""
  {
    var normp := ReplaceChar(p, AltSep, Sep);
    assert normp[0] == Sep && normp[1] == Sep;
  }

  lemma {:induction false} LowerKeepsSepFree(s: string)
    requires Sep !in s
    ensures Sep !in Lower(s) && (s != "" ==> Lower(s) != "")
  {
  }

  lemma {:induction false} LowerJoin(parts: seq<string>)
    ensures Lower(JoinWith(parts, Sep)) == JoinWith(LowerAll(parts), Sep)
    decreases |parts|
  {
    if |parts| > 1 {
      LowerJoin(parts[1..]);
      LowerAppend(parts[0] + [Sep], JoinWith(parts[1..], Sep));
      LowerAppend(parts[0], [Sep]);
      assert LowerAll(parts)[1..] == LowerAll(parts[1..]);
    }
  }

  lemma {:induction false} LowerAppend(a: string, b: string)
    ensures Lower(a + b) == Lower(a) + Lower(b)
  {
    var l := Lower(a + b);
    var r := Lower(a) + Lower(b);
    forall i | 0 <= i < |l| ensures l[i] == r[i] {
      if i < |a| {
        assert (a + b)[i] == a[i] && r[i] == Lower(a)[i];
      } else {
        assert (a + b)[i] == b[i - |a|] && r[i] == Lower(b)[i - |a|];
      }
    }
    assert l == r;
  }


  function LowerAll(parts: seq<string>): (r: seq<string>)
    ensures |r| == |parts|
    ensures forall i :: 0 <= i < |parts| ==> r[i] == Lower(parts[i])
  {
    if parts == [] then [] else [Lower(parts[0])] + LowerAll(parts[1..])
  }

  /** The components of separator-joined components are those components. */
  lemma ComponentsOfJoin(parts: seq<string>)
    requires |parts| >= 1
    requires forall i :: 0 <= i < |parts| ==> parts[i] != "" && Sep !in parts[i]
    ensures Components(JoinWith(parts, Sep)) == parts
  {
    SplitJoin(parts, Sep);
    NonEmptyOfNonEmpty(parts);
  }

  lemma {:induction false} SplitSepPrefix(s: string)
    ensures Split([Sep] + s, Sep) == [""] + Split(s, Sep)
  {
    assert ([Sep] + s)[1..] == s;
  }

  lemma {:induction false} SplitSepSuffix(s: string)
    ensures Split(s + [Sep], Sep) == Split(s, Sep) + [""]
    decreases |s|
  {
    if s == [] {
      assert Split([Sep], Sep) == [""] + Split([], Sep);
    } else {
      assert (s + [Sep])[1..] == s[1..] + [Sep];
      SplitSepSuffix(s[1..]);
    }
  }

  /** Stripping separators does not change the non-empty components. */
  lemma {:induction false} ComponentsStrip(s: string)
    ensures NonEmpty(Split(StripSep(s), Sep)) == Components(s)
  {
    LStripComponents(s);
    RStripComponents(LStripSeps(s, false));
  }

  lemma {:induction false} LStripComponents(s: string)
    ensures Components(LStripSeps(s, false)) == Components(s)
  {
    if s != [] && s[0] == Sep {
      var t := s[1..];
      LStripComponents(t);
      assert s == [Sep] + t;
      SplitSepPrefix(t);
      var parts := [""] + Split(t, Sep);
      assert parts[1..] == Split(t, Sep);
      assert NonEmpty(parts) == NonEmpty(Split(t, Sep));
    }
  }

  lemma {:induction false} RStripComponents(s: string)
    ensures Components(RStripSeps(s, false)) == Components(s)
    decreases |s|
  {
    if s != [] && s[|s| - 1] == Sep {
      RStripComponents(s[..|s| - 1]);
      assert s == s[..|s| - 1] + [Sep];
      SplitSepSuffix(s[..|s| - 1]);
      NonEmptyAppend(Split(s[..|s| - 1], Sep), [""]);
    }
  }
}
