/**
 * The arithmetic of `_fill_missing_proportions` in `enkan/tree/tree_logic.py`,
 * stated on the proportions of one sibling group, in the group's order:
 * `Some(p)` for a node whose proportion is set, `None` for an unset one.
 * Floating-point numbers are reals; the weighted-mode power `c ** exp` is
 * a parameter of type `Power` that is only known to be positive.
 */
module Proportions {
  import opened Common

  /** Raising a positive count to an exponent: only known to give a positive real. */
  type Power = f: (real, real) -> real | forall b: real, e: real :: b > 0.0 ==> f(b, e) > 0.0
    witness (b: real, e: real) => 1.0

  /** What a proportion adds to the total of the set proportions: nothing when unset. */
  function PropOr0(p: Option<real>): real
  {
    if p.Some? then p.value else 0.0
  }

  /** The sum of the set proportions of a group. */
  function SetSum(ps: seq<Option<real>>): real
  {
    if ps == [] then 0.0 else SetSum(ps[..|ps| - 1]) + PropOr0(ps[|ps| - 1])
  }

  /** How many nodes of the group have no proportion. */
  function NumUnset(ps: seq<Option<real>>): nat
  {
    if ps == [] then 0 else NumUnset(ps[..|ps| - 1]) + (if ps[|ps| - 1].None? then 1 else 0)
  }

  /** The sum of the set proportions, taken from the front. */
  lemma {:induction false} SetSumFront(ps: seq<Option<real>>)
    requires ps != []
    ensures SetSum(ps) == PropOr0(ps[0]) + SetSum(ps[1..])
  {
    if |ps| > 1 {
      var init := ps[..|ps| - 1];
      SetSumFront(init);
      assert init[1..] == ps[1..][..|ps[1..]| - 1];
    } else {
      assert ps[..|ps| - 1] == [] && ps[1..] == [];
    }
  }

  lemma SetSumOne(ps: seq<Option<real>>)
    requires |ps| == 1
    ensures SetSum(ps) == PropOr0(ps[0])
  {
    assert ps[..0] == [];
  }

  /** A lone unset node filled in balanced or weighted mode takes all of 100. */
  lemma LoneFill(counts: seq<nat>, mode: string, slope: int, useCount: bool, pow: Power)
    requires |counts| == 1 && (mode == "b" || mode == "w")
    ensures FillGroup([None], counts, mode, slope, useCount, pow) == [Some(100.0)]
  {
    NothingSet([None]);
    FillSumsTo100([None], counts, mode, slope, useCount, pow);
    FillUnsetPositive([None], counts, mode, slope, useCount, pow, 0);
    SetSumOne(FillGroup([None], counts, mode, slope, useCount, pow));
  }

  /** A group with nothing set: every node is unset and the set total is zero. */
  lemma {:induction false} NothingSet(ps: seq<Option<real>>)
    requires forall k :: 0 <= k < |ps| ==> ps[k].None?
    ensures NumUnset(ps) == |ps| && SetSum(ps) == 0.0
  {
    if ps != [] {
      NothingSet(ps[..|ps| - 1]);
    }
  }

  /** What is left of 100 once the set proportions are taken, never below zero. */
  function Remaining(setTotal: real): (r: real)
    ensures r >= 0.0 && r >= 100.0 - setTotal
    ensures setTotal + r == MaxReal(setTotal, 100.0)
  {
    if 100.0 - setTotal < 0.0 then 0.0 else 100.0 - setTotal
  }

  // ----------------------------------------------------------- shares

  /** The balanced shares: the remainder split evenly among the unset nodes. */
  function EqualShares(remaining: real, n: nat): (r: seq<real>)
    requires n > 0
    ensures |r| == n
  {
    Repeat(remaining / (n as real), n)
  }

  /** The exponent of the weighted mode: one minus the slope in hundredths for a non-negative slope, one plus it otherwise, never below 0.01. */
  function Exponent(slope: int): (e: real)
    ensures e >= 0.01
  {
    var raw := if slope >= 0 then 1.0 - (slope as real) / 100.0 else 1.0 + (slope as real) / 100.0;
    if raw < 0.01 then 0.01 else raw
  }

  /** The powered count of one unset node: the count clamped to at least 1, or its inverse for a negative slope. */
  function Powered(pow: Power, count: nat, slope: int): (p: real)
    ensures p > 0.0
  {
    var c := if count < 1 then 1.0 else count as real;
    if slope >= 0 then pow(c, Exponent(slope)) else pow(1.0 / c, Exponent(slope))
  }

  /** The powered counts, in the order of the unset nodes. */
  function PoweredList(pow: Power, counts: seq<nat>, slope: int): (r: seq<real>)
    ensures |r| == |counts|
    ensures forall k :: 0 <= k < |r| ==> r[k] > 0.0
  {
    if counts == [] then []
    else PoweredList(pow, counts[..|counts| - 1], slope) + [Powered(pow, counts[|counts| - 1], slope)]
  }

  /** The total of the powered counts, or 1 when that total is zero. */
  function PoweredTotal(ps: seq<real>): real
  {
    if SumReal(ps) == 0.0 then 1.0 else SumReal(ps)
  }

  /** Each unset node's share of the remainder, in proportion to its powered count. */
  function ShareList(remaining: real, ps: seq<real>, total: real): (r: seq<real>)
    requires total != 0.0
    ensures |r| == |ps|
  {
    if ps == [] then [] else ShareList(remaining, ps[..|ps| - 1], total) + [remaining * (ps[|ps| - 1] / total)]
  }

  /**
   * The values the unset nodes receive, or None in a mode that assigns
   * nothing. `useCount` says a count function was passed.
   */
  function Shares(ps: seq<Option<real>>, counts: seq<nat>, mode: string, slope: int, useCount: bool,
                  pow: Power, remaining: real): (r: Option<seq<real>>)
    requires |counts| == NumUnset(ps) && NumUnset(ps) > 0
    ensures r.Some? ==> |r.value| == NumUnset(ps)
    ensures r.Some? <==> mode == "b" || mode == "w"
  {
    if mode == "b" || (mode == "w" && !useCount) then Some(EqualShares(remaining, NumUnset(ps)))
    else if mode == "w" then
      var powered := PoweredList(pow, counts, slope);
      Some(ShareList(remaining, powered, PoweredTotal(powered)))
    else None
  }

  // ----------------------------------------------------- group updates

  /** Hands the values, in order, to the unset nodes. */
  function AssignUnset(ps: seq<Option<real>>, vals: seq<real>): (r: seq<Option<real>>)
    requires |vals| == NumUnset(ps)
    ensures |r| == |ps|
  {
    if ps == [] then []
    else if ps[|ps| - 1].None? then AssignUnset(ps[..|ps| - 1], vals[..|vals| - 1]) + [Some(vals[|vals| - 1])]
    else AssignUnset(ps[..|ps| - 1], vals) + [ps[|ps| - 1]]
  }

  /** Scales one proportion, if it is set. */
  function ScaleOne(p: Option<real>, factor: real): Option<real>
  {
    if p.Some? then Some(p.value * factor) else None
  }

  /** Scales every set proportion of the group. */
  function ScaleSet(ps: seq<Option<real>>, factor: real): (r: seq<Option<real>>)
    ensures |r| == |ps|
  {
    if ps == [] then [] else ScaleSet(ps[..|ps| - 1], factor) + [ScaleOne(ps[|ps| - 1], factor)]
  }

  /**
   * `_fill_missing_proportions` on the proportions of a group, given the
   * image count of every unset node, in order: nothing when no node is unset; otherwise the
   * unset nodes get their shares of the remainder, and the set proportions
   * are scaled by `100 / total` when their total is not zero.
   */
  function FillGroup(ps: seq<Option<real>>, counts: seq<nat>, mode: string, slope: int, useCount: bool,
                     pow: Power): (r: seq<Option<real>>)
    requires |counts| == NumUnset(ps)
    ensures |r| == |ps|
  {
    if NumUnset(ps) == 0 then ps
    else
      var shares := Shares(ps, counts, mode, slope, useCount, pow, Remaining(SetSum(ps)));
      var ps1 := if shares.Some? then AssignUnset(ps, shares.value) else ps;
      var total := SetSum(ps1);
      if total != 0.0 then ScaleSet(ps1, 100.0 / total) else ps1
  }

  // ------------------------------------------------------ real helpers

  lemma MulPositive(a: real, b: real)
    requires a > 0.0 && b > 0.0
    ensures a * b > 0.0
  {
  }

  lemma DivPositive(a: real, b: real)
    requires a > 0.0 && b > 0.0
    ensures a / b > 0.0
  {
  }

  lemma ScaleStep(f: real, s: real, p: real)
    ensures f * s + p * f == f * (s + p)
  {
  }

  lemma ShareStep(r: real, a: real, l: real, t: real)
    requires t != 0.0
    ensures r * (a / t) + r * (l / t) == r * ((a + l) / t)
  {
  }

  lemma RepeatStep(v: real, n: nat)
    ensures (n as real) * v + v == ((n + 1) as real) * v
  {
  }

  lemma WholeOfParts(r: real, n: real)
    requires n != 0.0
    ensures n * (r / n) == r
  {
  }

  lemma FractionOfSelf(r: real, t: real)
    requires t != 0.0
    ensures r * (t / t) == r
  {
  }

  lemma HundredOfTotal(t: real)
    requires t != 0.0
    ensures (100.0 / t) * t == 100.0
  {
  }

  // ------------------------------------------------------------ lemmas

  /** Balanced shares add up to the remainder. */
  lemma {:induction false} SumRepeat(v: real, n: nat)
    ensures SumReal(Repeat(v, n)) == (n as real) * v
  {
    if n > 0 {
      SumRepeat(v, n - 1);
      SumRealCons(v, Repeat(v, n - 1));
      RepeatStep(v, n - 1);
    }
  }

  lemma {:induction false} SumShareList(remaining: real, ps: seq<real>, total: real)
    requires total != 0.0
    ensures SumReal(ShareList(remaining, ps, total)) == remaining * (SumReal(ps) / total)
  {
    if ps != [] {
      var init, last := ps[..|ps| - 1], ps[|ps| - 1];
      SumShareList(remaining, init, total);
      var sl := ShareList(remaining, init, total);
      assert (sl + [remaining * (last / total)])[..|sl|] == sl;
      ShareStep(remaining, SumReal(init), last, total);
    }
  }

  lemma {:induction false} SumPositive(ps: seq<real>)
    requires ps != [] && forall k :: 0 <= k < |ps| ==> ps[k] > 0.0
    ensures SumReal(ps) > 0.0
  {
    if |ps| > 1 {
      SumPositive(ps[..|ps| - 1]);
    }
  }

  /** Equal shares add up to the remainder. */
  lemma EqualSharesSum(remaining: real, n: nat)
    requires n > 0
    ensures SumReal(EqualShares(remaining, n)) == remaining
  {
    SumRepeat(remaining / (n as real), n);
    WholeOfParts(remaining, n as real);
  }

  /** Shares in proportion to positive values add up to the remainder. */
  lemma WeightedSharesSum(remaining: real, powered: seq<real>)
    requires powered != [] && forall k :: 0 <= k < |powered| ==> powered[k] > 0.0
    ensures SumReal(ShareList(remaining, powered, PoweredTotal(powered))) == remaining
  {
    SumPositive(powered);
    SumShareList(remaining, powered, PoweredTotal(powered));
    FractionOfSelf(remaining, SumReal(powered));
  }

  /** In both modes that assign, the shares add up to the remainder. */
  lemma SharesSum(ps: seq<Option<real>>, counts: seq<nat>, mode: string, slope: int, useCount: bool,
                  pow: Power, remaining: real)
    requires |counts| == NumUnset(ps) && NumUnset(ps) > 0 && (mode == "b" || mode == "w")
    ensures SumReal(Shares(ps, counts, mode, slope, useCount, pow, remaining).value) == remaining
  {
    if mode == "b" || (mode == "w" && !useCount) {
      EqualSharesSum(remaining, NumUnset(ps));
    } else {
      WeightedSharesSum(remaining, PoweredList(pow, counts, slope));
    }
  }

  /** Giving the unset proportions values adds the values to the set total. */
  lemma {:induction false} SetSumAssign(ps: seq<Option<real>>, vals: seq<real>)
    requires |vals| == NumUnset(ps)
    ensures SetSum(AssignUnset(ps, vals)) == SetSum(ps) + SumReal(vals)
  {
    if ps != [] {
      var init, last := ps[..|ps| - 1], ps[|ps| - 1];
      if last.None? {
        var vi := vals[..|vals| - 1];
        SetSumAssign(init, vi);
        var a := AssignUnset(init, vi);
        assert (a + [Some(vals[|vals| - 1])])[..|a|] == a;
      } else {
        SetSumAssign(init, vals);
        var a := AssignUnset(init, vals);
        assert (a + [last])[..|a|] == a;
      }
    }
  }

  /** Scaling multiplies the set total by the factor. */
  lemma {:induction false} SetSumScale(ps: seq<Option<real>>, factor: real)
    ensures SetSum(ScaleSet(ps, factor)) == factor * SetSum(ps)
  {
    if ps != [] {
      var init, last := ps[..|ps| - 1], ps[|ps| - 1];
      SetSumScale(init, factor);
      var sc := ScaleSet(init, factor);
      assert (sc + [ScaleOne(last, factor)])[..|sc|] == sc;
      ScaleStep(factor, SetSum(init), PropOr0(last));
    }
  }

  /** Every proportion is set once the unset ones got their values. */
  lemma {:induction false} AssignUnsetSets(ps: seq<Option<real>>, vals: seq<real>)
    requires |vals| == NumUnset(ps)
    ensures NumUnset(AssignUnset(ps, vals)) == 0
  {
    if ps != [] {
      var init, last := ps[..|ps| - 1], ps[|ps| - 1];
      var vi := if last.None? then vals[..|vals| - 1] else vals;
      AssignUnsetSets(init, vi);
      var a := AssignUnset(init, vi);
      var e := if last.None? then Some(vals[|vals| - 1]) else last;
      assert (a + [e])[..|a|] == a;
    }
  }

  /** Scaling by `100 / total` brings a non-zero total to 100. */
  lemma ScaledTo100(ps: seq<Option<real>>)
    requires SetSum(ps) != 0.0
    ensures SetSum(ScaleSet(ps, 100.0 / SetSum(ps))) == 100.0
  {
    SetSumScale(ps, 100.0 / SetSum(ps));
    HundredOfTotal(SetSum(ps));
  }

  /**
   * After filling a group with an unset node, the proportions sum to
   * exactly 100 whenever the mode assigns shares, or the set proportions
   * already had a non-zero sum.
   */
  lemma FillSumsTo100(ps: seq<Option<real>>, counts: seq<nat>, mode: string, slope: int, useCount: bool, pow: Power)
    requires |counts| == NumUnset(ps) && NumUnset(ps) > 0
    requires mode == "b" || mode == "w" || SetSum(ps) != 0.0
    ensures SetSum(FillGroup(ps, counts, mode, slope, useCount, pow)) == 100.0
  {
    var ts := SetSum(ps);
    var shares := Shares(ps, counts, mode, slope, useCount, pow, Remaining(ts));
    var ps1 := if shares.Some? then AssignUnset(ps, shares.value) else ps;
    if shares.Some? {
      SetSumAssign(ps, shares.value);
      SharesSum(ps, counts, mode, slope, useCount, pow, Remaining(ts));
      assert SetSum(ps1) == MaxReal(ts, 100.0);
    }
    ScaledTo100(ps1);
  }

  /** With nothing unset the group is returned unchanged: no renormalisation happens. */
  lemma FillWithNothingUnset(ps: seq<Option<real>>, counts: seq<nat>, mode: string, slope: int, useCount: bool, pow: Power)
    requires |counts| == NumUnset(ps) && NumUnset(ps) == 0
    ensures FillGroup(ps, counts, mode, slope, useCount, pow) == ps
  {
  }

  /** The `k`-th weighted share. */
  lemma {:induction false} ShareListAt(remaining: real, ps: seq<real>, total: real, k: nat)
    requires total != 0.0 && k < |ps|
    ensures ShareList(remaining, ps, total)[k] == remaining * (ps[k] / total)
  {
    if k < |ps| - 1 {
      ShareListAt(remaining, ps[..|ps| - 1], total, k);
    }
  }

  /** With something left to share, every share is strictly positive, in both modes that assign. */
  lemma SharesPositive(ps: seq<Option<real>>, counts: seq<nat>, mode: string, slope: int, useCount: bool,
                       pow: Power, remaining: real)
    requires |counts| == NumUnset(ps) && NumUnset(ps) > 0 && (mode == "b" || mode == "w") && remaining > 0.0
    ensures forall k :: 0 <= k < NumUnset(ps) ==> Shares(ps, counts, mode, slope, useCount, pow, remaining).value[k] > 0.0
  {
    var n := NumUnset(ps);
    if mode == "b" || (mode == "w" && !useCount) {
      DivPositive(remaining, n as real);
    } else {
      var powered := PoweredList(pow, counts, slope);
      SumPositive(powered);
      forall k | 0 <= k < n
        ensures ShareList(remaining, powered, PoweredTotal(powered))[k] > 0.0
      {
        ShareListAt(remaining, powered, PoweredTotal(powered), k);
        DivPositive(powered[k], SumReal(powered));
        MulPositive(remaining, powered[k] / SumReal(powered));
      }
    }
  }

  /** Assigning keeps the set proportions and gives every unset one some listed value. */
  lemma {:induction false} AssignUnsetAt(ps: seq<Option<real>>, vals: seq<real>, k: nat)
    requires |vals| == NumUnset(ps) && k < |ps|
    ensures ps[k].Some? ==> AssignUnset(ps, vals)[k] == ps[k]
    ensures ps[k].None? ==> AssignUnset(ps, vals)[k].Some? && AssignUnset(ps, vals)[k].value in vals
  {
    var init, last := ps[..|ps| - 1], ps[|ps| - 1];
    var vi := if last.None? then vals[..|vals| - 1] else vals;
    if k < |ps| - 1 {
      AssignUnsetAt(init, vi, k);
      assert init[k] == ps[k];
    }
  }

  /** The `k`-th proportion after scaling. */
  lemma {:induction false} ScaleSetAt(ps: seq<Option<real>>, factor: real, k: nat)
    requires k < |ps|
    ensures ScaleSet(ps, factor)[k] == ScaleOne(ps[k], factor)
  {
    if k < |ps| - 1 {
      ScaleSetAt(ps[..|ps| - 1], factor, k);
    }
  }

  /** A positive proportion stays positive when scaled by a positive factor. */
  lemma ScaledPositive(ps: seq<Option<real>>, factor: real, k: nat)
    requires k < |ps| && factor > 0.0 && ps[k].Some? && ps[k].value > 0.0
    ensures ScaleSet(ps, factor)[k].Some? && ScaleSet(ps, factor)[k].value > 0.0
  {
    ScaleSetAt(ps, factor, k);
    MulPositive(ps[k].value, factor);
  }

  /** In a mode that assigns, filling is the assignment of the shares scaled to a total of at least 100. */
  lemma FillAssigns(ps: seq<Option<real>>, counts: seq<nat>, mode: string, slope: int, useCount: bool, pow: Power)
    requires |counts| == NumUnset(ps) && NumUnset(ps) > 0 && (mode == "b" || mode == "w")
    ensures var ps1 := AssignUnset(ps, Shares(ps, counts, mode, slope, useCount, pow, Remaining(SetSum(ps))).value);
      SetSum(ps1) >= 100.0 && FillGroup(ps, counts, mode, slope, useCount, pow) == ScaleSet(ps1, 100.0 / SetSum(ps1))
  {
    var ts := SetSum(ps);
    var vals := Shares(ps, counts, mode, slope, useCount, pow, Remaining(ts)).value;
    SetSumAssign(ps, vals);
    SharesSum(ps, counts, mode, slope, useCount, pow, Remaining(ts));
  }

  /**
   * When the set proportions leave something to share, every unset node
   * of the group ends with a strictly positive proportion, and every set
   * one stays set.
   */
  lemma FillUnsetPositive(ps: seq<Option<real>>, counts: seq<nat>, mode: string, slope: int, useCount: bool,
                          pow: Power, k: nat)
    requires |counts| == NumUnset(ps) && NumUnset(ps) > 0 && (mode == "b" || mode == "w")
    requires SetSum(ps) < 100.0 && k < |ps|
    ensures ps[k].Some? ==> FillGroup(ps, counts, mode, slope, useCount, pow)[k].Some?
    ensures ps[k].None? ==>
      FillGroup(ps, counts, mode, slope, useCount, pow)[k].Some? && FillGroup(ps, counts, mode, slope, useCount, pow)[k].value > 0.0
  {
    var ts := SetSum(ps);
    var vals := Shares(ps, counts, mode, slope, useCount, pow, Remaining(ts)).value;
    var ps1 := AssignUnset(ps, vals);
    FillAssigns(ps, counts, mode, slope, useCount, pow);
    SharesPositive(ps, counts, mode, slope, useCount, pow, Remaining(ts));
    AssignUnsetAt(ps, vals, k);
    DivPositive(100.0, SetSum(ps1));
    if ps[k].None? {
      ScaledPositive(ps1, 100.0 / SetSum(ps1), k);
    } else {
      ScaleSetAt(ps1, 100.0 / SetSum(ps1), k);
    }
  }

  /** An example of `FillSumsTo100`: of four siblings, one set to 40, the other three get 20 each in balanced mode. */
  lemma BalancedExample(pow: Power)
    ensures NumUnset([Some(40.0), None, None, None]) == 3
    ensures FillGroup([Some(40.0), None, None, None], [0, 0, 0], "b", 0, false, pow) ==
            [Some(40.0), Some(20.0), Some(20.0), Some(20.0)]
  {
    var p1, p2, p3, ps := [Some(40.0)], [Some(40.0), None], [Some(40.0), None, None], [Some(40.0), None, None, None];
    assert p1[..0] == [] && p2[..1] == p1 && p3[..2] == p2 && ps[..3] == p3;
    assert SetSum(p1) == 40.0 && NumUnset(p1) == 0;
    assert SetSum(p2) == 40.0 && NumUnset(p2) == 1;
    assert SetSum(p3) == 40.0 && NumUnset(p3) == 2;
    assert SetSum(ps) == 40.0 && NumUnset(ps) == 3;
    var vals := EqualShares(60.0, 3);
    assert vals == [20.0, 20.0, 20.0];
    assert vals[..2] == [20.0, 20.0] && vals[..2][..1] == [20.0] && vals[..2][..1][..0] == [];
    assert AssignUnset(p1, []) == p1;
    assert AssignUnset(p2, [20.0]) == [Some(40.0), Some(20.0)];
    assert AssignUnset(p3, [20.0, 20.0]) == [Some(40.0), Some(20.0), Some(20.0)];
    var r := [Some(40.0), Some(20.0), Some(20.0), Some(20.0)];
    assert AssignUnset(ps, vals) == r;
    var r1, r2, r3 := [Some(40.0)], [Some(40.0), Some(20.0)], [Some(40.0), Some(20.0), Some(20.0)];
    assert r1[..0] == [] && r2[..1] == r1 && r3[..2] == r2 && r[..3] == r3;
    assert SetSum(r1) == 40.0 && SetSum(r2) == 60.0 && SetSum(r3) == 80.0 && SetSum(r) == 100.0;
    assert ScaleSet(r1, 1.0) == r1;
    assert ScaleSet(r2, 1.0) == r2;
    assert ScaleSet(r3, 1.0) == r3;
    assert ScaleSet(r, 1.0) == r;
  }
}
