/** The verdict on a series of samples in src/tools/workflows.rs. Values are real numbers. */
module Trends {

  datatype Verdict = Inconclusive | Sustained | Flat | Noisy

  function Sum(v: seq<real>): real { if v == [] then 0.0 else Sum(v[..|v| - 1]) + v[|v| - 1] }

  function Greatest(v: seq<real>): real
    requires v != []
  {
    var last := v[|v| - 1];
    if |v| == 1 then last else
      var m := Greatest(v[..|v| - 1]);
      if last > m then last else m
  }

  function Least(v: seq<real>): real
    requires v != []
  {
    var last := v[|v| - 1];
    if |v| == 1 then last else
      var m := Least(v[..|v| - 1]);
      if last < m then last else m
  }

  lemma {:induction false} Extremes(v: seq<real>)
    requires v != []
    ensures Greatest(v) in v && Least(v) in v
    ensures forall x :: x in v ==> Least(v) <= x <= Greatest(v)
  {
    if |v| > 1 {
      Extremes(v[..|v| - 1]);
      assert v == v[..|v| - 1] + [v[|v| - 1]];
    }
  }

  function Abs(x: real): real { if x < 0.0 then -x else x }

  const TINY := 0.000000001

  function Mean(v: seq<real>): real
    requires v != []
  {
    Sum(v) / |v| as real
  }

  function Scale(v: seq<real>): (s: real)
    requires v != []
    ensures s > 0.0
  {
    var m := Abs(Mean(v));
    if m > TINY then m else TINY
  }

  function Range(v: seq<real>): real
    requires v != []
  {
    Greatest(v) - Least(v)
  }

  predicate Rising(v: seq<real>) { forall i, j :: 0 <= i < j < |v| ==> v[i] <= v[j] }

  predicate Falling(v: seq<real>) { forall i, j :: 0 <= i < j < |v| ==> v[i] >= v[j] }

  /**
   * A series is sustained when it never turns back and covers a twentieth of its mean, else flat below a tenth,
   * else noisy.
   */
  function VerdictOf(v: seq<real>): Verdict {
    if |v| < 2 then Inconclusive
    else if (Rising(v) || Falling(v)) && Range(v) / Scale(v) >= 0.05 then Sustained
    else if Range(v) / Scale(v) < 0.10 then Flat
    else Noisy
  }

  /** A step of the series is zero or goes in the direction from the first value to the last. */
  predicate StepAgrees(v: seq<real>, k: nat)
    requires k + 1 < |v|
  {
    var d := v[k + 1] - v[k];
    d == 0.0 || (d >= 0.0) == (v[|v| - 1] - v[0] >= 0.0)
  }

  lemma {:induction false} RisesTo(v: seq<real>, i: nat, j: nat)
    requires i < j < |v| && forall k :: 0 <= k < |v| - 1 ==> v[k] <= v[k + 1]
    ensures v[i] <= v[j]
  {
    if i + 1 < j {
      RisesTo(v, i, j - 1);
    }
  }

  lemma {:induction false} FallsTo(v: seq<real>, i: nat, j: nat)
    requires i < j < |v| && forall k :: 0 <= k < |v| - 1 ==> v[k] >= v[k + 1]
    ensures v[i] >= v[j]
  {
    if i + 1 < j {
      FallsTo(v, i, j - 1);
    }
  }

  /** Every step agrees with the overall direction exactly when the series never turns back. */
  lemma StepsDecide(v: seq<real>)
    requires |v| >= 2
    ensures (forall k :: 0 <= k < |v| - 1 ==> StepAgrees(v, k)) <==> Rising(v) || Falling(v)
  {
    var direction := v[|v| - 1] - v[0];
    if forall k :: 0 <= k < |v| - 1 ==> StepAgrees(v, k) {
      if direction >= 0.0 {
        forall k | 0 <= k < |v| - 1 ensures v[k] <= v[k + 1] { assert StepAgrees(v, k); }
        forall i, j | 0 <= i < j < |v| ensures v[i] <= v[j] { RisesTo(v, i, j); }
      } else {
        forall k | 0 <= k < |v| - 1 ensures v[k] >= v[k + 1] { assert StepAgrees(v, k); }
        forall i, j | 0 <= i < j < |v| ensures v[i] >= v[j] { FallsTo(v, i, j); }
      }
    }
    if Rising(v) || Falling(v) {
      forall k | 0 <= k < |v| - 1 ensures StepAgrees(v, k) {
        assert k == 0 || (Rising(v) && v[0] <= v[k]) || (Falling(v) && v[0] >= v[k]);
        assert k + 1 == |v| - 1 || (Rising(v) && v[k + 1] <= v[|v| - 1]) || (Falling(v) && v[k + 1] >= v[|v| - 1]);
      }
    }
  }

  /** A series that never turns back covers its range from end to end. */
  lemma MonotoneRange(v: seq<real>)
    requires |v| >= 2 && (Rising(v) || Falling(v))
    ensures Range(v) == Abs(v[|v| - 1] - v[0])
  {
    var first, last := v[0], v[|v| - 1];
    Extremes(v);
    var i :| 0 <= i < |v| && v[i] == Greatest(v);
    var j :| 0 <= j < |v| && v[j] == Least(v);
    assert first in v && last in v;
  }

  method ClassifyTrend(values: seq<real>) returns (verdict: Verdict)
    ensures verdict == VerdictOf(values)
  {
    if |values| < 2 {
      return Inconclusive;
    }
    var direction := values[|values| - 1] - values[0];
    var range, scale := Range(values), Scale(values);
    var monotonic := true;
    var k := 0;
    while k < |values| - 1 && monotonic
      invariant 0 <= k <= |values| - 1
      invariant monotonic ==> forall m :: 0 <= m < k ==> StepAgrees(values, m)
      invariant !monotonic ==> exists m :: 0 <= m < |values| - 1 && !StepAgrees(values, m)
    {
      var d := values[k + 1] - values[k];
      if d != 0.0 && (d >= 0.0) != (direction >= 0.0) {
        assert !StepAgrees(values, k);
        monotonic := false;
      }
      k := k + 1;
    }
    StepsDecide(values);
    if monotonic {
      MonotoneRange(values);
    }
    if monotonic && Abs(direction) / scale >= 0.05 {
      return Sustained;
    }
    return if range / scale < 0.10 then Flat else Noisy;
  }

  // ---------------------------------------------------------------------------------------------
  // What the verdict does not depend on.

  function Reverse(v: seq<real>): (r: seq<real>)
    ensures |r| == |v| && forall i :: 0 <= i < |v| ==> r[i] == v[|v| - 1 - i]
  {
    seq(|v|, i requires 0 <= i < |v| => v[|v| - 1 - i])
  }

  lemma {:induction false} SumFront(x: real, v: seq<real>)
    ensures Sum([x] + v) == x + Sum(v)
  {
    if v == [] {
      assert ([x] + v)[..0] == [];
    } else {
      assert ([x] + v)[..|v|] == [x] + v[..|v| - 1];
      SumFront(x, v[..|v| - 1]);
    }
  }

  lemma {:induction false} SumReversed(v: seq<real>)
    ensures Sum(Reverse(v)) == Sum(v)
  {
    if v != [] {
      var init, last := v[..|v| - 1], v[|v| - 1];
      SumReversed(init);
      SumFront(last, Reverse(init));
      assert Reverse(v) == [last] + Reverse(init);
    }
  }

  lemma GreatestIs(v: seq<real>, m: real)
    requires v != [] && m in v && forall x :: x in v ==> x <= m
    ensures Greatest(v) == m
  {
    Extremes(v);
  }

  lemma LeastIs(v: seq<real>, m: real)
    requires v != [] && m in v && forall x :: x in v ==> m <= x
    ensures Least(v) == m
  {
    Extremes(v);
  }

  lemma SameMembers(v: seq<real>, x: real)
    ensures x in Reverse(v) <==> x in v
  {
    if x in v {
      var i :| 0 <= i < |v| && v[i] == x;
      assert Reverse(v)[|v| - 1 - i] == x;
    }
  }

  lemma RangeReversed(v: seq<real>)
    requires v != []
    ensures Range(Reverse(v)) == Range(v)
  {
    forall x ensures x in Reverse(v) <==> x in v { SameMembers(v, x); }
    Extremes(v);
    GreatestIs(Reverse(v), Greatest(v));
    LeastIs(Reverse(v), Least(v));
  }

  lemma HalfTurn(v: seq<real>, r: seq<real>)
    requires |r| == |v| && forall i :: 0 <= i < |r| ==> r[i] == v[|v| - 1 - i]
    ensures (Rising(v) ==> Falling(r)) && (Falling(v) ==> Rising(r))
  {
    forall i, j | 0 <= i < j < |r| ensures Rising(v) ==> r[i] >= r[j] ensures Falling(v) ==> r[i] <= r[j] {
      var i', j' := |v| - 1 - j, |v| - 1 - i;
      assert r[i] == v[j'] && r[j] == v[i'] && 0 <= i' < j' < |v|;
    }
  }

  lemma TurnsWithReversal(v: seq<real>)
    ensures (Rising(Reverse(v)) <==> Falling(v)) && (Falling(Reverse(v)) <==> Rising(v))
  {
    forall i | 0 <= i < |v| ensures v[i] == Reverse(v)[|v| - 1 - i] {
    }
    HalfTurn(v, Reverse(v));
    HalfTurn(Reverse(v), v);
  }

  /** Played backwards, a series gets the same verdict. */
  lemma ReversedAlike(v: seq<real>)
    ensures VerdictOf(Reverse(v)) == VerdictOf(v)
  {
    if |v| >= 2 {
      SumReversed(v);
      RangeReversed(v);
      TurnsWithReversal(v);
      assert Scale(Reverse(v)) == Scale(v);
    }
  }
}
