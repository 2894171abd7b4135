/**
 * The zero-order-hold spliner of a direct-multiple-shooting (DMS)
 * discretisation: one stored vector per shooting interval, returned as the
 * constant value of the spline over that whole interval, together with the
 * spline's (constant) derivatives with respect to time, interval duration
 * and the interval's own and next decision variables.
 */
module ZeroOrderHold {
  import opened LinearAlgebra

  datatype Option<T> = None | Some(value: T)

  /**
   * The DMS time grid handed to the spliner: the boundary times of the
   * shooting intervals, interval `i` spanning `[times[i], times[i + 1])`.
   * The spliner keeps it, but none of its own operations reads it.
   */
  datatype TimeGrid = TimeGrid(times: seq<real>)

  /** Every vector in `vs` has dimension `n`. */
  predicate AllOfDim(vs: seq<Vector>, n: nat) {
    forall k :: 0 <= k < |vs| ==> |vs[k]| == n
  }

  /** The boundary times increase strictly. */
  predicate StrictlyIncreasing(times: seq<real>) {
    forall i, j :: 0 <= i < j < |times| ==> times[i] < times[j]
  }

  /** `holds` with the value of interval `k` moved by `d`; unchanged if there is no interval `k`. */
  function Perturbed(holds: seq<Vector>, k: nat, d: Vector): (r: seq<Vector>)
    requires k < |holds| ==> |holds[k]| == |d|
    ensures |r| == |holds|
    ensures forall j :: 0 <= j < |r| && j != k ==> r[j] == holds[j]
    ensures k < |holds| ==> r[k] == Add(holds[k], d)
  {
    if k < |holds| then holds[k := Add(holds[k], d)] else holds
  }

  /**
   * Reference definition of a zero-order hold as a function of time alone:
   * the value held at time `t` is the value of the interval whose span
   * contains `t`, and there is none outside the grid.
   */
  function HeldValue(times: seq<real>, holds: seq<Vector>, t: real): Option<Vector>
    decreases |holds|
  {
    if |holds| == 0 || |times| < 2 then None
    else if times[0] <= t < times[1] then Some(holds[0])
    else HeldValue(times[1..], holds[1..], t)
  }

  /** Inside the span of interval `i`, the held value is the value stored for `i`. */
  lemma {:induction false} HeldValueOnInterval(times: seq<real>, holds: seq<Vector>, t: real, i: nat)
    requires StrictlyIncreasing(times) && |times| == |holds| + 1
    requires i < |holds| && times[i] <= t < times[i + 1]
    ensures HeldValue(times, holds, t) == Some(holds[i])
  {
    if i > 0 {
      assert times[1] <= times[i];
      HeldValueOnInterval(times[1..], holds[1..], t, i - 1);
    }
  }

  class ZeroOrderHoldSpliner {
    /** Dimension of the splined vector type. */
    const dim: nat
    /** The shared DMS time grid; not read by the spliner's own operations. */
    const grid: TimeGrid
    /** The zero-order-hold values, one per shooting interval, in interval order. */
    var zOholds: seq<Vector>

    ghost predicate Valid()
      reads this
    {
      AllOfDim(zOholds, dim)
    }

    /** A spliner on `grid` that holds nothing yet. */
    constructor (dim: nat, grid: TimeGrid)
      ensures Valid()
      ensures this.dim == dim && this.grid == grid && zOholds == []
    {
      this.dim := dim;
      this.grid := grid;
      zOholds := [];
    }

    /** Stores `points` as the interval values, replacing whatever was stored. */
    method ComputeSpline(points: seq<Vector>)
      requires AllOfDim(points, dim)
      modifies this`zOholds
      ensures Valid()
      ensures zOholds == points
    {
      zOholds := points;
    }

    /** The value of the spline at `time` in interval `shotIdx`; `time` plays no part. */
    method EvalSpline(time: real, shotIdx: nat) returns (v: Vector)
      requires Valid()
      requires shotIdx < |zOholds|
      ensures v == zOholds[shotIdx]
      ensures |v| == dim
    {
      v := zOholds[shotIdx];
    }

    /** Derivative of the value with respect to time: zero. */
    function SplineDerivativeT(time: real, shotIdx: nat): (d: Vector)
      ensures |d| == dim && IsZeroVector(d)
    {
      Zero(dim)
    }

    /** Derivative of the value with respect to the interval's duration: zero. */
    function SplineDerivativeHI(time: real, shotIdx: nat): (d: Vector)
      ensures |d| == dim && IsZeroVector(d)
    {
      Zero(dim)
    }

    /** Derivative of the value with respect to the interval's own decision variable: the identity. */
    function SplineDerivativeQI(time: real, shotIdx: nat): (m: Matrix)
      ensures IsMatrix(m, dim, dim)
      ensures forall i, j :: 0 <= i < dim && 0 <= j < dim ==> m[i][j] == if i == j then 1.0 else 0.0
    {
      Identity(dim)
    }

    /** Derivative of the value with respect to the next interval's decision variable: zero. */
    function SplineDerivativeQIPlus1(time: real, shotIdx: nat): (m: Matrix)
      ensures IsMatrix(m, dim, dim)
      ensures forall i, j :: 0 <= i < dim && 0 <= j < dim ==> m[i][j] == 0.0
    {
      ZeroMatrix(dim)
    }
  }

  /**
   * Within the span of interval `shotIdx` on the spliner's grid, the value
   * held at `t + dt` is the value held at `t` plus `dt` times the time
   * derivative: the first-order prediction is exact for every step that
   * stays inside the interval.
   */
  lemma TimeDerivativeIsExact(s: ZeroOrderHoldSpliner, shotIdx: nat, t: real, dt: real)
    requires s.Valid() && shotIdx < |s.zOholds|
    requires StrictlyIncreasing(s.grid.times) && |s.grid.times| == |s.zOholds| + 1
    requires s.grid.times[shotIdx] <= t < s.grid.times[shotIdx + 1]
    requires s.grid.times[shotIdx] <= t + dt < s.grid.times[shotIdx + 1]
    ensures HeldValue(s.grid.times, s.zOholds, t) == Some(s.zOholds[shotIdx])
    ensures HeldValue(s.grid.times, s.zOholds, t + dt)
         == Some(Add(HeldValue(s.grid.times, s.zOholds, t).value, Scale(dt, s.SplineDerivativeT(t, shotIdx))))
  {
    var v := s.zOholds[shotIdx];
    HeldValueOnInterval(s.grid.times, s.zOholds, t, shotIdx);
    HeldValueOnInterval(s.grid.times, s.zOholds, t + dt, shotIdx);
    assert |v| == s.dim;
    assert Add(v, Scale(dt, s.SplineDerivativeT(t, shotIdx))) == v;
  }

  /**
   * Moving the end of interval `shotIdx` by `dh` changes its duration by
   * `dh`; at a time `t` inside its span before and after, the value held on
   * the changed grid is the value held on the spliner's grid plus `dh` times
   * the duration derivative.
   */
  lemma DurationDerivativeIsExact(s: ZeroOrderHoldSpliner, shotIdx: nat, t: real, dh: real)
    requires s.Valid() && shotIdx < |s.zOholds|
    requires StrictlyIncreasing(s.grid.times) && |s.grid.times| == |s.zOholds| + 1
    requires StrictlyIncreasing(s.grid.times[shotIdx + 1 := s.grid.times[shotIdx + 1] + dh])
    requires s.grid.times[shotIdx] <= t < s.grid.times[shotIdx + 1]
    requires t < s.grid.times[shotIdx + 1] + dh
    ensures HeldValue(s.grid.times, s.zOholds, t) == Some(s.zOholds[shotIdx])
    ensures HeldValue(s.grid.times[shotIdx + 1 := s.grid.times[shotIdx + 1] + dh], s.zOholds, t)
         == Some(Add(HeldValue(s.grid.times, s.zOholds, t).value, Scale(dh, s.SplineDerivativeHI(t, shotIdx))))
  {
    var v := s.zOholds[shotIdx];
    var stretched := s.grid.times[shotIdx + 1 := s.grid.times[shotIdx + 1] + dh];
    HeldValueOnInterval(s.grid.times, s.zOholds, t, shotIdx);
    HeldValueOnInterval(stretched, s.zOholds, t, shotIdx);
    assert |v| == s.dim;
    assert Add(v, Scale(dh, s.SplineDerivativeHI(t, shotIdx))) == v;
  }

  /**
   * Moving the interval's own value by `d` moves the spline's value there
   * by exactly the derivative applied to `d`.
   */
  lemma StateDerivativeIsExact(s: ZeroOrderHoldSpliner, time: real, shotIdx: nat, d: Vector)
    requires s.Valid() && shotIdx < |s.zOholds| && |d| == s.dim
    ensures Perturbed(s.zOholds, shotIdx, d)[shotIdx]
         == Add(s.zOholds[shotIdx], Apply(s.SplineDerivativeQI(time, shotIdx), d))
  {
    ApplyIdentity(d);
  }

  /**
   * Moving the next interval's value by `d` leaves the spline's value in
   * interval `shotIdx` where it was, as the zero derivative predicts.
   */
  lemma NextStateDerivativeIsExact(s: ZeroOrderHoldSpliner, time: real, shotIdx: nat, d: Vector)
    requires s.Valid() && shotIdx < |s.zOholds| && |d| == s.dim
    ensures Perturbed(s.zOholds, shotIdx + 1, d)[shotIdx]
         == Add(s.zOholds[shotIdx], Apply(s.SplineDerivativeQIPlus1(time, shotIdx), d))
  {
    ApplyZeroMatrix(d);
  }

  /** Storing the same points twice leaves the state that storing them once left. */
  method ComputeSplineIdempotent(s: ZeroOrderHoldSpliner, points: seq<Vector>) returns (once: seq<Vector>)
    requires AllOfDim(points, s.dim)
    modifies s
    ensures once == points && s.zOholds == once
  {
    s.ComputeSpline(points);
    once := s.zOholds;
    s.ComputeSpline(points);
  }

  /**
   * After storing `points`, evaluating interval `shotIdx` at two times gives
   * the stored value both times, the evaluations leave the state alone, and
   * on a well-formed grid the value agrees with the held value at any time
   * inside the interval's span.
   */
  method EvalAfterCompute(s: ZeroOrderHoldSpliner, points: seq<Vector>, t1: real, t2: real, shotIdx: nat)
    returns (v1: Vector, v2: Vector)
    requires AllOfDim(points, s.dim) && shotIdx < |points|
    modifies s
    ensures v1 == points[shotIdx] && v2 == v1
    ensures s.zOholds == points
    ensures StrictlyIncreasing(s.grid.times) && |s.grid.times| == |points| + 1
            && s.grid.times[shotIdx] <= t1 < s.grid.times[shotIdx + 1]
            ==> HeldValue(s.grid.times, points, t1) == Some(v1)
  {
    s.ComputeSpline(points);
    v1 := s.EvalSpline(t1, shotIdx);
    v2 := s.EvalSpline(t2, shotIdx);
    var times := s.grid.times;
    if StrictlyIncreasing(times) && |times| == |points| + 1 && times[shotIdx] <= t1 < times[shotIdx + 1] {
      HeldValueOnInterval(times, points, t1, shotIdx);
    }
  }

  /**
   * Re-evaluating after moving the interval's own value (or the next one's)
   * by `d` gives the base value plus the matching derivative applied to `d`.
   */
  method EvalAfterPerturbation(s: ZeroOrderHoldSpliner, points: seq<Vector>, time: real, shotIdx: nat, d: Vector)
    returns (base: Vector, own: Vector, next: Vector)
    requires AllOfDim(points, s.dim) && shotIdx < |points| && |d| == s.dim
    modifies s
    ensures base == points[shotIdx]
    ensures own == Add(base, Apply(s.SplineDerivativeQI(time, shotIdx), d))
    ensures next == Add(base, Apply(s.SplineDerivativeQIPlus1(time, shotIdx), d))
  {
    s.ComputeSpline(points);
    base := s.EvalSpline(time, shotIdx);
    StateDerivativeIsExact(s, time, shotIdx, d);
    NextStateDerivativeIsExact(s, time, shotIdx, d);
    var ownPoints := Perturbed(points, shotIdx, d);
    var nextPoints := Perturbed(points, shotIdx + 1, d);
    s.ComputeSpline(ownPoints);
    own := s.EvalSpline(time, shotIdx);
    s.ComputeSpline(nextPoints);
    next := s.EvalSpline(time, shotIdx);
  }
}
