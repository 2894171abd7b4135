# Zero-order-hold spliner (Control Toolbox, DMS core)

This project models the zero-order-hold spliner of the Control Toolbox's
direct-multiple-shooting (DMS) discretisation. The spliner stores one vector
per shooting interval. It returns that vector as the value of the spline
anywhere in the interval, whatever the query time. It also answers four
derivative queries with constants: zero with respect to time, zero with
respect to the interval duration, the identity with respect to the
interval's own decision variable `q_i`, and zero with respect to the next
one, `q_{i+1}`.

Layout:

- `linear_algebra.dfy`, module `LinearAlgebra`: the Eigen vector and matrix
  types the spliner uses. Vectors are `seq<real>`, matrices are sequences of
  rows. It provides `Zero`, `ZeroMatrix`, `Identity`, `Add`, `Scale`,
  `Dot` and `Apply` (matrix times vector), and lemmas about what the identity
  and zero matrices do to a vector.
- `zero_order_hold_spliner.dfy`, module `ZeroOrderHold`: the class
  `ZeroOrderHoldSpliner`. The C++ field `zOholds_` is the `seq` field
  `zOholds`. `computeSpline` and `evalSpline` are methods. The four `const`
  derivative queries are functions with no `reads` clause, so they cannot
  depend on the stored values. Beside the class are a reference definition
  `HeldValue` of a zero-order hold as a function of time over the grid, the
  lemmas that each derivative predicts exactly how the value changes (under
  a time step or a change of interval duration, measured with `HeldValue`;
  under a perturbation of `q_i` or `q_{i+1}`, measured on the stored values),
  and three client methods that state the properties of call sequences
  (idempotence, time independence, re-evaluation after a perturbation).

Modelling decisions:

- The template vector type `T` has a fixed dimension `T::DIM`. The class
  holds it as the constant `dim`, given to the constructor. The C++ type
  system guarantees that every stored vector has that dimension. In the
  model this is the object invariant `Valid()`, and `ComputeSpline` requires
  it of its argument.
- `SCALAR` (for time and for vector entries) is `real`: exact, with no
  rounding.
- `shotIdx` (`size_t`) is a `nat`.
- The time grid is kept as the constant `grid`. As in the source, none of
  the spliner's own operations reads it; only the lemmas and client methods
  that compare with `HeldValue` look at its boundary times.
- Out-of-range `shotIdx`: the source checks `shotIdx < zOholds_.size()`
  only with a debug `assert`, so the index is the caller's obligation. The
  model makes it a precondition of `EvalSpline`. It is not a recoverable
  error.

## Model

| member | source | states |
|---|---|---|
| ZeroOrderHold.ZeroOrderHoldSpliner.constructor | ct_optcon/include/ct/optcon/dms/dms_core/spline/ZeroOrderHold/ZeroOrderHoldSpliner.h:38 | a new spliner keeps the given grid and dimension and holds no interval values yet |
| ZeroOrderHold.ZeroOrderHoldSpliner.ComputeSpline | ct_optcon/include/ct/optcon/dms/dms_core/spline/ZeroOrderHold/ZeroOrderHoldSpliner.h:40 | afterwards the stored sequence is exactly `points` (same length, elements and order), whatever was stored before; only `zOholds` changes |
| ZeroOrderHold.ZeroOrderHoldSpliner.EvalSpline | ct_optcon/include/ct/optcon/dms/dms_core/spline/ZeroOrderHold/ZeroOrderHoldSpliner.h:42-47 | requires `shotIdx < \|zOholds\|`; returns the value stored for interval `shotIdx`, of dimension `dim`, independent of `time`; changes nothing |
| ZeroOrderHold.ZeroOrderHoldSpliner.SplineDerivativeT | ct_optcon/include/ct/optcon/dms/dms_core/spline/ZeroOrderHold/ZeroOrderHoldSpliner.h:49 | the result is the zero vector of dimension `dim` for every time and interval, and does not read the stored values |
| ZeroOrderHold.ZeroOrderHoldSpliner.SplineDerivativeHI | ct_optcon/include/ct/optcon/dms/dms_core/spline/ZeroOrderHold/ZeroOrderHoldSpliner.h:51 | the result is the zero vector of dimension `dim` for every time and interval, and does not read the stored values |
| ZeroOrderHold.ZeroOrderHoldSpliner.SplineDerivativeQI | ct_optcon/include/ct/optcon/dms/dms_core/spline/ZeroOrderHold/ZeroOrderHoldSpliner.h:53-56 | the result is the `dim`×`dim` identity matrix for every time and interval, and does not read the stored values |
| ZeroOrderHold.ZeroOrderHoldSpliner.SplineDerivativeQIPlus1 | ct_optcon/include/ct/optcon/dms/dms_core/spline/ZeroOrderHold/ZeroOrderHoldSpliner.h:58-61 | the result is the `dim`×`dim` zero matrix for every time and interval, and does not read the stored values |
| LinearAlgebra.Zero | ct_optcon/include/ct/optcon/dms/dms_core/spline/ZeroOrderHold/ZeroOrderHoldSpliner.h:49-51 | the zero vector returned by the time and duration derivative queries has the requested dimension and only zero entries |
| LinearAlgebra.Identity | ct_optcon/include/ct/optcon/dms/dms_core/spline/ZeroOrderHold/ZeroOrderHoldSpliner.h:55 | the identity matrix returned for `q_i` is square of the requested dimension, with ones on the diagonal and zeros elsewhere |
| LinearAlgebra.ZeroMatrix | ct_optcon/include/ct/optcon/dms/dms_core/spline/ZeroOrderHold/ZeroOrderHoldSpliner.h:60 | the zero matrix returned for `q_{i+1}` is square of the requested dimension, with only zero entries |
| LinearAlgebra.ApplyIdentity | ct_optcon/include/ct/optcon/dms/dms_core/spline/ZeroOrderHold/ZeroOrderHoldSpliner.h:55 | the identity matrix returned for `q_i` maps every vector `d` to `d` |
| LinearAlgebra.ApplyZeroMatrix | ct_optcon/include/ct/optcon/dms/dms_core/spline/ZeroOrderHold/ZeroOrderHoldSpliner.h:60 | the zero matrix returned for `q_{i+1}` maps every vector to the zero vector |
| ZeroOrderHold.TimeDerivativeIsExact | ct_optcon/include/ct/optcon/dms/dms_core/spline/ZeroOrderHold/ZeroOrderHoldSpliner.h:49 | on a strictly increasing grid, for times `t` and `t + dt` both inside interval `i`'s span, the value held at `t` is the stored value and the value held at `t + dt` is that value plus `dt` times the time derivative |
| ZeroOrderHold.DurationDerivativeIsExact | ct_optcon/include/ct/optcon/dms/dms_core/spline/ZeroOrderHold/ZeroOrderHoldSpliner.h:51 | moving the end of interval `i` by `dh` (the grid staying strictly increasing, `t` inside the span before and after) gives a held value at `t` equal to the old held value plus `dh` times the duration derivative |
| ZeroOrderHold.StateDerivativeIsExact | ct_optcon/include/ct/optcon/dms/dms_core/spline/ZeroOrderHold/ZeroOrderHoldSpliner.h:53-56 | moving interval `shotIdx`'s value by `d` gives the old value plus the `q_i` derivative applied to `d` |
| ZeroOrderHold.NextStateDerivativeIsExact | ct_optcon/include/ct/optcon/dms/dms_core/spline/ZeroOrderHold/ZeroOrderHoldSpliner.h:58-61 | moving interval `shotIdx + 1`'s value by `d` leaves interval `shotIdx`'s value equal to the old value plus the `q_{i+1}` derivative applied to `d` |
| ZeroOrderHold.HeldValueOnInterval | ct_optcon/include/ct/optcon/dms/dms_core/spline/ZeroOrderHold/ZeroOrderHoldSpliner.h:42-47 | on a strictly increasing grid with one more boundary than intervals, the piecewise-constant trajectory at any time in interval `i`'s span is the value stored for `i` |
| ZeroOrderHold.ComputeSplineIdempotent | ct_optcon/include/ct/optcon/dms/dms_core/spline/ZeroOrderHold/ZeroOrderHoldSpliner.h:40 | storing the same points twice leaves the same state as storing them once, namely `points` |
| ZeroOrderHold.EvalAfterCompute | ct_optcon/include/ct/optcon/dms/dms_core/spline/ZeroOrderHold/ZeroOrderHoldSpliner.h:40-47 | after storing `points`, evaluating interval `shotIdx` at two different times returns `points[shotIdx]` both times, leaves the state at `points`, and agrees with the held trajectory inside the interval's span |
| ZeroOrderHold.EvalAfterPerturbation | ct_optcon/include/ct/optcon/dms/dms_core/spline/ZeroOrderHold/ZeroOrderHoldSpliner.h:40-61 | storing points with interval `shotIdx` (or `shotIdx + 1`) moved by `d` and evaluating again gives the base value plus the `q_i` (or `q_{i+1}`) derivative applied to `d` |

## Left out

- The self-comparison `zOholds_[shotIdx] == zOholds_[shotIdx]` in `evalSpline` (ct_optcon/include/ct/optcon/dms/dms_core/spline/ZeroOrderHold/ZeroOrderHoldSpliner.h:45) is a NaN check on floating-point vectors. Over exact reals it always holds, so it is omitted.
- Floating-point rounding and NaN values of `SCALAR` are not modelled: entries and times are exact reals.
- The base class `SplinerBase`, the time grid type `tpl::TimeGrid` and Eigen are not part of this model. Only the grid reference kept by the constructor and the vector and matrix operations the derivatives need are modelled. The shared-pointer aliasing of the grid is not modelled, because the spliner never reads the grid.
- `EIGEN_MAKE_ALIGNED_OPERATOR_NEW` and the deleted default constructor are memory-alignment and construction machinery with no behaviour to model.
- The numerical-differentiation provider (`ct_core/include/ct/core/math/DerivativesNumDiff.h`) is not part of this model. Its purpose is the effect of IEEE-754 rounding on finite-difference steps, which exact arithmetic cannot reflect, and it calls an opaque caller-supplied function.
- The Hessian code-generation template (`ct_core/templates/Hessian.tpl.cpp`) is not part of this model. It is a build-time text template with no runtime logic.
