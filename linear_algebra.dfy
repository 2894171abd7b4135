/**
 * Dense vectors and matrices over exact reals: the part of the spliner's
 * vector and matrix types that its derivative queries rely on (a zero
 * vector, a zero matrix, an identity matrix, addition and the
 * matrix-vector product).
 */
module LinearAlgebra {

  type Vector = seq<real>

  /** A matrix is a sequence of rows. */
  type Matrix = seq<seq<real>>

  /** `m` has `rows` rows, each of length `cols`. */
  predicate IsMatrix(m: Matrix, rows: nat, cols: nat) {
    |m| == rows && forall i :: 0 <= i < |m| ==> |m[i]| == cols
  }

  /** Every entry of `v` is zero. */
  predicate IsZeroVector(v: Vector) {
    forall i :: 0 <= i < |v| ==> v[i] == 0.0
  }

  /** The zero vector of dimension `n`. */
  function Zero(n: nat): (z: Vector)
    ensures |z| == n && IsZeroVector(z)
  {
    seq(n, _ => 0.0)
  }

  /** The `n`×`n` zero matrix. */
  function ZeroMatrix(n: nat): (m: Matrix)
    ensures IsMatrix(m, n, n)
    ensures forall i, j :: 0 <= i < n && 0 <= j < n ==> m[i][j] == 0.0
  {
    seq(n, _ => Zero(n))
  }

  /** The `n`×`n` identity matrix: ones on the diagonal, zeros elsewhere. */
  function Identity(n: nat): (m: Matrix)
    ensures IsMatrix(m, n, n)
    ensures forall i, j :: 0 <= i < n && 0 <= j < n ==> m[i][j] == if i == j then 1.0 else 0.0
  {
    seq(n, i => seq(n, j => if i == j then 1.0 else 0.0))
  }

  /** Entrywise sum of two vectors of the same dimension. */
  function Add(u: Vector, v: Vector): (w: Vector)
    requires |u| == |v|
    ensures |w| == |u|
    ensures forall i :: 0 <= i < |w| ==> w[i] == u[i] + v[i]
  {
    seq(|u|, i requires 0 <= i < |u| => u[i] + v[i])
  }

  /** The vector `v` multiplied by the scalar `c`. */
  function Scale(c: real, v: Vector): (w: Vector)
    ensures |w| == |v|
    ensures forall i :: 0 <= i < |w| ==> w[i] == c * v[i]
  {
    seq(|v|, i requires 0 <= i < |v| => c * v[i])
  }

  /** Inner product, summed from the first coordinate to the last. */
  function Dot(u: Vector, v: Vector): real
    requires |u| == |v|
  {
    if |u| == 0 then 0.0 else u[0] * v[0] + Dot(u[1..], v[1..])
  }

  /** Matrix-vector product: entry `i` is the inner product of row `i` with `v`. */
  function Apply(m: Matrix, v: Vector): (w: Vector)
    requires IsMatrix(m, |m|, |v|)
    ensures |w| == |m|
  {
    seq(|m|, i requires 0 <= i < |m| => Dot(m[i], v))
  }

  /** The inner product with an all-zero vector is zero. */
  lemma {:induction false} DotWithZero(z: Vector, d: Vector)
    requires |z| == |d| && IsZeroVector(z)
    ensures Dot(z, d) == 0.0
  {
    if |z| > 0 {
      DotWithZero(z[1..], d[1..]);
    }
  }

  /** The inner product with the `k`-th unit vector picks coordinate `k`. */
  lemma {:induction false} DotWithUnit(e: Vector, d: Vector, k: nat)
    requires |e| == |d| && k < |e|
    requires forall j :: 0 <= j < |e| ==> e[j] == if j == k then 1.0 else 0.0
    ensures Dot(e, d) == d[k]
  {
    if k == 0 {
      DotWithZero(e[1..], d[1..]);
    } else {
      DotWithUnit(e[1..], d[1..], k - 1);
    }
  }

  /** The identity matrix maps every vector to itself. */
  lemma ApplyIdentity(d: Vector)
    ensures Apply(Identity(|d|), d) == d
  {
    var n := |d|;
    var w := Apply(Identity(n), d);
    forall k | 0 <= k < n
      ensures w[k] == d[k]
    {
      DotWithUnit(Identity(n)[k], d, k);
    }
  }

  /** The zero matrix maps every vector to the zero vector. */
  lemma ApplyZeroMatrix(d: Vector)
    ensures Apply(ZeroMatrix(|d|), d) == Zero(|d|)
  {
    var n := |d|;
    var w := Apply(ZeroMatrix(n), d);
    forall k | 0 <= k < n
      ensures w[k] == 0.0
    {
      DotWithZero(ZeroMatrix(n)[k], d);
    }
  }
}
