/** Dense vectors of reals, shared by the models: the constant vectors, the
    entrywise sum, scaling, and the sum of squares that the oscillator
    potential and the l2 norm of a right-hand side both compute. */
module Vectors {

  /** The zero vector of length n. */
  function ZeroVector(n: nat): (z: seq<real>)
    ensures |z| == n && forall i :: 0 <= i < n ==> z[i] == 0.0
  {
    seq(n, _ => 0.0)
  }

  /** The vector of n ones. */
  function Ones(n: nat): (r: seq<real>)
    ensures |r| == n && forall i :: 0 <= i < n ==> r[i] == 1.0
  {
    seq(n, _ => 1.0)
  }

  /** The entrywise sum of two vectors of the same length. */
  function Add(u: seq<real>, v: seq<real>): (r: seq<real>)
    requires |u| == |v|
    ensures |r| == |u| && forall i :: 0 <= i < |u| ==> r[i] == u[i] + v[i]
  {
    seq(|u|, i requires 0 <= i < |u| => u[i] + v[i])
  }

  /** The vector v scaled by a. */
  function ScaleVector(a: real, v: seq<real>): (r: seq<real>)
    ensures |r| == |v| && forall i :: 0 <= i < |v| ==> r[i] == a * v[i]
  {
    seq(|v|, i requires 0 <= i < |v| => a * v[i])
  }

  /** Every entry of v is zero. */
  predicate AllZero(v: seq<real>)
  {
    forall i :: 0 <= i < |v| ==> v[i] == 0.0
  }

  /** The sum of the squares of the entries, |v|^2. */
  function SumOfSquares(v: seq<real>): (r: real)
    ensures r >= 0.0
  {
    if |v| == 0 then 0.0 else v[0] * v[0] + SumOfSquares(v[1..])
  }

  /** A zero vector has zero squared norm. */
  lemma {:induction false} ZeroSumOfSquares(v: seq<real>)
    requires AllZero(v)
    ensures SumOfSquares(v) == 0.0
  {
    if |v| > 0 {
      assert AllZero(v[1..]);
      ZeroSumOfSquares(v[1..]);
    }
  }
}
