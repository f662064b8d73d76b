/** The harmonic-oscillator pseudo-potentials f(p) = |p|^2 on points of any
    dimension, given as coordinate sequences. */
module FunctionLibrary {
  import opened Vectors

  /** The potential is quadratic: scaling the point by a scales it by a^2;
      with a = -1 this says it is even. */
  lemma {:induction false} SquareNormScales(a: real, p: seq<real>)
    ensures SumOfSquares(ScaleVector(a, p)) == a * a * SumOfSquares(p)
  {
    if |p| > 0 {
      var q := ScaleVector(a, p);
      assert |q[1..]| == |p[1..]|;
      assert forall i :: 0 <= i < |p| - 1 ==> q[1..][i] == a * p[1..][i];
      assert q[1..] == ScaleVector(a, p[1..]);
      SquareNormScales(a, p[1..]);
      calc {
        SumOfSquares(q);
        q[0] * q[0] + SumOfSquares(ScaleVector(a, p[1..]));
        (a * p[0]) * (a * p[0]) + a * a * SumOfSquares(p[1..]);
        { assert (a * p[0]) * (a * p[0]) == a * a * (p[0] * p[0]); }
        a * a * (p[0] * p[0]) + a * a * SumOfSquares(p[1..]);
        a * a * SumOfSquares(p);
      }
    }
  }

  /** The squared norm weighted per axis by k_i^2. */
  function WeightedSquareNorm(k: seq<real>, p: seq<real>): (r: real)
    requires |k| == |p|
    ensures r >= 0.0
  {
    if |p| == 0 then 0.0 else k[0] * k[0] * (p[0] * p[0]) + WeightedSquareNorm(k[1..], p[1..])
  }

  /** With unit spring constants the weighted norm is the plain one. */
  lemma {:induction false} UnitSpringsGiveSquareNorm(p: seq<real>)
    ensures WeightedSquareNorm(Ones(|p|), p) == SumOfSquares(p)
  {
    if |p| > 0 {
      assert Ones(|p|)[1..] == Ones(|p| - 1);
      UnitSpringsGiveSquareNorm(p[1..]);
    }
  }

  /** The isotropic oscillator |p|^2: non-negative, zero at the origin, and
      even. */
  function IsotropicValue(p: seq<real>): (r: real)
    ensures r >= 0.0
    ensures AllZero(p) ==> r == 0.0
    ensures SumOfSquares(ScaleVector(-1.0, p)) == r
  {
    SquareNormScales(-1.0, p);
    if AllZero(p) then ZeroSumOfSquares(p); SumOfSquares(p) else SumOfSquares(p)
  }

  /** The anisotropic oscillator k_i^2 x_i^2, with every spring constant one:
      the class has no spring constants, so it returns |p|^2. */
  function AnisotropicValue(p: seq<real>): (r: real)
    ensures r == WeightedSquareNorm(Ones(|p|), p)
  {
    UnitSpringsGiveSquareNorm(p);
    SumOfSquares(p)
  }

  /** The two oscillators agree at every point. */
  lemma AnisotropicIsIsotropic(p: seq<real>)
    ensures AnisotropicValue(p) == IsotropicValue(p)
  {
  }

  /** The isotropic oscillator at every point of a list. */
  method IsotropicValueList(points: seq<seq<real>>, values: array<real>)
    requires values.Length == |points|
    modifies values
    ensures forall i :: 0 <= i < |points| ==> values[i] == IsotropicValue(points[i])
  {
    var i := 0;
    while i < |points|
      invariant 0 <= i <= |points|
      invariant forall k :: 0 <= k < i ==> values[k] == IsotropicValue(points[k])
    {
      values[i] := SumOfSquares(points[i]);
      i := i + 1;
    }
  }

  /** The anisotropic oscillator at every point of a list. */
  method AnisotropicValueList(points: seq<seq<real>>, values: array<real>)
    requires values.Length == |points|
    modifies values
    ensures forall i :: 0 <= i < |points| ==> values[i] == AnisotropicValue(points[i])
  {
    var i := 0;
    while i < |points|
      invariant 0 <= i <= |points|
      invariant forall k :: 0 <= k < i ==> values[k] == AnisotropicValue(points[k])
    {
      values[i] := AnisotropicValue(points[i]);
      i := i + 1;
    }
  }
}
