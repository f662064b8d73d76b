/** The analytic solution of Fick's diffusion law in one dimension, used to
    build smooth material profiles. The initial condition is either the
    rectangle of height h on [-L, L] (the symmetric profile) or a single
    step of height h at x = L; after diffusion with rate r the profile is
      symmetric:  h/2 (erf((L - x)/r) + erf((L + x)/r))
      step:       h/2 (1 + erf((x - L)/r)).
    The error function is a parameter `erf`. */
module Fick {
  import opened Wrappers

  /** The properties of the error function the lemmas rely on: odd,
      non-decreasing and bounded by one in magnitude. */
  ghost predicate IsErf(erf: real -> real)
  {
    (forall x :: erf(-x) == -erf(x))
    && (forall x, y :: x <= y ==> erf(x) <= erf(y))
    && (forall x :: -1.0 <= erf(x) <= 1.0)
  }

  /** The diffused profile at x. With the error function, a positive rate
      and height, and (for the symmetric profile) a positive half-length,
      it lies between zero and the height. */
  function Profile(symmetric: bool, length: real, height: real, rate: real, x: real, erf: real -> real): (v: real)
    requires rate != 0.0
    ensures IsErf(erf) && rate > 0.0 && height > 0.0 && (symmetric ==> length > 0.0) ==> 0.0 <= v <= height
  {
    var sum := if symmetric then erf((length - x) / rate) + erf((length + x) / rate)
               else 1.0 + erf((x - length) / rate);
    ErfSumBounds(symmetric, length, rate, x, erf);
    HalfOf(height, sum)
  }

  /** The bracket of the profile lies in [0, 2]: for the step it is 1 + erf,
      and for the symmetric profile the two arguments add up to 2L/r > 0, so
      the odd, non-decreasing erf cannot make the sum negative. */
  lemma ErfSumBounds(symmetric: bool, length: real, rate: real, x: real, erf: real -> real)
    requires rate != 0.0
    ensures IsErf(erf) && rate > 0.0 && (symmetric ==> length > 0.0) ==>
      if symmetric then 0.0 <= erf((length - x) / rate) + erf((length + x) / rate) <= 2.0
      else 0.0 <= 1.0 + erf((x - length) / rate) <= 2.0
  {
    if IsErf(erf) && rate > 0.0 && symmetric && length > 0.0 {
      var a := (length - x) / rate;
      var b := (length + x) / rate;
      assert a + b == 2.0 * length / rate;
      assert -a <= b;
      assert erf(-a) <= erf(b);
      assert erf(-a) == -erf(a);
    }
  }

  /** h/2 times the bracket s: between zero and h when s is in [0, 2], and
      growing with s for a positive h. */
  function HalfOf(h: real, s: real): (v: real)
    ensures h > 0.0 && 0.0 <= s <= 2.0 ==> 0.0 <= v <= h
  {
    assert h * 0.5 * s == h * (0.5 * s);
    h * 0.5 * s
  }

  /** HalfOf grows with the bracket for a positive h. */
  lemma HalfOfMonotone(h: real, s1: real, s2: real)
    requires h > 0.0 && s1 <= s2
    ensures HalfOf(h, s1) <= HalfOf(h, s2)
  {
    var k := h * 0.5;
    assert HalfOf(h, s2) - HalfOf(h, s1) == k * (s2 - s1);
    ProductNonNegative(k, s2 - s1);
  }

  lemma ProductNonNegative(a: real, b: real)
    requires a >= 0.0 && b >= 0.0
    ensures a * b >= 0.0
  {
  }

  /** The symmetric profile is even in x, for any erf. */
  lemma SymmetricProfileIsEven(length: real, height: real, rate: real, x: real, erf: real -> real)
    requires rate != 0.0
    ensures Profile(true, length, height, rate, -x, erf) == Profile(true, length, height, rate, x, erf)
  {
    assert length - -x == length + x && length + -x == length - x;
  }

  /** At the centre of the well the symmetric profile is h erf(L/r). */
  lemma SymmetricProfileCentre(length: real, height: real, rate: real, erf: real -> real)
    requires rate != 0.0
    ensures Profile(true, length, height, rate, 0.0, erf) == height * erf(length / rate)
  {
    assert (length - 0.0) / rate == length / rate && (length + 0.0) / rate == length / rate;
  }

  /** The step profile takes half the height at x = L, and does not
      decrease along x. */
  lemma StepProfileShape(length: real, height: real, rate: real, x: real, y: real, erf: real -> real)
    requires IsErf(erf) && rate > 0.0 && height > 0.0 && x <= y
    ensures Profile(false, length, height, rate, length, erf) == height * 0.5
    ensures Profile(false, length, height, rate, x, erf) <= Profile(false, length, height, rate, y, erf)
  {
    StepProfileHalf(length, height, rate, erf);
    var a := (x - length) / rate;
    var b := (y - length) / rate;
    DivideMonotone(x - length, y - length, rate);
    assert erf(a) <= erf(b);
    HalfOfMonotone(height, 1.0 + erf(a), 1.0 + erf(b));
  }

  /** The step profile is half the height at the step, since erf(0) = 0. */
  lemma StepProfileHalf(length: real, height: real, rate: real, erf: real -> real)
    requires IsErf(erf) && rate != 0.0
    ensures Profile(false, length, height, rate, length, erf) == height * 0.5
  {
    assert (length - length) / rate == 0.0;
    assert erf(0.0) == -erf(-0.0);
    assert erf(0.0) == 0.0;
    assert Profile(false, length, height, rate, length, erf) == height * 0.5 * (1.0 + erf(0.0));
  }

  /** Dividing by a positive rate keeps the order. */
  lemma DivideMonotone(p: real, q: real, r: real)
    requires p <= q && r > 0.0
    ensures p / r <= q / r
  {
    assert q / r - p / r == (q - p) / r;
  }

  /** The analytic solution object: the parameters of the profile, the
      support points of the test space it is interpolated onto (absent for
      the default constructor), and an initialisation flag. */
  class Solution {
    const supportPoints: Option<seq<real>>
    var profileIsSymmetric: bool
    var init: bool
    var length: real
    var height: real
    var rate: real

    /** The default constructor: no space, symmetric profile, not
        initialised; the length, height and rate are left unset. */
    constructor Default()
      ensures supportPoints == None && profileIsSymmetric && !init
    {
      supportPoints := None;
      profileIsSymmetric := true;
      init := false;
    }

    /** The constructor on a test space, given by the support points of
        its degrees of freedom. */
    constructor (points: seq<real>)
      ensures supportPoints == Some(points) && profileIsSymmetric && !init
    {
      supportPoints := Some(points);
      profileIsSymmetric := true;
      init := false;
    }

    /** Marks the solution as initialised. */
    method Reinit()
      modifies this
      ensures init
      ensures profileIsSymmetric == old(profileIsSymmetric)
      ensures length == old(length) && height == old(height) && rate == old(rate)
    {
      init := true;
    }

    /** Sets the half-length L, which must not be zero. */
    method SetInitialLength(initialLength: real)
      requires initialLength != 0.0
      modifies this
      ensures length == initialLength
      ensures init == old(init) && profileIsSymmetric == old(profileIsSymmetric)
      ensures height == old(height) && rate == old(rate)
    {
      length := initialLength;
    }

    /** Sets the height h, which must lie in (0, 1]. */
    method SetInitialHeight(initialHeight: real)
      requires 0.0 < initialHeight <= 1.0
      modifies this
      ensures height == initialHeight
      ensures init == old(init) && profileIsSymmetric == old(profileIsSymmetric)
      ensures length == old(length) && rate == old(rate)
    {
      height := initialHeight;
    }

    /** Sets the diffusion rate r, which must be positive. */
    method SetInitialRate(initialRate: real)
      requires initialRate > 0.0
      modifies this
      ensures rate == initialRate
      ensures init == old(init) && profileIsSymmetric == old(profileIsSymmetric)
      ensures length == old(length) && height == old(height)
    {
      rate := initialRate;
    }

    /** Chooses between the symmetric profile and the single step. */
    method SetSymmetricProfile(b: bool)
      modifies this
      ensures profileIsSymmetric == b
      ensures init == old(init) && length == old(length) && height == old(height) && rate == old(rate)
    {
      profileIsSymmetric := b;
    }

    /** The profile of the current parameters at the point x. */
    function Value(x: real, erf: real -> real): (v: real)
      reads this
      requires rate != 0.0
      ensures IsErf(erf) && rate > 0.0 && 0.0 < height <= 1.0 && (profileIsSymmetric ==> length > 0.0) ==> 0.0 <= v <= 1.0
    {
      Profile(profileIsSymmetric, length, height, rate, x, erf)
    }

    /** Writes the profile at every point into a list of the same size. */
    method ValueList(points: seq<real>, values: array<real>, erf: real -> real)
      requires rate != 0.0 && |points| == values.Length
      modifies values
      ensures forall i :: 0 <= i < values.Length ==> values[i] == Value(points[i], erf)
    {
      var i := 0;
      while i < |points|
        invariant 0 <= i <= |points|
        invariant forall k :: 0 <= k < i ==> values[k] == Value(points[k], erf)
      {
        values[i] := Value(points[i], erf);
        i := i + 1;
      }
    }

    /** The nodal interpolant of the profile on the test space: one value per
        degree of freedom, the profile at its support point. */
    method InterpolateAnalyticSolution(erf: real -> real) returns (v: seq<real>)
      requires init && supportPoints.Some? && rate != 0.0
      ensures |v| == |supportPoints.value|
      ensures forall i :: 0 <= i < |v| ==> v[i] == Value(supportPoints.value[i], erf)
    {
      var points := supportPoints.value;
      var out := new real[|points|];
      ValueList(points, out, erf);
      v := out[..];
    }
  }
}
