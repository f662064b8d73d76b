/** What the self-consistent Schroedinger-Poisson drivers share: the
    kinetic prefactor of an effective mass, the state carried from cycle to
    cycle, the largest pointwise update, the adaptive damping factor, the
    damped pointwise update of the potential, and the shapes the two solves
    promise. */
module Scf {
  import opened Constants

  function Abs(x: real): (r: real)
    ensures r >= 0.0 && (r == x || r == -x)
  {
    if x < 0.0 then -x else x
  }

  /** The update the Poisson solution asks for at every node: the solution
      minus the potential measured from the baseline. */
  function Updates(solution: seq<real>, potential: seq<real>, baseline: seq<real>): (u: seq<real>)
    requires |potential| == |solution| && |baseline| == |solution|
    ensures |u| == |solution|
  {
    seq(|solution|, i requires 0 <= i < |solution| => solution[i] - (potential[i] - baseline[i]))
  }

  /** std::max folded over |u[i]| for the first k entries, from 0. */
  function MaxAbs(u: seq<real>, k: nat): (m: real)
    requires k <= |u|
    ensures m >= 0.0 && forall i :: 0 <= i < k ==> Abs(u[i]) <= m
  {
    if k == 0 then 0.0
    else
      var m := MaxAbs(u, k - 1);
      if m < Abs(u[k - 1]) then Abs(u[k - 1]) else m
  }

  /** The fold is the maximum: it bounds every |u[i]|, and it is zero or
      one of them. */
  lemma {:induction false} MaxAbsIsMaximum(u: seq<real>, k: nat)
    requires k <= |u|
    ensures MaxAbs(u, k) >= 0.0
    ensures forall i :: 0 <= i < k ==> Abs(u[i]) <= MaxAbs(u, k)
    ensures MaxAbs(u, k) == 0.0 || exists i :: 0 <= i < k && MaxAbs(u, k) == Abs(u[i])
  {
    if k > 0 {
      MaxAbsIsMaximum(u, k - 1);
    }
  }

  /** The max_update loop. */
  method ComputeMaxUpdate(solution: seq<real>, potential: seq<real>, baseline: seq<real>) returns (maxUpdate: real)
    requires |potential| == |solution| && |baseline| == |solution|
    ensures maxUpdate == MaxAbs(Updates(solution, potential, baseline), |solution|)
  {
    maxUpdate := 0.0;
    var i := 0;
    while i < |solution|
      invariant 0 <= i <= |solution|
      invariant maxUpdate == MaxAbs(Updates(solution, potential, baseline), i)
    {
      var oldValue := potential[i] - baseline[i];
      var d := Abs(solution[i] - oldValue);
      if maxUpdate < d {
        maxUpdate := d;
      }
      i := i + 1;
    }
  }

  /** The adaptive damping factor: the cutoff over the largest update when
      that is above the cutoff, 1 otherwise. It lies in (0, 1], scales a
      non-negative largest update down to at most the cutoff, and a largest
      update above the cutoff exactly onto it. */
  function AdaptiveAlpha(maxUpdate: real, cutoff: real): (alpha: real)
    requires cutoff > 0.0
    ensures 0.0 < alpha <= 1.0
    ensures maxUpdate >= 0.0 ==> alpha * maxUpdate <= cutoff
    ensures maxUpdate > cutoff ==> alpha * maxUpdate == cutoff
  {
    if maxUpdate > cutoff then
      var a := cutoff / maxUpdate;
      assert a * maxUpdate == cutoff;
      if a > 1.0 then
        PositiveProduct(a - 1.0, maxUpdate);
        a
      else a
    else 1.0
  }

  lemma PositiveProduct(x: real, y: real)
    requires x > 0.0 && y > 0.0
    ensures x * y > 0.0
  {
  }

  /** The damped update: every node moves by alpha times its update. */
  function Relaxed(potential: seq<real>, solution: seq<real>, baseline: seq<real>, alpha: real): (r: seq<real>)
    requires |solution| == |potential| && |baseline| == |potential|
    ensures |r| == |potential|
  {
    seq(|potential|, i requires 0 <= i < |potential| =>
      potential[i] + alpha * (solution[i] - (potential[i] - baseline[i])))
  }

  /** The update loop, in place on the potential. */
  method Relax(potential: array<real>, solution: seq<real>, baseline: seq<real>, alpha: real)
    requires |solution| == potential.Length && |baseline| == potential.Length
    modifies potential
    ensures potential[..] == Relaxed(old(potential[..]), solution, baseline, alpha)
  {
    var i := 0;
    while i < potential.Length
      invariant 0 <= i <= potential.Length
      invariant forall k :: 0 <= k < i ==>
        potential[k] == old(potential[k]) + alpha * (solution[k] - (old(potential[k]) - baseline[k]))
      invariant forall k :: i <= k < potential.Length ==> potential[k] == old(potential[k])
    {
      var oldValue := potential[i] - baseline[i];
      var update := solution[i] - oldValue;
      potential[i] := potential[i] + alpha * update;
      i := i + 1;
    }
    assert forall k :: 0 <= k < potential.Length ==>
      potential[..][k] == Relaxed(old(potential[..]), solution, baseline, alpha)[k];
  }

  /** The damped update is the convex combination of the old potential and
      the potential the Poisson solution asks for, node by node; a node
      whose potential already agrees with the solution does not move. */
  lemma RelaxedIsInterpolation(potential: seq<real>, solution: seq<real>, baseline: seq<real>, alpha: real)
    requires |solution| == |potential| && |baseline| == |potential|
    ensures forall i :: 0 <= i < |potential| ==>
      Relaxed(potential, solution, baseline, alpha)[i] == (1.0 - alpha) * potential[i] + alpha * (solution[i] + baseline[i])
    ensures forall i :: 0 <= i < |potential| && potential[i] == solution[i] + baseline[i] ==>
      Relaxed(potential, solution, baseline, alpha)[i] == potential[i]
  {
  }

  /** Each node moves by exactly alpha times its update, the quantity
      max_update bounds when both loops use the same baseline. */
  lemma RelaxedMovesByUpdate(potential: seq<real>, solution: seq<real>, baseline: seq<real>, alpha: real, i: nat)
    requires |solution| == |potential| && |baseline| == |potential| && i < |potential|
    ensures Relaxed(potential, solution, baseline, alpha)[i] - potential[i]
         == alpha * Updates(solution, potential, baseline)[i]
  {
  }

  /** The kinetic prefactor hbar^2 / (2 m M0) of the effective masses. */
  function Kinetic(mass: seq<real>): (k: seq<real>)
    requires forall i :: 0 <= i < |mass| ==> mass[i] > 0.0
    ensures |k| == |mass|
  {
    seq(|mass|, i requires 0 <= i < |mass| => (HBAR * HBAR) / (2.0 * mass[i] * M0))
  }

  /** A positive mass gives a positive kinetic prefactor; a heavier one a smaller prefactor. */
  lemma KineticPositiveAndDecreasing(mass: seq<real>)
    requires forall i :: 0 <= i < |mass| ==> mass[i] > 0.0
    ensures forall i :: 0 <= i < |mass| ==> Kinetic(mass)[i] > 0.0
    ensures forall i, j :: 0 <= i < |mass| && 0 <= j < |mass| && mass[i] <= mass[j] ==>
      Kinetic(mass)[j] <= Kinetic(mass)[i]
  {
    var h := HBAR * HBAR;
    forall i | 0 <= i < |mass|
      ensures Kinetic(mass)[i] > 0.0
    {
      QuotientPositive(h, 2.0 * mass[i] * M0);
    }
    forall i, j | 0 <= i < |mass| && 0 <= j < |mass| && mass[i] <= mass[j]
      ensures Kinetic(mass)[j] <= Kinetic(mass)[i]
    {
      QuotientDecreasing(h, 2.0 * mass[i] * M0, 2.0 * mass[j] * M0);
    }
  }

  lemma QuotientPositive(a: real, b: real)
    requires a > 0.0 && b > 0.0
    ensures a / b > 0.0
  {
  }

  lemma QuotientDecreasing(a: real, b: real, c: real)
    requires a > 0.0 && 0.0 < b <= c
    ensures a / c <= a / b
  {
  }

  /** The loop that sets the kinetic prefactor from the effective mass. */
  method ComputeKinetic(mass: seq<real>) returns (kinetic: seq<real>)
    requires forall i :: 0 <= i < |mass| ==> mass[i] > 0.0
    ensures kinetic == Kinetic(mass)
  {
    var out := new real[|mass|];
    var i := 0;
    while i < |mass|
      invariant 0 <= i <= |mass|
      invariant forall k :: 0 <= k < i ==> out[k] == (HBAR * HBAR) / (2.0 * mass[k] * M0)
    {
      out[i] := (HBAR * HBAR) / (2.0 * mass[i] * M0);
      i := i + 1;
    }
    kinetic := out[..];
    assert forall k :: 0 <= k < |mass| ==> kinetic[k] == Kinetic(mass)[k];
  }

  /** The state carried from cycle to cycle: the potential and the last
      Poisson solution (empty before the first solve). */
  datatype State = State(potential: seq<real>, solution: seq<real>)

  /** The state has n nodes; the solution is empty or has n entries. */
  predicate StateFits(st: State, n: nat)
  {
    |st.potential| == n && (|st.solution| == 0 || |st.solution| == n)
  }

  /** The eigenpairs Schroedinger's problem hands back. */
  datatype Eigenpairs = Eigenpairs(values: seq<real>, vectors: seq<seq<real>>)

  /** count eigenvalues and count eigenvectors of n entries each. */
  predicate EigenpairsFit(p: Eigenpairs, count: nat, n: nat)
  {
    |p.values| == count && |p.vectors| == count && forall k :: 0 <= k < count ==> |p.vectors[k]| == n
  }

  /** The Schroedinger solve, whatever its inputs, returns count eigenpairs
      on the n nodes. */
  ghost predicate EigensolverFits(schroedinger: (seq<real>, seq<real>) -> Eigenpairs, count: nat, n: nat)
  {
    forall ke, pe :: EigenpairsFit(schroedinger(ke, pe), count, n)
  }

  /** The Poisson solve, whatever its right-hand side, returns a solution
      on the n nodes. */
  ghost predicate LinearSolverFits(poisson: seq<real> -> seq<real>, n: nat)
  {
    forall rho :: |poisson(rho)| == n
  }
}
