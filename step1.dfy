/** The first self-consistent driver: a GaAs quantum well whose material
    profile is a symmetric Fick profile, solved by alternating Schroedinger's
    problem for the electrons and Poisson's problem for the potential over
    a fixed 100 cycles with a constant damping factor. The two solves are
    parameters: each turns its inputs into the nodal vectors it returns. */
module Step1 {
  import opened Constants
  import opened Statistics
  import opened Vectors
  import opened Scf
  import Fick

  const RADIUS: real := 0.000000005
  const BAND_EDGE: real := 0.5 * E0
  /** The Fermi energy sits 5% below the band edge. */
  const FERMI_ENERGY: real := BAND_EDGE * 0.95
  const DOPING: real := 10000000000000000000000000.0
  const EIGENPAIRS: nat := 10
  const CYCLES: nat := 100
  const CUTOFF: real := 0.02 * E0
  /** The damping factor the update uses, whatever the adaptive one is. */
  const ALPHA: real := 0.1
  /** The Fick parameters of the material profile. */
  const PROFILE_LENGTH: real := 0.5 * RADIUS
  const PROFILE_HEIGHT: real := 1.0
  const PROFILE_RATE: real := 0.0000000001
  /** rho is scaled by 4 pi e^2 / permittivity. */
  const CHARGE_SCALE: real := 4.0 * PI * E0 * E0 / PERMITTIVITY_GAAS

  /** The material function: the symmetric Fick profile at every support point. */
  function Material(points: seq<real>, erf: real -> real): (m: seq<real>)
    ensures |m| == |points|
  {
    seq(|points|, i requires 0 <= i < |points| =>
      Fick.Profile(true, PROFILE_LENGTH, PROFILE_HEIGHT, PROFILE_RATE, points[i], erf))
  }

  /** The material function lies in [0, 1] and is even about the centre of the well. */
  lemma MaterialInUnitInterval(points: seq<real>, erf: real -> real, x: real)
    requires Fick.IsErf(erf)
    ensures forall i :: 0 <= i < |points| ==> 0.0 <= Material(points, erf)[i] <= 1.0
    ensures Fick.Profile(true, PROFILE_LENGTH, PROFILE_HEIGHT, PROFILE_RATE, -x, erf)
         == Fick.Profile(true, PROFILE_LENGTH, PROFILE_HEIGHT, PROFILE_RATE, x, erf)
  {
    Fick.SymmetricProfileIsEven(PROFILE_LENGTH, PROFILE_HEIGHT, PROFILE_RATE, x, erf);
  }

  /** The initial potential: the band edge lowered in proportion to the material. */
  function InitialPotential(material: seq<real>): (p: seq<real>)
    ensures |p| == |material|
  {
    seq(|material|, i requires 0 <= i < |material| => -material[i] * BAND_EDGE + BAND_EDGE)
  }

  /** Where the material is fully present the potential is 0, where it is
      absent it is the band edge, and in between it stays in [0, band edge]. */
  lemma InitialPotentialRange(material: seq<real>)
    ensures forall i :: 0 <= i < |material| && 0.0 <= material[i] <= 1.0 ==>
      0.0 <= InitialPotential(material)[i] <= BAND_EDGE
    ensures forall i :: 0 <= i < |material| && material[i] == 1.0 ==> InitialPotential(material)[i] == 0.0
    ensures forall i :: 0 <= i < |material| && material[i] == 0.0 ==> InitialPotential(material)[i] == BAND_EDGE
  {
  }

  /** The constant GaAs effective mass at n nodes. */
  function EffectiveMasses(n: nat): (m: seq<real>)
    ensures |m| == n && forall i :: 0 <= i < n ==> m[i] == MSTAR_GAAS
  {
    seq(n, _ => MSTAR_GAAS)
  }

  /** rho: the density, with -doping wherever the potential lies above the
      Fermi energy among the first doped nodes, scaled by 4 pi e^2 / permittivity. */
  function Charge(density: seq<real>, potential: seq<real>, doped: nat): (rho: seq<real>)
    requires |potential| == |density| && doped <= |density|
    ensures |rho| == |density|
  {
    seq(|density|, i requires 0 <= i < |density| =>
      (if i < doped && potential[i] > FERMI_ENERGY then -DOPING else density[i]) * CHARGE_SCALE)
  }

  /** The charge is negative on the doped nodes above the Fermi energy,
      and elsewhere it is the scaled density, non-negative when the
      density is. */
  lemma ChargeSigns(density: seq<real>, potential: seq<real>, doped: nat)
    requires |potential| == |density| && doped <= |density|
    ensures CHARGE_SCALE > 0.0
    ensures forall i :: 0 <= i < doped && potential[i] > FERMI_ENERGY ==> Charge(density, potential, doped)[i] < 0.0
    ensures forall i :: 0 <= i < |density| && !(i < doped && potential[i] > FERMI_ENERGY) ==>
      Charge(density, potential, doped)[i] == density[i] * CHARGE_SCALE
    ensures forall i :: 0 <= i < |density| && !(i < doped && potential[i] > FERMI_ENERGY) && density[i] >= 0.0 ==>
      Charge(density, potential, doped)[i] >= 0.0
  {
    assert CHARGE_SCALE > 0.0;
    forall i | 0 <= i < |density| && !(i < doped && potential[i] > FERMI_ENERGY) && density[i] >= 0.0
      ensures Charge(density, potential, doped)[i] >= 0.0
    {
      NonNegativeScale(density[i], CHARGE_SCALE);
    }
  }

  lemma NonNegativeScale(x: real, s: real)
    requires x >= 0.0 && s > 0.0
    ensures x * s >= 0.0
  {
  }

  /** Before the first Poisson solve there is no solution yet, so no node
      is doped: the charge is the scaled electron density alone. */
  lemma FirstCycleHasNoDoping(density: seq<real>, potential: seq<real>)
    requires |potential| == |density|
    ensures forall i :: 0 <= i < |density| ==> Charge(density, potential, 0)[i] == density[i] * CHARGE_SCALE
  {
  }

  /** The state before the first cycle: 0.9 times the initial potential,
      and no solution. */
  function Start(initial: seq<real>): (st: State)
    ensures StateFits(st, |initial|)
  {
    State(seq(|initial|, i requires 0 <= i < |initial| => 0.9 * initial[i]), [])
  }

  /** 0.9 times the initial potential, the baseline of the update. */
  function Baseline(initial: seq<real>): (b: seq<real>)
    ensures |b| == |initial|
  {
    seq(|initial|, i requires 0 <= i < |initial| => 0.9 * initial[i])
  }

  /** One cycle: the eigenpairs for the kinetic prefactor and the current
      potential, their number density, the charge, the Poisson solution,
      and the update of the potential by ALPHA. */
  function Cycle(st: State, kinetic: seq<real>, initial: seq<real>, dos: seq<real>, softplus: real -> real,
                 schroedinger: (seq<real>, seq<real>) -> Eigenpairs, poisson: seq<real> -> seq<real>): (next: State)
    requires StateFits(st, |initial|) && |dos| == |initial|
    requires EigenpairsFit(schroedinger(kinetic, st.potential), EIGENPAIRS, |initial|)
    requires |poisson(Charge(TotalNumberDensity(schroedinger(kinetic, st.potential).vectors,
                                                schroedinger(kinetic, st.potential).values,
                                                FERMI_ENERGY, dos, softplus),
                             st.potential, |st.solution|))| == |initial|
    ensures StateFits(next, |initial|) && |next.solution| == |initial|
  {
    var pairs := schroedinger(kinetic, st.potential);
    var density := TotalNumberDensity(pairs.vectors, pairs.values, FERMI_ENERGY, dos, softplus);
    var rho := Charge(density, st.potential, |st.solution|);
    var solution := poisson(rho);
    State(Relaxed(st.potential, solution, Baseline(initial), ALPHA), solution)
  }

  /** The state after k cycles. */
  ghost function Iterate(k: nat, kinetic: seq<real>, initial: seq<real>, dos: seq<real>, softplus: real -> real,
                         schroedinger: (seq<real>, seq<real>) -> Eigenpairs, poisson: seq<real> -> seq<real>): (st: State)
    requires |dos| == |initial|
    requires EigensolverFits(schroedinger, EIGENPAIRS, |initial|) && LinearSolverFits(poisson, |initial|)
    ensures StateFits(st, |initial|)
    ensures k > 0 ==> |st.solution| == |initial|
  {
    if k == 0 then Start(initial)
    else
      var st := Iterate(k - 1, kinetic, initial, dos, softplus, schroedinger, poisson);
      Cycle(st, kinetic, initial, dos, softplus, schroedinger, poisson)
  }

  /** The loop that builds the initial potential from the material. */
  method ComputeInitialPotential(material: seq<real>) returns (p: seq<real>)
    ensures p == InitialPotential(material)
  {
    var out := new real[|material|];
    var i := 0;
    while i < |material|
      invariant 0 <= i <= |material|
      invariant forall k :: 0 <= k < i ==> out[k] == -material[k] * BAND_EDGE + BAND_EDGE
    {
      out[i] := -material[i] * BAND_EDGE + BAND_EDGE;
      i := i + 1;
    }
    p := out[..];
    assert forall k :: 0 <= k < |material| ==> p[k] == InitialPotential(material)[k];
  }

  /** The loop that sets the effective mass. */
  method ComputeEffectiveMasses(n: nat) returns (mass: seq<real>)
    ensures mass == EffectiveMasses(n)
  {
    var m := new real[n];
    var i := 0;
    while i < n
      invariant 0 <= i <= n
      invariant forall k :: 0 <= k < i ==> m[k] == MSTAR_GAAS
    {
      m[i] := MSTAR_GAAS;
      i := i + 1;
    }
    mass := m[..];
  }

  /** rho: a copy of the density, -doping on the nodes below `doped` whose
      potential lies above the Fermi energy, then scaled. */
  method ComputeCharge(density: seq<real>, potential: seq<real>, doped: nat) returns (rho: seq<real>)
    requires |potential| == |density| && doped <= |density|
    ensures rho == Charge(density, potential, doped)
  {
    var r := new real[|density|];
    var i := 0;
    while i < |density|
      invariant 0 <= i <= |density|
      invariant forall k :: 0 <= k < i ==> r[k] == density[k]
    {
      r[i] := density[i];
      i := i + 1;
    }
    i := 0;
    while i < doped
      invariant 0 <= i <= doped
      invariant forall k :: 0 <= k < |density| ==>
        r[k] == if k < i && potential[k] > FERMI_ENERGY then -DOPING else density[k]
    {
      if potential[i] > FERMI_ENERGY {
        r[i] := -DOPING;
      }
      i := i + 1;
    }
    ghost var doping := r[..];
    i := 0;
    while i < |density|
      invariant 0 <= i <= |density|
      invariant forall k :: 0 <= k < i ==> r[k] == doping[k] * CHARGE_SCALE
      invariant forall k :: i <= k < |density| ==> r[k] == doping[k]
    {
      r[i] := r[i] * CHARGE_SCALE;
      i := i + 1;
    }
    rho := r[..];
    assert forall k :: 0 <= k < |density| ==> rho[k] == Charge(density, potential, doped)[k];
  }

  /** The material profile on the support points: a Fick solution with the
      well's length, unit height and rate, interpolated. */
  method InterpolateMaterial(points: seq<real>, erf: real -> real) returns (material: seq<real>)
    ensures material == Material(points, erf)
  {
    var fick := new Fick.Solution(points);
    fick.Reinit();
    fick.SetInitialLength(PROFILE_LENGTH);
    fick.SetInitialHeight(PROFILE_HEIGHT);
    fick.SetInitialRate(PROFILE_RATE);
    material := fick.InterpolateAnalyticSolution(erf);
  }

  /** The potential before the first cycle, 0.9 times the initial one, in
      a new array. */
  method StartPotential(initial: seq<real>) returns (potential: array<real>)
    ensures fresh(potential) && potential[..] == Start(initial).potential
  {
    potential := new real[|initial|];
    var i := 0;
    while i < |initial|
      invariant 0 <= i <= |initial|
      invariant forall k :: 0 <= k < i ==> potential[k] == 0.9 * initial[k]
    {
      potential[i] := 0.9 * initial[i];
      i := i + 1;
    }
    assert potential[..] == Start(initial).potential;
  }

  /** One cycle of run, updating the potential in place: returns the
      eigenpairs and the new Poisson solution; the old solution decides
      how many nodes are doped. */
  method RunCycle(potential: array<real>, solution: seq<real>, kinetic: seq<real>, initial: seq<real>,
                  mass: seq<real>, softplus: real -> real,
                  schroedinger: (seq<real>, seq<real>) -> Eigenpairs, poisson: seq<real> -> seq<real>)
    returns (pairs: Eigenpairs, newSolution: seq<real>)
    requires potential.Length == |initial| && |mass| == |initial|
    requires StateFits(State(potential[..], solution), |initial|)
    requires EigensolverFits(schroedinger, EIGENPAIRS, |initial|) && LinearSolverFits(poisson, |initial|)
    modifies potential
    ensures pairs == schroedinger(kinetic, old(potential[..]))
    ensures State(potential[..], newSolution)
         == Cycle(State(old(potential[..]), solution), kinetic, initial, DensityOfStates(mass), softplus, schroedinger, poisson)
  {
    pairs := schroedinger(kinetic, potential[..]);
    var dos := ComputeDensityOfStates(mass);
    assert EigenpairsFit(pairs, EIGENPAIRS, |initial|);
    var density := ComputeNumberDensitySum(pairs.vectors, pairs.values, FERMI_ENERGY, dos, softplus);
    var rho := ComputeCharge(density, potential[..], |solution|);
    newSolution := poisson(rho);
    var maxUpdate := ComputeMaxUpdate(newSolution, potential[..], initial);
    var alpha := AdaptiveAlpha(maxUpdate, CUTOFF);
    alpha := ALPHA;
    Relax(potential, newSolution, Baseline(initial), alpha);
  }

  /** The cycle loop of run: CYCLES cycles on the potential, starting with
      no solution; returns the eigenpairs and the solution of the last cycle. */
  method RunCycles(potential: array<real>, kinetic: seq<real>, initial: seq<real>, mass: seq<real>,
                   softplus: real -> real,
                   schroedinger: (seq<real>, seq<real>) -> Eigenpairs, poisson: seq<real> -> seq<real>)
    returns (pairs: Eigenpairs, solution: seq<real>)
    requires potential.Length == |initial| && |mass| == |initial| && potential[..] == Start(initial).potential
    requires EigensolverFits(schroedinger, EIGENPAIRS, |initial|) && LinearSolverFits(poisson, |initial|)
    modifies potential
    ensures State(potential[..], solution)
         == Iterate(CYCLES, kinetic, initial, DensityOfStates(mass), softplus, schroedinger, poisson)
    ensures pairs == schroedinger(kinetic,
                       Iterate(CYCLES - 1, kinetic, initial, DensityOfStates(mass), softplus, schroedinger, poisson).potential)
  {
    pairs := Eigenpairs([], []);
    solution := [];
    var cycle := 0;
    while cycle < CYCLES
      invariant 0 <= cycle <= CYCLES
      invariant State(potential[..], solution)
             == Iterate(cycle, kinetic, initial, DensityOfStates(mass), softplus, schroedinger, poisson)
      invariant cycle > 0 ==> pairs == schroedinger(kinetic,
                  Iterate(cycle - 1, kinetic, initial, DensityOfStates(mass), softplus, schroedinger, poisson).potential)
    {
      ghost var before := potential[..];
      pairs, solution := RunCycle(potential, solution, kinetic, initial, mass, softplus, schroedinger, poisson);
      assert pairs == schroedinger(kinetic, before);
      cycle := cycle + 1;
    }
  }

  /** SelfConsistentProblem: the test space (its support points), the
      eigenpairs of the last Schroedinger solve and the last Poisson solution. */
  class SelfConsistentProblem {
    const points: seq<real>
    var eigenvalues: seq<real>
    var eigenvectors: seq<seq<real>>
    var solution: seq<real>

    constructor (supportPoints: seq<real>)
      ensures points == supportPoints && solution == [] && eigenvalues == [] && eigenvectors == []
    {
      points := supportPoints;
      eigenvalues := [];
      eigenvectors := [];
      solution := [];
    }

    /** run: sets up the material, the initial potential and the kinetic
        prefactor, then performs 100 cycles; returns the final potential,
        which is the potential of the specification after 100 cycles, and
        leaves the solution of the last cycle and the eigenpairs of the
        last Schroedinger solve, the one on the potential after 99 cycles. */
    method Run(erf: real -> real, softplus: real -> real,
               schroedinger: (seq<real>, seq<real>) -> Eigenpairs, poisson: seq<real> -> seq<real>)
      returns (finalPotential: seq<real>)
      requires solution == []
      requires EigensolverFits(schroedinger, EIGENPAIRS, |points|) && LinearSolverFits(poisson, |points|)
      modifies this
      ensures var initial := InitialPotential(Material(points, erf));
        var st := Iterate(CYCLES, Kinetic(EffectiveMasses(|points|)), initial,
                          DensityOfStates(EffectiveMasses(|points|)), softplus, schroedinger, poisson);
        finalPotential == st.potential && solution == st.solution
      ensures var initial := InitialPotential(Material(points, erf));
        var kinetic := Kinetic(EffectiveMasses(|points|));
        var pairs := schroedinger(kinetic, Iterate(CYCLES - 1, kinetic, initial,
                                  DensityOfStates(EffectiveMasses(|points|)), softplus, schroedinger, poisson).potential);
        eigenvalues == pairs.values && eigenvectors == pairs.vectors
    {
      var n := |points|;
      var material := InterpolateMaterial(points, erf);
      var initial := ComputeInitialPotential(material);
      var mass := ComputeEffectiveMasses(n);
      var kinetic := ComputeKinetic(mass);

      var potential := StartPotential(initial);
      var pairs, last := RunCycles(potential, kinetic, initial, mass, softplus, schroedinger, poisson);
      eigenvalues := pairs.values;
      eigenvectors := pairs.vectors;
      solution := last;
      finalPotential := potential[..];
    }
  }
}
