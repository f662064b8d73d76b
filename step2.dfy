/** The second self-consistent driver: an AlGaAs heterostructure whose
    material profile mixes three Fick steps, with an effective mass that
    follows the aluminium content. Like the first driver it alternates
    Schroedinger's problem for the electrons and Poisson's problem for the
    potential over 100 cycles with a constant damping factor; the two solves
    are parameters. */
module Step2 {
  import opened Constants
  import opened Statistics
  import opened Vectors
  import opened Scf
  import Fick

  const ENERGY_HEIGHT: real := 0.5 * E0
  const DOPING: real := 10000000000000000000000000.0
  /** The Fermi energy sits a bonding energy of 5 meV below the energy height. */
  const BONDING_ENERGY: real := 0.005 * E0
  const FERMI_ENERGY: real := ENERGY_HEIGHT - BONDING_ENERGY
  const EIGENPAIRS: nat := 10
  const CYCLES: nat := 100
  const CUTOFF: real := 0.02 * E0
  /** The damping factor the update uses, whatever the adaptive one is. */
  const ALPHA: real := 0.2
  /** The Fick parameters of the three steps: a common height and rate,
      and the three step positions. */
  const PROFILE_HEIGHT: real := 1.0
  const PROFILE_RATE: real := 0.0000000002
  const LENGTH_1: real := 0.000000005
  const LENGTH_2: real := 0.00000001
  const LENGTH_3: real := 0.000000015
  /** rho is scaled by e^2 / permittivity. */
  const CHARGE_SCALE: real := E0 * E0 / PERMITTIVITY_GAAS

  /** One transition: the step profile at `length`, at every support point. */
  function Transition(points: seq<real>, length: real, erf: real -> real): (t: seq<real>)
    ensures |t| == |points|
  {
    seq(|points|, i requires 0 <= i < |points| =>
      Fick.Profile(false, length, PROFILE_HEIGHT, PROFILE_RATE, points[i], erf))
  }

  /** The material function of three transitions: GaAs left of the first,
      Al(0.20)Ga(0.80)As from the second and Al(0.35)Ga(0.65)As from the
      third, in units of the aluminium content 0.35. */
  function Mix(t1: seq<real>, t2: seq<real>, t3: seq<real>): (m: seq<real>)
    requires |t2| == |t1| && |t3| == |t1|
    ensures |m| == |t1|
  {
    seq(|t1|, i requires 0 <= i < |t1| => (1.0 - t1[i]) + t2[i] * 0.20 / 0.35 + t3[i] * 0.15 / 0.35)
  }

  /** The material function on the support points. */
  function Material(points: seq<real>, erf: real -> real): (m: seq<real>)
    ensures |m| == |points|
  {
    Mix(Transition(points, LENGTH_1, erf), Transition(points, LENGTH_2, erf), Transition(points, LENGTH_3, erf))
  }

  /** Mixing three transitions that lie in [0, 1] gives a value in [0, 2]. */
  lemma MixRange(t1: seq<real>, t2: seq<real>, t3: seq<real>)
    requires |t2| == |t1| && |t3| == |t1|
    requires forall i :: 0 <= i < |t1| ==> 0.0 <= t1[i] <= 1.0 && 0.0 <= t2[i] <= 1.0 && 0.0 <= t3[i] <= 1.0
    ensures forall i :: 0 <= i < |t1| ==> 0.0 <= Mix(t1, t2, t3)[i] <= 2.0
  {
  }

  /** With the error function, every transition lies in [0, 1], so the
      material function lies in [0, 2]. */
  lemma MaterialRange(points: seq<real>, erf: real -> real)
    requires Fick.IsErf(erf)
    ensures forall i :: 0 <= i < |points| ==> 0.0 <= Material(points, erf)[i] <= 2.0
  {
    forall length, i | 0 <= i < |points|
      ensures 0.0 <= Transition(points, length, erf)[i] <= 1.0
    {
    }
    MixRange(Transition(points, LENGTH_1, erf), Transition(points, LENGTH_2, erf), Transition(points, LENGTH_3, erf));
  }

  /** The effective mass (in units of the electron mass) of the material:
      GaAs plus 0.083 per unit of aluminium content. */
  function Masses(material: seq<real>): (m: seq<real>)
    ensures |m| == |material|
  {
    seq(|material|, i requires 0 <= i < |material| => MSTAR_GAAS + 0.35 * material[i] * 0.083)
  }

  /** Where the material is non-negative the mass is at least that of GaAs,
      hence positive; more aluminium means a heavier electron. */
  lemma MassesFollowMaterial(material: seq<real>)
    ensures forall i :: 0 <= i < |material| && material[i] >= 0.0 ==> Masses(material)[i] >= MSTAR_GAAS > 0.0
    ensures forall i, j :: 0 <= i < |material| && 0 <= j < |material| && material[i] <= material[j] ==>
      Masses(material)[i] <= Masses(material)[j]
  {
  }

  /** The potential before the first cycle: the material scaled by 0.9
      times the energy height. */
  function StartPotential(material: seq<real>): (p: seq<real>)
    ensures |p| == |material|
  {
    seq(|material|, i requires 0 <= i < |material| => material[i] * (0.9 * ENERGY_HEIGHT))
  }

  /** The baseline the update measures the potential from, in both the
      max_update and the update loop. */
  function Baseline(material: seq<real>): (b: seq<real>)
    ensures |b| == |material|
  {
    seq(|material|, i requires 0 <= i < |material| => 0.9 * ENERGY_HEIGHT * material[i])
  }

  /** The start potential is the baseline, so the first update asks for the
      Poisson solution itself. */
  lemma FirstUpdateIsSolution(material: seq<real>, solution: seq<real>)
    requires |solution| == |material|
    ensures StartPotential(material) == Baseline(material)
    ensures Updates(solution, StartPotential(material), Baseline(material)) == solution
  {
    assert StartPotential(material) == Baseline(material);
  }

  /** The state before the first cycle: the start potential and no solution. */
  function Start(material: seq<real>): (st: State)
    ensures StateFits(st, |material|)
  {
    State(StartPotential(material), [])
  }

  /** A vector with the same value everywhere. */
  function Uniform(n: nat, x: real): (v: seq<real>)
    ensures |v| == n && forall i :: 0 <= i < n ==> v[i] == x
  {
    seq(n, _ => x)
  }

  /** The density loop as written: the number density of pair k is
      weighted by the density of states of the material at node k, the
      index of the pair, at every node. */
  function DensityAsWritten(ws: seq<seq<real>>, es: seq<real>, material: seq<real>, softplus: real -> real): (d: seq<real>)
    requires |ws| == |es| && |ws| <= |material| && Conforming(ws, material)
    ensures |d| == |material|
    decreases |ws|
  {
    if |ws| == 0 then ZeroVector(|material|)
    else
      var n := |ws| - 1;
      var dos := Uniform(|material|, DensityOfStates(Masses(material))[n]);
      Add(DensityAsWritten(ws[..n], es[..n], material, softplus), NumberDensity(ws[n], es[n], FERMI_ENERGY, dos, softplus))
  }

  /** The density the loop evidently intends: every node weighted by the
      density of states of the material at that node. */
  function IntendedDensity(ws: seq<seq<real>>, es: seq<real>, material: seq<real>, softplus: real -> real): (d: seq<real>)
    requires |ws| == |es| && Conforming(ws, material)
    ensures |d| == |material|
  {
    TotalNumberDensity(ws, es, FERMI_ENERGY, DensityOfStates(Masses(material)), softplus)
  }

  /** As written, the density at a node depends on the material elsewhere:
      one eigenpair living on node 1 only, two materials that agree at
      node 1 and differ at node 0, and the densities at node 1 differ. */
  lemma DensityAsWrittenIsNotLocal()
    ensures var ws := [[0.0, 1.0]];
      var softplus := (x: real) => 1.0;
      [0.0, 0.0][1] == [1.0, 0.0][1]
      && DensityAsWritten(ws, [0.0], [0.0, 0.0], softplus)[1] != DensityAsWritten(ws, [0.0], [1.0, 0.0], softplus)[1]
  {
    var ws := [[0.0, 1.0]];
    var softplus := (x: real) => 1.0;
    assert ws[..0] == [] && [0.0][..0] == [];
    var occ := Occupancy(0.0, FERMI_ENERGY, softplus);
    assert occ == KBT;
    var s := StatesPerMass();
    DensityOfStatesInverts(Masses([0.0, 0.0]));
    DensityOfStatesInverts(Masses([1.0, 0.0]));
    var d0 := DensityOfStates(Masses([0.0, 0.0]))[0];
    var d1 := DensityOfStates(Masses([1.0, 0.0]))[0];
    assert d0 == MSTAR_GAAS * s;
    assert d1 == (MSTAR_GAAS + 0.35 * 0.083) * s;
    assert d1 - d0 == 0.35 * 0.083 * s;
    NumberDensityAt(ws[0], 0.0, FERMI_ENERGY, Uniform(2, d0), softplus, 1);
    NumberDensityAt(ws[0], 0.0, FERMI_ENERGY, Uniform(2, d1), softplus, 1);
    assert DensityAsWritten(ws, [0.0], [0.0, 0.0], softplus)[1] == d0 * 1.0 * 1.0 * occ;
    assert DensityAsWritten(ws, [0.0], [1.0, 0.0], softplus)[1] == d1 * 1.0 * 1.0 * occ;
    assert (d1 - d0) * occ > 0.0;
  }

  /** The intended density is local: at a node it depends on the material
      at that node only. */
  lemma {:induction false} IntendedDensityIsLocal(ws: seq<seq<real>>, es: seq<real>, m1: seq<real>, m2: seq<real>,
                                                  softplus: real -> real, p: nat)
    requires |ws| == |es| && Conforming(ws, m1) && |m2| == |m1|
    requires p < |m1| && m1[p] == m2[p]
    ensures IntendedDensity(ws, es, m1, softplus)[p] == IntendedDensity(ws, es, m2, softplus)[p]
    decreases |ws|
  {
    if |ws| > 0 {
      var n := |ws| - 1;
      IntendedDensityIsLocal(ws[..n], es[..n], m1, m2, softplus, p);
    }
  }

  /** The intended density is non-negative on a non-negative material. */
  lemma IntendedDensityNonNegative(ws: seq<seq<real>>, es: seq<real>, material: seq<real>, softplus: real -> real)
    requires |ws| == |es| && Conforming(ws, material) && IsSoftplus(softplus)
    requires forall i :: 0 <= i < |material| ==> material[i] >= 0.0
    ensures forall p :: 0 <= p < |material| ==> IntendedDensity(ws, es, material, softplus)[p] >= 0.0
  {
    var dos := DensityOfStates(Masses(material));
    MassesFollowMaterial(material);
    DensityOfStatesInverts(Masses(material));
    forall p | 0 <= p < |material|
      ensures IntendedDensity(ws, es, material, softplus)[p] >= 0.0
    {
      TotalNumberDensityNonNegative(ws, es, FERMI_ENERGY, dos, softplus, p);
    }
  }

  /** On a uniform material the index does not matter: the density as
      written is the intended one. */
  lemma {:induction false} UniformMaterialHidesIndex(ws: seq<seq<real>>, es: seq<real>, material: seq<real>, softplus: real -> real)
    requires |ws| == |es| && |ws| <= |material| && Conforming(ws, material)
    requires forall i, j :: 0 <= i < |material| && 0 <= j < |material| ==> material[i] == material[j]
    ensures DensityAsWritten(ws, es, material, softplus) == IntendedDensity(ws, es, material, softplus)
    decreases |ws|
  {
    if |ws| > 0 {
      var n := |ws| - 1;
      UniformMaterialHidesIndex(ws[..n], es[..n], material, softplus);
      var dos := DensityOfStates(Masses(material));
      UniformDensityOfStates(material, n);
      assert DensityAsWritten(ws, es, material, softplus)
          == Add(DensityAsWritten(ws[..n], es[..n], material, softplus), NumberDensity(ws[n], es[n], FERMI_ENERGY, dos, softplus));
      assert IntendedDensity(ws, es, material, softplus)
          == Add(IntendedDensity(ws[..n], es[..n], material, softplus), NumberDensity(ws[n], es[n], FERMI_ENERGY, dos, softplus));
    }
  }

  /** On a uniform material the density of states is the same at every
      node. */
  lemma UniformDensityOfStates(material: seq<real>, n: nat)
    requires n < |material| && forall i, j :: 0 <= i < |material| && 0 <= j < |material| ==> material[i] == material[j]
    ensures Uniform(|material|, DensityOfStates(Masses(material))[n]) == DensityOfStates(Masses(material))
  {
    var dos := DensityOfStates(Masses(material));
    forall i | 0 <= i < |material|
      ensures dos[i] == dos[n]
    {
      assert material[i] == material[n];
    }
  }

  /** rho: -doping on the nodes below `doped` whose potential lies above
      the Fermi energy, plus the density, scaled by e^2 / permittivity. */
  function Charge(density: seq<real>, potential: seq<real>, doped: nat): (rho: seq<real>)
    requires |potential| == |density| && doped <= |density|
    ensures |rho| == |density|
  {
    seq(|density|, i requires 0 <= i < |density| =>
      ((if i < doped && potential[i] > FERMI_ENERGY then -DOPING else 0.0) + density[i]) * CHARGE_SCALE)
  }

  /** The doping adds to the electron density rather than replacing it:
      a doped node above the Fermi energy carries the scaled density less
      the scaled doping, every other node the scaled density; a doped node
      whose density is below the doping is negative. */
  lemma ChargeSigns(density: seq<real>, potential: seq<real>, doped: nat)
    requires |potential| == |density| && doped <= |density|
    ensures CHARGE_SCALE > 0.0
    ensures forall i :: 0 <= i < doped && potential[i] > FERMI_ENERGY ==>
      Charge(density, potential, doped)[i] == density[i] * CHARGE_SCALE - DOPING * CHARGE_SCALE
    ensures forall i :: 0 <= i < |density| && !(i < doped && potential[i] > FERMI_ENERGY) ==>
      Charge(density, potential, doped)[i] == density[i] * CHARGE_SCALE
    ensures forall i :: 0 <= i < doped && potential[i] > FERMI_ENERGY && density[i] < DOPING ==>
      Charge(density, potential, doped)[i] < 0.0
  {
    assert CHARGE_SCALE > 0.0;
    forall i | 0 <= i < doped && potential[i] > FERMI_ENERGY && density[i] < DOPING
      ensures Charge(density, potential, doped)[i] < 0.0
    {
      NegativeScale(density[i] - DOPING, CHARGE_SCALE);
    }
  }

  lemma NegativeScale(x: real, s: real)
    requires x < 0.0 && s > 0.0
    ensures x * s < 0.0
  {
  }

  /** One cycle: the eigenpairs for the kinetic prefactor and the current
      potential, their number density as the loop writes it, the charge,
      the Poisson solution, and the update of the potential by ALPHA. */
  function Cycle(st: State, kinetic: seq<real>, material: seq<real>, softplus: real -> real,
                 schroedinger: (seq<real>, seq<real>) -> Eigenpairs, poisson: seq<real> -> seq<real>): (next: State)
    requires StateFits(st, |material|) && EIGENPAIRS <= |material|
    requires EigenpairsFit(schroedinger(kinetic, st.potential), EIGENPAIRS, |material|)
    requires |poisson(Charge(DensityAsWritten(schroedinger(kinetic, st.potential).vectors,
                                              schroedinger(kinetic, st.potential).values, material, softplus),
                             st.potential, |st.solution|))| == |material|
    ensures StateFits(next, |material|) && |next.solution| == |material|
  {
    var pairs := schroedinger(kinetic, st.potential);
    var density := DensityAsWritten(pairs.vectors, pairs.values, material, softplus);
    var rho := Charge(density, st.potential, |st.solution|);
    var solution := poisson(rho);
    State(Relaxed(st.potential, solution, Baseline(material), ALPHA), solution)
  }

  /** The state after k cycles. */
  ghost function Iterate(k: nat, kinetic: seq<real>, material: seq<real>, softplus: real -> real,
                         schroedinger: (seq<real>, seq<real>) -> Eigenpairs, poisson: seq<real> -> seq<real>): (st: State)
    requires EIGENPAIRS <= |material|
    requires EigensolverFits(schroedinger, EIGENPAIRS, |material|) && LinearSolverFits(poisson, |material|)
    ensures StateFits(st, |material|)
    ensures |st.solution| == (if k == 0 then 0 else |material|)
  {
    if k == 0 then Start(material)
    else
      var st := Iterate(k - 1, kinetic, material, softplus, schroedinger, poisson);
      Cycle(st, kinetic, material, softplus, schroedinger, poisson)
  }

  /** What run computes from the support points: 100 cycles on the
      material of the three transitions, with its effective mass. */
  ghost function Outcome(points: seq<real>, erf: real -> real, softplus: real -> real,
                         schroedinger: (seq<real>, seq<real>) -> Eigenpairs, poisson: seq<real> -> seq<real>): (st: State)
    requires Fick.IsErf(erf) && EIGENPAIRS <= |points|
    requires EigensolverFits(schroedinger, EIGENPAIRS, |points|) && LinearSolverFits(poisson, |points|)
    ensures StateFits(st, |points|) && |st.solution| == |points|
  {
    var material := Material(points, erf);
    MaterialRange(points, erf);
    MassesFollowMaterial(material);
    Iterate(CYCLES, Kinetic(Masses(material)), material, softplus, schroedinger, poisson)
  }

  /** The eigenpairs of the last Schroedinger solve of run: those of the
      potential after 99 cycles. */
  ghost function LastPairs(points: seq<real>, erf: real -> real, softplus: real -> real,
                           schroedinger: (seq<real>, seq<real>) -> Eigenpairs, poisson: seq<real> -> seq<real>): Eigenpairs
    requires Fick.IsErf(erf) && EIGENPAIRS <= |points|
    requires EigensolverFits(schroedinger, EIGENPAIRS, |points|) && LinearSolverFits(poisson, |points|)
  {
    var material := Material(points, erf);
    MaterialRange(points, erf);
    MassesFollowMaterial(material);
    var kinetic := Kinetic(Masses(material));
    schroedinger(kinetic, Iterate(CYCLES - 1, kinetic, material, softplus, schroedinger, poisson).potential)
  }

  /** The material profile: one Fick solution, asymmetric, with unit
      height and the common rate, interpolated at the three step positions
      in turn and mixed. */
  method InterpolateMaterial(points: seq<real>, erf: real -> real) returns (material: seq<real>)
    ensures material == Material(points, erf)
  {
    var fick := new Fick.Solution(points);
    fick.Reinit();
    fick.SetInitialHeight(PROFILE_HEIGHT);
    fick.SetInitialRate(PROFILE_RATE);
    fick.SetSymmetricProfile(false);
    fick.SetInitialLength(LENGTH_1);
    var t1 := fick.InterpolateAnalyticSolution(erf);
    fick.SetInitialLength(LENGTH_2);
    var t2 := fick.InterpolateAnalyticSolution(erf);
    fick.SetInitialLength(LENGTH_3);
    var t3 := fick.InterpolateAnalyticSolution(erf);
    assert t1 == Transition(points, LENGTH_1, erf);
    assert t2 == Transition(points, LENGTH_2, erf);
    assert t3 == Transition(points, LENGTH_3, erf);
    material := MixTransitions(t1, t2, t3);
  }

  /** The loop of run that mixes the three transitions node by node. */
  method MixTransitions(t1: seq<real>, t2: seq<real>, t3: seq<real>) returns (material: seq<real>)
    requires |t2| == |t1| && |t3| == |t1|
    ensures material == Mix(t1, t2, t3)
  {
    var out := new real[|t1|];
    var i := 0;
    while i < |t1|
      invariant 0 <= i <= |t1|
      invariant forall k :: 0 <= k < i ==> out[k] == (1.0 - t1[k]) + t2[k] * 0.20 / 0.35 + t3[k] * 0.15 / 0.35
    {
      out[i] := (1.0 - t1[i]) + t2[i] * 0.20 / 0.35 + t3[i] * 0.15 / 0.35;
      i := i + 1;
    }
    material := out[..];
    assert forall k :: 0 <= k < |t1| ==> material[k] == Mix(t1, t2, t3)[k];
  }

  /** The loop that sets the kinetic prefactor from the material. */
  method ComputeKineticOfMaterial(material: seq<real>) returns (kinetic: seq<real>)
    requires forall i :: 0 <= i < |material| ==> material[i] >= 0.0
    ensures kinetic == Kinetic(Masses(material))
  {
    MassesFollowMaterial(material);
    var out := new real[|material|];
    var i := 0;
    while i < |material|
      invariant 0 <= i <= |material|
      invariant forall k :: 0 <= k < i ==> out[k] == (HBAR * HBAR) / (2.0 * (MSTAR_GAAS + 0.35 * material[k] * 0.083) * M0)
    {
      out[i] := (HBAR * HBAR) / (2.0 * (MSTAR_GAAS + 0.35 * material[i] * 0.083) * M0);
      i := i + 1;
    }
    kinetic := out[..];
    assert forall k :: 0 <= k < |material| ==> kinetic[k] == Kinetic(Masses(material))[k];
  }

  /** The start potential in a new array: a copy of the material, scaled. */
  method ComputeStartPotential(material: seq<real>) returns (potential: array<real>)
    ensures fresh(potential) && potential[..] == StartPotential(material)
  {
    potential := new real[|material|];
    var i := 0;
    while i < |material|
      invariant 0 <= i <= |material|
      invariant forall k :: 0 <= k < i ==> potential[k] == material[k]
    {
      potential[i] := material[i];
      i := i + 1;
    }
    i := 0;
    while i < |material|
      invariant 0 <= i <= |material|
      invariant forall k :: 0 <= k < |material| ==>
        potential[k] == if k < i then material[k] * (0.9 * ENERGY_HEIGHT) else material[k]
    {
      potential[i] := potential[i] * (0.9 * ENERGY_HEIGHT);
      i := i + 1;
    }
    assert forall k :: 0 <= k < |material| ==> potential[..][k] == StartPotential(material)[k];
  }

  /** The inner loop of the density: adds g psi^2 times the occupancy of
      one pair, with the same g at every node, to the density. */
  method AddPairAsWritten(density: array<real>, w: seq<real>, energy: real, g: real, softplus: real -> real)
    requires |w| == density.Length
    modifies density
    ensures density[..] == Add(old(density[..]), NumberDensity(w, energy, FERMI_ENERGY, Uniform(|w|, g), softplus))
  {
    var occupancy := KBT * softplus((FERMI_ENERGY - energy) / KBT);
    assert occupancy == Occupancy(energy, FERMI_ENERGY, softplus);
    AddScaledSquares(density, w, g, occupancy);
    ghost var nd := NumberDensity(w, energy, FERMI_ENERGY, Uniform(|w|, g), softplus);
    UniformNumberDensity(w, energy, g, softplus);
    assert forall k :: 0 <= k < |w| ==> density[..][k] == Add(old(density[..]), nd)[k];
  }

  /** The node loop of the density: adds g psi^2 times the occupancy to
      every node. */
  method AddScaledSquares(density: array<real>, w: seq<real>, g: real, occupancy: real)
    requires |w| == density.Length
    modifies density
    ensures forall k :: 0 <= k < |w| ==> density[k] == old(density[k]) + g * w[k] * w[k] * occupancy
  {
    var j := 0;
    while j < |w|
      invariant 0 <= j <= |w|
      invariant forall k :: 0 <= k < j ==> density[k] == old(density[k]) + g * w[k] * w[k] * occupancy
      invariant forall k :: j <= k < |w| ==> density[k] == old(density[k])
    {
      density[j] := density[j] + g * w[j] * w[j] * occupancy;
      j := j + 1;
    }
  }

  /** With the same g at every node, entry k of the number density is
      g psi_k^2 times the occupancy. */
  lemma UniformNumberDensity(w: seq<real>, energy: real, g: real, softplus: real -> real)
    ensures forall k :: 0 <= k < |w| ==>
      NumberDensity(w, energy, FERMI_ENERGY, Uniform(|w|, g), softplus)[k]
        == g * w[k] * w[k] * Occupancy(energy, FERMI_ENERGY, softplus)
  {
    forall k | 0 <= k < |w|
      ensures NumberDensity(w, energy, FERMI_ENERGY, Uniform(|w|, g), softplus)[k]
        == g * w[k] * w[k] * Occupancy(energy, FERMI_ENERGY, softplus)
    {
      NumberDensityAt(w, energy, FERMI_ENERGY, Uniform(|w|, g), softplus, k);
    }
  }

  /** The density loop as written: pair i weighted by the density of
      states of the material at node i. */
  method ComputeDensityAsWritten(ws: seq<seq<real>>, es: seq<real>, material: seq<real>, softplus: real -> real)
    returns (density: seq<real>)
    requires |ws| == |es| && |ws| <= |material| && Conforming(ws, material)
    ensures density == DensityAsWritten(ws, es, material, softplus)
  {
    var d := new real[|material|](_ => 0.0);
    assert d[..] == ZeroVector(|material|);
    var i := 0;
    while i < |ws|
      invariant 0 <= i <= |ws|
      invariant d[..] == DensityAsWritten(ws[..i], es[..i], material, softplus)
    {
      var g := (MSTAR_GAAS + 0.35 * material[i] * 0.083) * M0 / (HBAR * HBAR * PI);
      assert g == DensityOfStates(Masses(material))[i];
      AddPairAsWritten(d, ws[i], es[i], g, softplus);
      assert ws[..i + 1][..i] == ws[..i] && es[..i + 1][..i] == es[..i];
      i := i + 1;
    }
    assert ws[..i] == ws && es[..i] == es;
    density := d[..];
  }

  /** -doping on the nodes below `doped` whose potential lies above the
      Fermi energy, zero elsewhere. */
  function Doping(potential: seq<real>, doped: nat): (r: seq<real>)
    requires doped <= |potential|
    ensures |r| == |potential|
  {
    seq(|potential|, i requires 0 <= i < |potential| => if i < doped && potential[i] > FERMI_ENERGY then -DOPING else 0.0)
  }

  /** The doping loop of rho: a zero vector, with -doping on the nodes
      below `doped` whose potential lies above the Fermi energy. */
  method ComputeDoping(potential: seq<real>, doped: nat) returns (r: array<real>)
    requires doped <= |potential|
    ensures fresh(r) && r[..] == Doping(potential, doped)
  {
    r := new real[|potential|](_ => 0.0);
    var i := 0;
    while i < doped
      invariant 0 <= i <= doped
      invariant forall k :: 0 <= k < i ==> r[k] == Doping(potential, doped)[k]
      invariant forall k :: i <= k < r.Length ==> r[k] == 0.0
    {
      if potential[i] > FERMI_ENERGY {
        r[i] := -DOPING;
      }
      i := i + 1;
    }
    assert forall k :: 0 <= k < r.Length ==> r[..][k] == Doping(potential, doped)[k];
  }

  /** rho: zero, -doping on the nodes below `doped` whose potential lies
      above the Fermi energy, plus the density, then scaled. */
  method ComputeCharge(density: seq<real>, potential: seq<real>, doped: nat) returns (rho: seq<real>)
    requires |potential| == |density| && doped <= |density|
    ensures rho == Charge(density, potential, doped)
  {
    var n := |density|;
    var r := ComputeDoping(potential, doped);
    ghost var doping := r[..];
    var i := 0;
    while i < n
      invariant 0 <= i <= n
      invariant forall k :: 0 <= k < i ==> r[k] == doping[k] + density[k]
      invariant forall k :: i <= k < n ==> r[k] == doping[k]
    {
      r[i] := r[i] + density[i];
      i := i + 1;
    }
    ghost var sum := r[..];
    i := 0;
    while i < n
      invariant 0 <= i <= n
      invariant forall k :: 0 <= k < i ==> r[k] == sum[k] * CHARGE_SCALE
      invariant forall k :: i <= k < n ==> r[k] == sum[k]
    {
      r[i] := r[i] * CHARGE_SCALE;
      i := i + 1;
    }
    rho := r[..];
    assert forall k :: 0 <= k < n ==> rho[k] == Charge(density, potential, doped)[k];
  }

  /** One cycle of run, updating the potential in place: returns the
      eigenpairs and the new Poisson solution; the old solution decides
      how many nodes are doped. */
  method RunCycle(potential: array<real>, solution: seq<real>, kinetic: seq<real>, material: seq<real>,
                  softplus: real -> real,
                  schroedinger: (seq<real>, seq<real>) -> Eigenpairs, poisson: seq<real> -> seq<real>)
    returns (pairs: Eigenpairs, newSolution: seq<real>)
    requires potential.Length == |material| && EIGENPAIRS <= |material|
    requires StateFits(State(potential[..], solution), |material|)
    requires EigensolverFits(schroedinger, EIGENPAIRS, |material|) && LinearSolverFits(poisson, |material|)
    modifies potential
    ensures pairs == schroedinger(kinetic, old(potential[..]))
    ensures State(potential[..], newSolution)
         == Cycle(State(old(potential[..]), solution), kinetic, material, softplus, schroedinger, poisson)
  {
    pairs := schroedinger(kinetic, potential[..]);
    assert EigenpairsFit(pairs, EIGENPAIRS, |material|);
    var density := ComputeDensityAsWritten(pairs.vectors, pairs.values, material, softplus);
    var rho := ComputeCharge(density, potential[..], |solution|);
    newSolution := poisson(rho);
    var baseline := Baseline(material);
    var maxUpdate := ComputeMaxUpdate(newSolution, potential[..], baseline);
    var alpha := AdaptiveAlpha(maxUpdate, CUTOFF);
    alpha := ALPHA;
    Relax(potential, newSolution, baseline, alpha);
  }

  /** The cycle loop of run: CYCLES cycles on the potential, starting with
      no solution; returns the eigenpairs and the solution of the last cycle. */
  method RunCycles(potential: array<real>, kinetic: seq<real>, material: seq<real>, softplus: real -> real,
                   schroedinger: (seq<real>, seq<real>) -> Eigenpairs, poisson: seq<real> -> seq<real>)
    returns (pairs: Eigenpairs, solution: seq<real>)
    requires potential.Length == |material| && EIGENPAIRS <= |material| && potential[..] == Start(material).potential
    requires EigensolverFits(schroedinger, EIGENPAIRS, |material|) && LinearSolverFits(poisson, |material|)
    modifies potential
    ensures State(potential[..], solution) == Iterate(CYCLES, kinetic, material, softplus, schroedinger, poisson)
    ensures pairs == schroedinger(kinetic, Iterate(CYCLES - 1, kinetic, material, softplus, schroedinger, poisson).potential)
  {
    pairs := Eigenpairs([], []);
    solution := [];
    var cycle := 0;
    while cycle < CYCLES
      invariant 0 <= cycle <= CYCLES
      invariant State(potential[..], solution) == Iterate(cycle, kinetic, material, softplus, schroedinger, poisson)
      invariant cycle > 0 ==>
        pairs == schroedinger(kinetic, Iterate(cycle - 1, kinetic, material, softplus, schroedinger, poisson).potential)
    {
      ghost var before := potential[..];
      pairs, solution := RunCycle(potential, solution, kinetic, material, softplus, schroedinger, poisson);
      assert pairs == schroedinger(kinetic, before);
      cycle := cycle + 1;
    }
  }

  /** SelfConsistentProblem: the test space (its support points), the
      eigenpairs of the last Schroedinger solve and the last Poisson solution. */
  class SelfConsistentProblem {
    const points: seq<real>
    var eigenvalues: seq<real>
    var eigenvectors: seq<seq<real>>
    var solution: seq<real>

    constructor (supportPoints: seq<real>)
      ensures points == supportPoints && solution == [] && eigenvalues == [] && eigenvectors == []
    {
      points := supportPoints;
      eigenvalues := [];
      eigenvectors := [];
      solution := [];
    }

    /** run: sets up the material, the kinetic prefactor and the start
        potential, then performs 100 cycles; returns the final potential,
        which is the potential of the specification after 100 cycles, and
        leaves the solution and the eigenpairs of the last cycle. The density loop reads the
        material at the index of the eigenpair, so there must be at least
        as many nodes as eigenpairs. */
    method Run(erf: real -> real, softplus: real -> real,
               schroedinger: (seq<real>, seq<real>) -> Eigenpairs, poisson: seq<real> -> seq<real>)
      returns (finalPotential: seq<real>)
      requires solution == [] && Fick.IsErf(erf) && EIGENPAIRS <= |points|
      requires EigensolverFits(schroedinger, EIGENPAIRS, |points|) && LinearSolverFits(poisson, |points|)
      modifies this
      ensures finalPotential == Outcome(points, erf, softplus, schroedinger, poisson).potential
      ensures solution == Outcome(points, erf, softplus, schroedinger, poisson).solution
      ensures eigenvalues == LastPairs(points, erf, softplus, schroedinger, poisson).values
      ensures eigenvectors == LastPairs(points, erf, softplus, schroedinger, poisson).vectors
    {
      var material := InterpolateMaterial(points, erf);
      MaterialRange(points, erf);
      var kinetic := ComputeKineticOfMaterial(material);
      var potential := ComputeStartPotential(material);
      var pairs, last := RunCycles(potential, kinetic, material, softplus, schroedinger, poisson);
      eigenvalues := pairs.values;
      eigenvectors := pairs.vectors;
      solution := last;
      finalPotential := potential[..];
    }
  }
}
