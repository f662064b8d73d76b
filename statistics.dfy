/** Fermi-Dirac statistics on nodal vectors: densities from wavefunctions,
    occupancies at a fixed 300 K, and the two-dimensional density of states.
    The transcendental log(1 + exp(x)) is a parameter `softplus`. */
module Statistics {
  import opened Constants
  import opened Vectors

  /** k_B T at the fixed temperature of 300 K. */
  const KBT: real := KB * 300.0

  /** The integrated Fermi-Dirac occupancy k_B T log(1 + exp((E_F - E) / k_B T)),
      positive for every level. */
  function Occupancy(energy: real, fermi: real, softplus: real -> real): (occ: real)
    ensures IsSoftplus(softplus) ==> occ > 0.0
  {
    KBT * softplus((fermi - energy) / KBT)
  }

  /** softplus is the positive, increasing function log(1 + exp(x)). */
  ghost predicate IsSoftplus(softplus: real -> real)
  {
    (forall x :: softplus(x) > 0.0)
    && (forall x, y :: x <= y ==> softplus(x) <= softplus(y))
  }

  /** The occupancy does not decrease as the level drops below the Fermi
      energy. */
  lemma OccupancyMonotone(e1: real, e2: real, fermi: real, softplus: real -> real)
    requires IsSoftplus(softplus) && e1 <= e2
    ensures Occupancy(e2, fermi, softplus) <= Occupancy(e1, fermi, softplus)
  {
    assert (fermi - e2) / KBT <= (fermi - e1) / KBT;
  }

  /** The pointwise square |psi|^2. */
  function Density(w: seq<real>): (d: seq<real>)
    ensures |d| == |w|
  {
    seq(|w|, i requires 0 <= i < |w| => w[i] * w[i])
  }

  /** The density is non-negative and does not see the sign of the
      wavefunction. */
  lemma DensityOfSignedWavefunction(w: seq<real>, s: seq<real>)
    requires |s| == |w| && forall i :: 0 <= i < |w| ==> s[i] == w[i] || s[i] == -w[i]
    ensures Density(s) == Density(w)
    ensures forall i :: 0 <= i < |w| ==> Density(w)[i] >= 0.0
  {
    forall i | 0 <= i < |w|
      ensures Density(s)[i] == Density(w)[i] && Density(w)[i] >= 0.0
    {
      if w[i] < 0.0 {
        assert w[i] * w[i] == (-w[i]) * (-w[i]);
        PositiveSquare(-w[i]);
      } else {
        PositiveSquare(w[i]);
      }
    }
  }

  lemma PositiveSquare(x: real)
    requires x >= 0.0
    ensures x * x >= 0.0 && (-x) * (-x) == x * x
  {
  }

  /** compute_density: the pointwise square of the wavefunction. */
  method ComputeDensity(w: seq<real>) returns (d: seq<real>)
    ensures d == Density(w)
  {
    var out := new real[|w|];
    var i := 0;
    while i < |w|
      invariant 0 <= i <= |w|
      invariant forall k :: 0 <= k < i ==> out[k] == w[k] * w[k]
    {
      out[i] := w[i] * w[i];
      i := i + 1;
    }
    d := out[..];
    assert forall k :: 0 <= k < |w| ==> d[k] == Density(w)[k];
  }

  /** The number density of one eigenpair: the density g |psi|^2 of the
      eigenvector times the occupancy of its level, so it is non-negative
      where g is. */
  function NumberDensity(w: seq<real>, energy: real, fermi: real, dos: seq<real>, softplus: real -> real): (d: seq<real>)
    requires |w| == |dos|
    ensures |d| == |w|
    ensures forall i :: 0 <= i < |w| ==> d[i] == dos[i] * Density(w)[i] * Occupancy(energy, fermi, softplus)
    ensures IsSoftplus(softplus) && (forall i :: 0 <= i < |dos| ==> dos[i] >= 0.0) ==>
      forall i :: 0 <= i < |w| ==> d[i] >= 0.0
  {
    var occ := Occupancy(energy, fermi, softplus);
    ScaledSquaresNonNegative(w, dos, occ);
    seq(|w|, i requires 0 <= i < |w| => dos[i] * w[i] * w[i] * occ)
  }

  /** Entry i of the number density, written out. */
  lemma NumberDensityAt(w: seq<real>, energy: real, fermi: real, dos: seq<real>, softplus: real -> real, i: nat)
    requires |w| == |dos| && i < |w|
    ensures NumberDensity(w, energy, fermi, dos, softplus)[i] == dos[i] * w[i] * w[i] * Occupancy(energy, fermi, softplus)
  {
  }

  lemma ScaledSquaresNonNegative(w: seq<real>, dos: seq<real>, occ: real)
    requires |w| == |dos|
    ensures occ >= 0.0 && (forall i :: 0 <= i < |dos| ==> dos[i] >= 0.0) ==>
      forall i :: 0 <= i < |w| ==> dos[i] * w[i] * w[i] * occ >= 0.0
  {
    if occ >= 0.0 && (forall i :: 0 <= i < |dos| ==> dos[i] >= 0.0) {
      forall i | 0 <= i < |w|
        ensures dos[i] * w[i] * w[i] * occ >= 0.0
      {
        DensityOfSignedWavefunction(w, w);
        NonNegativeProduct(dos[i], Density(w)[i], occ);
      }
    }
  }

  /** compute_number_density for one eigenpair. */
  method ComputeNumberDensity(w: seq<real>, energy: real, fermi: real, dos: seq<real>, softplus: real -> real)
    returns (d: seq<real>)
    requires |w| == |dos|
    ensures d == NumberDensity(w, energy, fermi, dos, softplus)
  {
    var occupancy := KBT * softplus((fermi - energy) / KBT);
    assert occupancy == Occupancy(energy, fermi, softplus);
    var out := new real[|w|];
    var i := 0;
    while i < |w|
      invariant 0 <= i <= |w|
      invariant forall k :: 0 <= k < i ==> out[k] == dos[k] * w[k] * w[k] * occupancy
    {
      out[i] := dos[i] * w[i] * w[i] * occupancy;
      i := i + 1;
    }
    d := out[..];
    assert forall k :: 0 <= k < |w| ==> d[k] == NumberDensity(w, energy, fermi, dos, softplus)[k];
  }

  lemma NonNegativeProduct(a: real, b: real, c: real)
    requires a >= 0.0 && b >= 0.0 && c >= 0.0
    ensures a * b * c >= 0.0
  {
  }

  /** Every eigenvector has as many entries as the density of states. */
  predicate Conforming(ws: seq<seq<real>>, dos: seq<real>)
  {
    forall k :: 0 <= k < |ws| ==> |ws[k]| == |dos|
  }

  /** The number density summed over the eigenpairs, in order. */
  function TotalNumberDensity(ws: seq<seq<real>>, es: seq<real>, fermi: real, dos: seq<real>, softplus: real -> real): (d: seq<real>)
    requires |ws| == |es| && Conforming(ws, dos)
    ensures |d| == |dos|
    decreases |ws|
  {
    if |ws| == 0 then ZeroVector(|dos|)
    else
      var n := |ws| - 1;
      Add(TotalNumberDensity(ws[..n], es[..n], fermi, dos, softplus), NumberDensity(ws[n], es[n], fermi, dos, softplus))
  }

  /** compute_number_density for a set of eigenpairs: the sum of the
      number densities of every pair. */
  method ComputeNumberDensitySum(ws: seq<seq<real>>, es: seq<real>, fermi: real, dos: seq<real>, softplus: real -> real)
    returns (d: seq<real>)
    requires |ws| == |es| && |ws| > 0 && Conforming(ws, dos)
    ensures d == TotalNumberDensity(ws, es, fermi, dos, softplus)
  {
    d := ZeroVector(|ws[0]|);
    var i := 0;
    while i < |ws|
      invariant 0 <= i <= |ws|
      invariant d == TotalNumberDensity(ws[..i], es[..i], fermi, dos, softplus)
    {
      var tmp := ComputeNumberDensity(ws[i], es[i], fermi, dos, softplus);
      assert ws[..i + 1][..i] == ws[..i] && es[..i + 1][..i] == es[..i];
      d := Add(d, tmp);
      i := i + 1;
    }
    assert ws[..i] == ws && es[..i] == es;
  }

  /** With one eigenpair the sum is that pair's number density. */
  lemma SinglePairTotal(w: seq<real>, energy: real, fermi: real, dos: seq<real>, softplus: real -> real)
    requires |w| == |dos|
    ensures TotalNumberDensity([w], [energy], fermi, dos, softplus) == NumberDensity(w, energy, fermi, dos, softplus)
  {
    assert [w][..0] == [] && [energy][..0] == [];
    var z := TotalNumberDensity([], [], fermi, dos, softplus);
    assert Add(z, NumberDensity(w, energy, fermi, dos, softplus)) == NumberDensity(w, energy, fermi, dos, softplus);
  }

  /** With a non-negative density of states every summand is non-negative,
      so the total is too, and it is at least each pair's contribution. */
  lemma {:induction false} TotalNumberDensityBounds(ws: seq<seq<real>>, es: seq<real>, fermi: real, dos: seq<real>, softplus: real -> real, k: nat, p: nat)
    requires |ws| == |es| && Conforming(ws, dos) && IsSoftplus(softplus)
    requires forall i :: 0 <= i < |dos| ==> dos[i] >= 0.0
    requires k < |ws| && p < |dos|
    ensures TotalNumberDensity(ws, es, fermi, dos, softplus)[p] >= NumberDensity(ws[k], es[k], fermi, dos, softplus)[p] >= 0.0
    decreases |ws|
  {
    var n := |ws| - 1;
    if k == n {
      TotalNumberDensityNonNegative(ws[..n], es[..n], fermi, dos, softplus, p);
    } else {
      TotalNumberDensityBounds(ws[..n], es[..n], fermi, dos, softplus, k, p);
      assert ws[..n][k] == ws[k] && es[..n][k] == es[k];
    }
  }

  lemma {:induction false} TotalNumberDensityNonNegative(ws: seq<seq<real>>, es: seq<real>, fermi: real, dos: seq<real>, softplus: real -> real, p: nat)
    requires |ws| == |es| && Conforming(ws, dos) && IsSoftplus(softplus)
    requires forall i :: 0 <= i < |dos| ==> dos[i] >= 0.0
    requires p < |dos|
    ensures TotalNumberDensity(ws, es, fermi, dos, softplus)[p] >= 0.0
    decreases |ws|
  {
    if |ws| > 0 {
      var n := |ws| - 1;
        TotalNumberDensityNonNegative(ws[..n], es[..n], fermi, dos, softplus, p);
    }
  }

  /** The two-dimensional density of states per unit energy for an
      effective mass m (in units of the electron mass): m M0 / (pi hbar^2). */
  function StatesPerMass(): real
  {
    M0 / (HBAR * HBAR * PI)
  }

  /** The density of states of a vector of effective masses. */
  function DensityOfStates(m: seq<real>): (dos: seq<real>)
    ensures |dos| == |m|
  {
    seq(|m|, i requires 0 <= i < |m| => (m[i] * M0) / (HBAR * HBAR * PI))
  }

  /** The effective mass that has a given density of states. */
  function EffectiveMass(dos: seq<real>): (m: seq<real>)
    ensures |m| == |dos|
  {
    seq(|dos|, i requires 0 <= i < |dos| => dos[i] / StatesPerMass())
  }

  /** The density of states is the mass times a positive constant: it keeps
      the sign of the mass and can be inverted. */
  lemma DensityOfStatesInverts(m: seq<real>)
    ensures StatesPerMass() > 0.0
    ensures forall i :: 0 <= i < |m| ==> DensityOfStates(m)[i] == m[i] * StatesPerMass()
    ensures forall i :: 0 <= i < |m| ==> (DensityOfStates(m)[i] > 0.0 <==> m[i] > 0.0)
    ensures EffectiveMass(DensityOfStates(m)) == m
  {
    var s := StatesPerMass();
    assert s > 0.0;
    forall i | 0 <= i < |m|
      ensures DensityOfStates(m)[i] == m[i] * s
    {
      DivideProduct(m[i], M0, HBAR * HBAR * PI);
    }
    forall i | 0 <= i < |m|
      ensures DensityOfStates(m)[i] > 0.0 <==> m[i] > 0.0
    {
      PositiveScale(m[i], s);
    }
    forall i | 0 <= i < |m|
      ensures EffectiveMass(DensityOfStates(m))[i] == m[i]
    {
      ScaleThenDivide(m[i], s);
    }
  }

  lemma ScaleThenDivide(x: real, s: real)
    requires s != 0.0
    ensures (x * s) / s == x
  {
  }

  lemma DivideProduct(x: real, y: real, d: real)
    requires d != 0.0
    ensures (x * y) / d == x * (y / d)
  {
    var r := y / d;
    assert y == r * d;
    assert x * y == (x * r) * d;
  }

  lemma PositiveScale(x: real, s: real)
    requires s > 0.0
    ensures x * s > 0.0 <==> x > 0.0
  {
    if x > 0.0 {
      assert x * s > 0.0;
    } else {
      assert x * s <= 0.0;
    }
  }

  /** compute_density_of_states: m M0 / (hbar^2 pi) at every node. */
  method ComputeDensityOfStates(m: seq<real>) returns (dos: seq<real>)
    ensures dos == DensityOfStates(m)
  {
    var out := new real[|m|];
    var i := 0;
    while i < |m|
      invariant 0 <= i <= |m|
      invariant forall k :: 0 <= k < i ==> out[k] == (m[k] * M0) / (HBAR * HBAR * PI)
    {
      out[i] := (m[i] * M0) / (HBAR * HBAR * PI);
      i := i + 1;
    }
    dos := out[..];
  }
}
