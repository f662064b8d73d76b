/** The base of the crystal tensors: a rank-r tensor over three space
    dimensions, stored as a flat array of 3^r entries in row-major order,
    together with the moduli it was constructed from and the symmetry
    group that selects how the moduli are distributed over the entries. */
module TensorBase {
  import opened MaterialSymmetry

  /** Why distributing the moduli failed: each case is an assertion of the library. */
  datatype Failure =
    /** The virtual base distribute, or a symmetry group with no rule yet. */
    | NotImplemented
    /** The number of moduli does not match the one the group needs. */
    | WrongModuliCount(expected: nat, given: nat)
    /** A rule reads a modulus past the end of the moduli array. */
    | ModulusOutOfBounds(index: nat, given: nat)

  /** The outcome of a distribute call. */
  datatype Outcome = Done | Failed(failure: Failure)

  /** Three to the power `rank`: the number of entries of a rank-`rank` tensor in 3-D. */
  function Pow3(rank: nat): (n: nat)
  {
    if rank == 0 then 1 else 3 * Pow3(rank - 1)
  }

  /** The two tensors of the library: permittivity (rank 2) has 9 entries and
      stiffness (rank 4) has 81. */
  lemma ComponentsOfUsedRanks()
    ensures Pow3(2) == 9 && Pow3(4) == 81
  {
  }

  class TensorBase {
    /** The rank of the tensor (the template argument). */
    const rank: nat
    /** The number of moduli handed to the constructor. */
    const nConstants: nat
    /** The moduli, in the order they were handed over. */
    const constants: array<real>
    /** The crystal group. No constructor sets it; the owner assigns it. */
    var symmetry: SymmetryFlag
    /** The underlying tensor, entry (i, j, ...) at 3^(r-1) i + 3^(r-2) j + ... */
    const entries: array<real>

    ghost predicate Valid()
      reads this
    {
      constants.Length == nConstants && entries.Length == Pow3(rank) && constants != entries
    }

    /** Copies the moduli into a fresh array, element by element, and starts
        from the zero tensor. The moduli list must not be empty; the
        symmetry flag is left as whatever the owner assigns later. */
    constructor (rank: nat, moduli: seq<real>)
      requires |moduli| != 0
      ensures Valid() && this.rank == rank
      ensures nConstants == |moduli| && constants[..] == moduli
      ensures forall n :: 0 <= n < entries.Length ==> entries[n] == 0.0
      ensures fresh(constants) && fresh(entries)
    {
      this.rank := rank;
      nConstants := |moduli|;
      var copy := new real[|moduli|];
      var k := 0;
      while k < |moduli|
        invariant 0 <= k <= |moduli|
        invariant copy[..k] == moduli[..k]
      {
        copy[k] := moduli[k];
        k := k + 1;
      }
      constants := copy;
      entries := new real[Pow3(rank)](_ => 0.0);
    }

    /** The number of components is the number of stored entries, 3^rank. */
    function NComponents(): (n: nat)
      reads this
      requires Valid()
      ensures n == entries.Length
    {
      Pow3(rank)
    }

    /** Returns the stored symmetry flag; nothing changes. */
    method SymmetryFlag() returns (flag: MaterialSymmetry.SymmetryFlag)
      ensures flag == symmetry
    {
      flag := symmetry;
    }

    /** The base class has no rule to distribute moduli by: it always fails. */
    method Distribute() returns (outcome: Outcome)
      ensures outcome == Failed(NotImplemented)
    {
      outcome := Failed(NotImplemented);
    }

    /** Sets every entry to zero: the tensor's clear(), which the destructor
        and every distribute call perform. */
    method Clear()
      modifies entries
      ensures forall n :: 0 <= n < entries.Length ==> entries[n] == 0.0
    {
      forall n | 0 <= n < entries.Length {
        entries[n] := 0.0;
      }
    }
  }
}
