/** The dielectric tensor eps_ij, rank 2, filled from one or two moduli. */
module DielectricTensor {
  import opened MaterialSymmetry
  import opened TensorBase

  /** Position of eps_ij in the flat storage. */
  function At2(i: nat, j: nat): nat
  {
    3 * i + j
  }

  /** The groups with a distribution rule. */
  predicate Supported(sym: SymmetryFlag)
  {
    sym == Hexagonal || sym == Trigonal || sym == Cubic
  }

  /** What distribute reports for a group and a number of moduli. The
      hexagonal rule checks for one modulus and then reads a second one. */
  function ExpectedOutcome(sym: SymmetryFlag, n: nat): Outcome
  {
    match sym
    case Trigonal => if n == 2 then Done else Failed(WrongModuliCount(2, n))
    case Cubic => if n == 1 then Done else Failed(WrongModuliCount(1, n))
    case Hexagonal => if n == 1 then Failed(ModulusOutOfBounds(1, 1)) else Failed(WrongModuliCount(1, n))
    case _ => Failed(NotImplemented)
  }

  /** A diagonal tensor diag(d0, d0, d2): isotropic in the plane of the first
      two axes. */
  function Uniaxial(d0: real, d2: real, i: nat, j: nat): real
  {
    if i != j then 0.0 else if i < 2 then d0 else d2
  }

  /** The reference permittivity of a group whose rule succeeds: trigonal
      moduli 11, 33 give diag(11, 11, 33); the cubic modulus 11 gives
      diag(11, 11, 11). */
  function Permittivity(sym: SymmetryFlag, c: seq<real>, i: nat, j: nat): real
    requires ExpectedOutcome(sym, |c|) == Done
  {
    if sym == Trigonal then Uniaxial(c[0], c[1], i, j) else Uniaxial(c[0], c[0], i, j)
  }

  /** Only the trigonal and cubic rules can succeed; the hexagonal rule never does. */
  lemma HexagonalNeverSucceeds(n: nat)
    ensures ExpectedOutcome(Hexagonal, n) != Done
    ensures n == 1 <==> ExpectedOutcome(Hexagonal, n) == Failed(ModulusOutOfBounds(1, 1))
  {
  }

  /** The permittivity of a successful rule is symmetric, diagonal, and the
      same along the first two axes. */
  lemma PermittivityShape(sym: SymmetryFlag, c: seq<real>, i: nat, j: nat)
    requires ExpectedOutcome(sym, |c|) == Done && i < 3 && j < 3
    ensures Permittivity(sym, c, i, j) == Permittivity(sym, c, j, i)
    ensures i != j ==> Permittivity(sym, c, i, j) == 0.0
    ensures Permittivity(sym, c, 0, 0) == Permittivity(sym, c, 1, 1) == c[0]
    ensures sym == Cubic ==> Permittivity(sym, c, 2, 2) == c[0]
    ensures sym == Trigonal ==> Permittivity(sym, c, 2, 2) == c[1]
  {
  }

  /** The hexagonal rule as evidently intended: two moduli 11, 33 giving
      diag(11, 11, 33), as for the trigonal group. */
  function CorrectedHexagonalOutcome(n: nat): (r: Outcome)
    ensures r == Done <==> n == 2
  {
    if n == 2 then Done else Failed(WrongModuliCount(2, n))
  }

  /** The corrected hexagonal permittivity. */
  function CorrectedHexagonalPermittivity(c: seq<real>, i: nat, j: nat): (r: real)
    requires |c| == 2 && i < 3 && j < 3
    ensures r == Permittivity(Trigonal, c, i, j)
    ensures i == j && i < 2 ==> r == c[0]
    ensures i == j == 2 ==> r == c[1]
    ensures i != j ==> r == 0.0
  {
    Uniaxial(c[0], c[1], i, j)
  }

  class DielectricTensor {
    /** The rank-2 tensor base that holds the moduli and the entries. */
    const base: TensorBase

    ghost predicate Valid()
      reads this, base
    {
      base.Valid() && base.rank == 2 && base.entries.Length == 9
    }

    /** Builds the rank-2 base from a non-empty list of moduli. */
    constructor (moduli: seq<real>)
      requires |moduli| != 0
      ensures Valid() && fresh(base) && fresh(base.entries) && fresh(base.constants)
      ensures base.nConstants == |moduli| && base.constants[..] == moduli
      ensures forall n :: 0 <= n < base.entries.Length ==> base.entries[n] == 0.0
    {
      ComponentsOfUsedRanks();
      base := new TensorBase(2, moduli);
    }

    /** The entry eps_ij. */
    ghost function Entry(i: nat, j: nat): real
      reads this, base, base.entries
      requires Valid() && i < 3 && j < 3
    {
      base.entries[At2(i, j)]
    }

    /** Clears the tensor and applies the rule of the stored group. On
        success every entry is the reference permittivity; a failed hexagonal
        rule has already written eps_11 and eps_22; any other failure leaves
        the zero tensor. */
    method Distribute() returns (outcome: Outcome)
      requires Valid()
      modifies base.entries
      ensures outcome == ExpectedOutcome(base.symmetry, base.nConstants)
      ensures outcome == Done ==>
        forall i: nat, j: nat | i < 3 && j < 3 :: Entry(i, j) == Permittivity(base.symmetry, base.constants[..], i, j)
      ensures outcome == Failed(ModulusOutOfBounds(1, 1)) ==>
        forall i: nat, j: nat | i < 3 && j < 3 :: Entry(i, j) == Uniaxial(base.constants[0], 0.0, i, j)
      ensures outcome.Failed? && !outcome.failure.ModulusOutOfBounds? ==>
        forall n :: 0 <= n < base.entries.Length ==> base.entries[n] == 0.0
    {
      base.Clear();
      match base.symmetry
      case Trigonal =>
        outcome := DistributeToTrigonal();
      case Hexagonal =>
        outcome := DistributeToHexagonal();
      case Cubic =>
        outcome := DistributeToCubic();
      case _ =>
        outcome := Failed(NotImplemented);
    }

    /** The hexagonal rule as written: it checks for one modulus, writes the
        first into eps_11 and eps_22, and then reads a second modulus that
        is not there. */
    method DistributeToHexagonal() returns (outcome: Outcome)
      requires Valid() && base.symmetry == Hexagonal
      modifies base.entries
      ensures outcome == ExpectedOutcome(Hexagonal, base.nConstants)
      ensures outcome != Failed(ModulusOutOfBounds(1, 1)) ==> unchanged(base.entries)
      ensures outcome == Failed(ModulusOutOfBounds(1, 1)) ==>
        forall i: nat, j: nat | i < 3 && j < 3 ::
          Entry(i, j) == if i == j && i < 2 then base.constants[0] else old(Entry(i, j))
    {
      if base.nConstants != 1 {
        return Failed(WrongModuliCount(1, base.nConstants));
      }
      base.entries[At2(0, 0)] := base.constants[0];
      base.entries[At2(1, 1)] := base.constants[0];
      outcome := Failed(ModulusOutOfBounds(1, base.nConstants));
    }

    /** The trigonal rule: moduli 11, 33. */
    method DistributeToTrigonal() returns (outcome: Outcome)
      requires Valid() && base.symmetry == Trigonal
      modifies base.entries
      ensures outcome == ExpectedOutcome(Trigonal, base.nConstants)
      ensures outcome != Done ==> unchanged(base.entries)
      ensures outcome == Done ==>
        forall i: nat, j: nat | i < 3 && j < 3 ::
          Entry(i, j) == if i == j then Permittivity(Trigonal, base.constants[..], i, j) else old(Entry(i, j))
    {
      if base.nConstants != 2 {
        return Failed(WrongModuliCount(2, base.nConstants));
      }
      base.entries[At2(0, 0)] := base.constants[0];
      base.entries[At2(1, 1)] := base.constants[0];
      base.entries[At2(2, 2)] := base.constants[1];
      outcome := Done;
    }

    /** The cubic rule: modulus 11. */
    method DistributeToCubic() returns (outcome: Outcome)
      requires Valid() && base.symmetry == Cubic
      modifies base.entries
      ensures outcome == ExpectedOutcome(Cubic, base.nConstants)
      ensures outcome != Done ==> unchanged(base.entries)
      ensures outcome == Done ==>
        forall i: nat, j: nat | i < 3 && j < 3 ::
          Entry(i, j) == if i == j then Permittivity(Cubic, base.constants[..], i, j) else old(Entry(i, j))
    {
      if base.nConstants != 1 {
        return Failed(WrongModuliCount(1, base.nConstants));
      }
      base.entries[At2(0, 0)] := base.constants[0];
      base.entries[At2(1, 1)] := base.constants[0];
      base.entries[At2(2, 2)] := base.constants[0];
      outcome := Done;
    }
  }
}
