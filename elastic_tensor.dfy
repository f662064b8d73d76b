/** The elastic (stiffness) tensor C_ijkl, rank 4, filled from a short list
    of moduli given in Voigt order. The Voigt index of a pair (i, j) is
    0, 1, 2 for 11, 22, 33 and 3, 4, 5 for 23, 13, 12 (the usual 1..6 less one).
    Axis indices i, j, k, l are 0, 1, 2; moduli and Voigt slots keep their
    usual 1-based labels (c11, c12, c44, slot 14). */
module ElasticTensor {
  import opened MaterialSymmetry
  import opened TensorBase

  /** Position of C_ijkl in the flat storage. */
  function At(i: nat, j: nat, k: nat, l: nat): nat
  {
    27 * i + 9 * j + 3 * k + l
  }

  /** The storage position determines the four indices. */
  lemma AtInjective()
    ensures forall i: nat, j: nat, k: nat, l: nat, i2: nat, j2: nat, k2: nat, l2: nat
      | i < 3 && j < 3 && k < 3 && l < 3 && i2 < 3 && j2 < 3 && k2 < 3 && l2 < 3
        && At(i, j, k, l) == At(i2, j2, k2, l2)
      :: i == i2 && j == j2 && k == k2 && l == l2
  {
  }

  /** The Voigt index of the index pair (i, j). */
  function Voigt(i: nat, j: nat): (v: nat)
    requires i < 3 && j < 3
    ensures v < 6
    ensures v < 3 <==> i == j
  {
    if i == j then i else 6 - i - j
  }

  /** The unordered Voigt pair {p, q} is {a, b}. */
  predicate SamePair(p: nat, q: nat, a: nat, b: nat)
  {
    (p == a && q == b) || (p == b && q == a)
  }

  /** The groups with a distribution rule. */
  predicate Supported(sym: SymmetryFlag)
  {
    sym == Hexagonal || sym == Trigonal || sym == Cubic
  }

  /** The number of moduli each rule takes: hexagonal 11, 12, 13, 33, 44;
      trigonal 11, 12, 13, 14, 33, 44; cubic 11, 12, 44. */
  function ModuliCount(sym: SymmetryFlag): nat
    requires Supported(sym)
  {
    match sym
    case Hexagonal => 5
    case Trigonal => 6
    case Cubic => 3
  }

  /** What distribute reports for a group and a number of moduli. */
  function ExpectedOutcome(sym: SymmetryFlag, n: nat): Outcome
  {
    if !Supported(sym) then Failed(NotImplemented)
    else if n != ModuliCount(sym) then Failed(WrongModuliCount(ModuliCount(sym), n))
    else Done
  }

  /** The moduli fit the rule of their group. */
  predicate Fits(sym: SymmetryFlag, c: seq<real>)
  {
    Supported(sym) && |c| == ModuliCount(sym)
  }

  /** The Voigt slots (a <= b) the hexagonal rule writes. */
  predicate HexagonalWrites(a: nat, b: nat)
  {
    (a == b && a < 6) || (a == 0 && b == 1) || (a == 0 && b == 2) || (a == 1 && b == 2)
  }

  /** The hexagonal Voigt matrix, upper triangle (a <= b). */
  function HexagonalUpper(c: seq<real>, a: nat, b: nat): real
    requires |c| == 5
  {
    if a == 0 && b == 0 then c[0]
    else if a == 1 && b == 1 then c[0]
    else if a == 0 && b == 1 then c[1]
    else if (a == 0 || a == 1) && b == 2 then c[2]
    else if a == 2 && b == 2 then c[3]
    else if (a == 3 || a == 4) && a == b then c[4]
    else if a == 5 && b == 5 then 0.5 * (c[0] - c[1])
    else 0.0
  }

  /** The Voigt slots (a <= b) the trigonal rule writes. */
  predicate TrigonalWrites(a: nat, b: nat)
  {
    HexagonalWrites(a, b) || (a == 0 && b == 3) || (a == 1 && b == 3) || (a == 4 && b == 5)
  }

  /** The trigonal Voigt matrix, upper triangle (a <= b). */
  function TrigonalUpper(c: seq<real>, a: nat, b: nat): real
    requires |c| == 6
  {
    if a == 0 && b == 0 then c[0]
    else if a == 1 && b == 1 then c[0]
    else if a == 0 && b == 1 then c[1]
    else if (a == 0 || a == 1) && b == 2 then c[2]
    else if a == 0 && b == 3 then c[3]
    else if a == 1 && b == 3 then -c[3]
    else if a == 2 && b == 2 then c[4]
    else if (a == 3 || a == 4) && a == b then c[5]
    else if a == 4 && b == 5 then c[3]
    else if a == 5 && b == 5 then 0.5 * (c[0] - c[1])
    else 0.0
  }

  /** The Voigt slots (a <= b) the cubic rule writes: the same as hexagonal. */
  predicate CubicWrites(a: nat, b: nat)
  {
    HexagonalWrites(a, b)
  }

  /** The cubic Voigt matrix, upper triangle (a <= b), with the 12 slot
      holding the first modulus as the library writes it. */
  function CubicUpper(c: seq<real>, a: nat, b: nat): real
    requires |c| == 3
  {
    if a == 0 && b == 0 then c[0]
    else if a == 1 && b == 1 then c[0]
    else if a == 2 && b == 2 then c[0]
    else if a == 0 && b == 1 then c[0]
    else if (a == 0 || a == 1) && b == 2 then c[1]
    else if (a == 3 || a == 4 || a == 5) && a == b then c[2]
    else 0.0
  }

  /** Whether the rule of the group writes the Voigt slot (a <= b). */
  predicate WrittenUpper(sym: SymmetryFlag, a: nat, b: nat)
    requires Supported(sym)
  {
    match sym
    case Hexagonal => HexagonalWrites(a, b)
    case Trigonal => TrigonalWrites(a, b)
    case Cubic => CubicWrites(a, b)
  }

  /** The value the rule of the group puts in the Voigt slot (a <= b). */
  function UpperModulus(sym: SymmetryFlag, c: seq<real>, a: nat, b: nat): real
    requires Fits(sym, c)
  {
    match sym
    case Hexagonal => HexagonalUpper(c, a, b)
    case Trigonal => TrigonalUpper(c, a, b)
    case Cubic => CubicUpper(c, a, b)
  }

  /** Whether the rule writes the (unordered) Voigt slot {a, b}. */
  predicate Written(sym: SymmetryFlag, a: nat, b: nat)
    requires Supported(sym)
  {
    if a <= b then WrittenUpper(sym, a, b) else WrittenUpper(sym, b, a)
  }

  /** The 6x6 Voigt matrix of the group: symmetric, and zero in every slot
      the rule does not write. */
  function VoigtModulus(sym: SymmetryFlag, c: seq<real>, a: nat, b: nat): real
    requires Fits(sym, c)
  {
    if !Written(sym, a, b) then 0.0
    else if a <= b then UpperModulus(sym, c, a, b)
    else UpperModulus(sym, c, b, a)
  }

  /** The reference stiffness tensor: C_ijkl is the Voigt matrix at (ij, kl). */
  function Stiffness(sym: SymmetryFlag, c: seq<real>, i: nat, j: nat, k: nat, l: nat): real
    requires Fits(sym, c) && i < 3 && j < 3 && k < 3 && l < 3
  {
    VoigtModulus(sym, c, Voigt(i, j), Voigt(k, l))
  }

  /** One chained assignment of the library: writes v to every C_ijkl whose
      Voigt pair is {a, b}, and to nothing else. */
  method SetModulus(e: array<real>, a: nat, b: nat, v: real)
    requires e.Length == 81
    modifies e
    ensures forall i: nat, j: nat, k: nat, l: nat | i < 3 && j < 3 && k < 3 && l < 3 ::
      e[At(i, j, k, l)] == if SamePair(Voigt(i, j), Voigt(k, l), a, b) then v else old(e[At(i, j, k, l)])
  {
    forall i: nat, j: nat, k: nat, l: nat
      | i < 3 && j < 3 && k < 3 && l < 3 && SamePair(Voigt(i, j), Voigt(k, l), a, b)
    {
      e[At(i, j, k, l)] := v;
    }
    AtInjective();
  }

  /** The assignments of the hexagonal rule. */
  method FillHexagonal(e: array<real>, c: seq<real>)
    requires e.Length == 81 && |c| == 5
    modifies e
    ensures forall i: nat, j: nat, k: nat, l: nat | i < 3 && j < 3 && k < 3 && l < 3 ::
      e[At(i, j, k, l)] ==
        if Written(Hexagonal, Voigt(i, j), Voigt(k, l))
        then Stiffness(Hexagonal, c, i, j, k, l) else old(e[At(i, j, k, l)])
  {
    FillNormal(e, c[0], c[1], c[2], c[3]);       // 11 22 12 13 23 33
    SetModulus(e, 3, 3, c[4]);                   // 44
    SetModulus(e, 4, 4, c[4]);                   // 55
    SetModulus(e, 5, 5, 0.5 * (c[0] - c[1]));    // 66
  }

  /** The assignments of the trigonal rule. */
  method FillTrigonal(e: array<real>, c: seq<real>)
    requires e.Length == 81 && |c| == 6
    modifies e
    ensures forall i: nat, j: nat, k: nat, l: nat | i < 3 && j < 3 && k < 3 && l < 3 ::
      e[At(i, j, k, l)] ==
        if Written(Trigonal, Voigt(i, j), Voigt(k, l))
        then Stiffness(Trigonal, c, i, j, k, l) else old(e[At(i, j, k, l)])
  {
    FillNormal(e, c[0], c[1], c[2], c[4]);       // 11 22 12 13 23 33
    FillTrigonalShear(e, c);                     // 14 24 44 55 56 66
  }

  /** The normal-stress block (Voigt slots below 3) shared by the hexagonal
      and trigonal rules: c11 on 11 and 22, c12 on 12, c13 on 13 and 23, and
      c33 on 33. */
  method FillNormal(e: array<real>, c11: real, c12: real, c13: real, c33: real)
    requires e.Length == 81
    modifies e
    ensures forall i: nat, j: nat, k: nat, l: nat | i < 3 && j < 3 && k < 3 && l < 3 ::
      e[At(i, j, k, l)] ==
        if Voigt(i, j) < 3 && Voigt(k, l) < 3 then
          (if Voigt(i, j) == Voigt(k, l) then (if Voigt(i, j) == 2 then c33 else c11)
           else if SamePair(Voigt(i, j), Voigt(k, l), 0, 1) then c12 else c13)
        else old(e[At(i, j, k, l)])
  {
    SetModulus(e, 0, 0, c11);                    // 11
    SetModulus(e, 1, 1, c11);                    // 22 = 11
    SetModulus(e, 0, 1, c12);                    // 12
    SetModulus(e, 0, 2, c13);                    // 13
    SetModulus(e, 1, 2, c13);                    // 23 = 13
    SetModulus(e, 2, 2, c33);                    // 33
  }

  /** The trigonal slots that involve a shear index. */
  method FillTrigonalShear(e: array<real>, c: seq<real>)
    requires e.Length == 81 && |c| == 6
    modifies e
    ensures forall i: nat, j: nat, k: nat, l: nat | i < 3 && j < 3 && k < 3 && l < 3 ::
      e[At(i, j, k, l)] ==
        if (Voigt(i, j) >= 3 || Voigt(k, l) >= 3) && Written(Trigonal, Voigt(i, j), Voigt(k, l))
        then Stiffness(Trigonal, c, i, j, k, l) else old(e[At(i, j, k, l)])
  {
    SetModulus(e, 0, 3, c[3]);                   // 14
    SetModulus(e, 1, 3, -1.0 * c[3]);            // 24 = -14
    SetModulus(e, 3, 3, c[5]);                   // 44
    SetModulus(e, 4, 4, c[5]);                   // 55
    SetModulus(e, 4, 5, c[3]);                   // 56 = 14
    SetModulus(e, 5, 5, 0.5 * (c[0] - c[1]));    // 66
  }

  /** The assignments of the cubic rule, as the library writes them. */
  method FillCubic(e: array<real>, c: seq<real>)
    requires e.Length == 81 && |c| == 3
    modifies e
    ensures forall i: nat, j: nat, k: nat, l: nat | i < 3 && j < 3 && k < 3 && l < 3 ::
      e[At(i, j, k, l)] ==
        if Written(Cubic, Voigt(i, j), Voigt(k, l))
        then Stiffness(Cubic, c, i, j, k, l) else old(e[At(i, j, k, l)])
  {
    FillCubicNormal(e, c);
    SetModulus(e, 3, 3, c[2]);                   // 44
    SetModulus(e, 4, 4, c[2]);                   // 55
    SetModulus(e, 5, 5, c[2]);                   // 66
  }

  /** The normal-stress block of the cubic rule (Voigt slots below 3). */
  method FillCubicNormal(e: array<real>, c: seq<real>)
    requires e.Length == 81 && |c| == 3
    modifies e
    ensures forall i: nat, j: nat, k: nat, l: nat | i < 3 && j < 3 && k < 3 && l < 3 ::
      e[At(i, j, k, l)] ==
        if Voigt(i, j) < 3 && Voigt(k, l) < 3
        then (if Voigt(i, j) == Voigt(k, l) || SamePair(Voigt(i, j), Voigt(k, l), 0, 1) then c[0] else c[1])
        else old(e[At(i, j, k, l)])
  {
    SetModulus(e, 0, 0, c[0]);                   // 11
    SetModulus(e, 1, 1, c[0]);                   // 22
    SetModulus(e, 2, 2, c[0]);                   // 33
    SetModulus(e, 0, 1, c[0]);                   // 12, from the first modulus
    SetModulus(e, 0, 2, c[1]);                   // 13
    SetModulus(e, 1, 2, c[1]);                   // 23
  }

  /** Every Voigt index is the index of some pair. */
  lemma VoigtOnto(v: nat)
    requires v < 6
    ensures exists i: nat, j: nat :: i < 3 && j < 3 && i <= j && Voigt(i, j) == v
  {
    if v < 3 {
      assert Voigt(v, v) == v;
    } else if v == 3 {
      assert Voigt(1, 2) == 3;
    } else if v == 4 {
      assert Voigt(0, 2) == 4;
    } else {
      assert Voigt(0, 1) == 5;
    }
  }

  /** No modulus is lost: every slot (a, b) of the group's 6x6 Voigt matrix
      is stored in some C_ijkl of the reference tensor, which Distribute
      writes entry for entry. */
  lemma EveryVoigtSlotStored(sym: SymmetryFlag, c: seq<real>, a: nat, b: nat)
    requires Fits(sym, c) && a < 6 && b < 6
    ensures exists i: nat, j: nat, k: nat, l: nat ::
              i < 3 && j < 3 && k < 3 && l < 3 && Voigt(i, j) == a && Voigt(k, l) == b &&
              Stiffness(sym, c, i, j, k, l) == VoigtModulus(sym, c, a, b)
  {
    VoigtOnto(a);
    VoigtOnto(b);
    var i: nat, j: nat :| i < 3 && j < 3 && i <= j && Voigt(i, j) == a;
    var k: nat, l: nat :| k < 3 && l < 3 && k <= l && Voigt(k, l) == b;
    assert Stiffness(sym, c, i, j, k, l) == VoigtModulus(sym, c, a, b);
  }

  /** The reference tensor has the minor and major symmetries of a
      stiffness tensor. */
  lemma StiffnessSymmetries(sym: SymmetryFlag, c: seq<real>, i: nat, j: nat, k: nat, l: nat)
    requires Fits(sym, c) && i < 3 && j < 3 && k < 3 && l < 3
    ensures Stiffness(sym, c, i, j, k, l) == Stiffness(sym, c, j, i, k, l)
    ensures Stiffness(sym, c, i, j, k, l) == Stiffness(sym, c, i, j, l, k)
    ensures Stiffness(sym, c, i, j, k, l) == Stiffness(sym, c, k, l, i, j)
  {
  }

  /** How many of the four indices lie along the second or third axis. */
  function OffAxisCount(i: nat, j: nat, k: nat, l: nat): nat
  {
    (if i == 0 then 0 else 1) + (if j == 0 then 0 else 1)
    + (if k == 0 then 0 else 1) + (if l == 0 then 0 else 1)
  }

  /** All three rules are invariant under the half turn about the first
      axis (y -> -y, z -> -z): an entry that this rotation flips in sign,
      one with an odd number of indices off that axis, is zero. */
  lemma HalfTurnAboutFirstAxis(sym: SymmetryFlag, c: seq<real>, i: nat, j: nat, k: nat, l: nat)
    requires Fits(sym, c) && i < 3 && j < 3 && k < 3 && l < 3
    requires OffAxisCount(i, j, k, l) % 2 == 1
    ensures Stiffness(sym, c, i, j, k, l) == 0.0
  {
  }

  /** Exchanges the first and second axes. */
  function SwapFirstTwo(i: nat): nat
  {
    if i == 0 then 1 else if i == 1 then 0 else i
  }

  /** The hexagonal tensor is unchanged when the first two axes are
      exchanged (it is transversely isotropic about the third axis). */
  lemma HexagonalSwapsFirstTwoAxes(c: seq<real>, i: nat, j: nat, k: nat, l: nat)
    requires |c| == 5 && i < 3 && j < 3 && k < 3 && l < 3
    ensures Stiffness(Hexagonal, c, SwapFirstTwo(i), SwapFirstTwo(j), SwapFirstTwo(k), SwapFirstTwo(l))
         == Stiffness(Hexagonal, c, i, j, k, l)
  {
  }

  /** The trigonal tensor is not: exchanging the first two axes turns C_0012
      (Voigt 14) into C_1102 (Voigt 25 = 0) while c14 is the fourth modulus. */
  lemma TrigonalCouplesNormalAndShear(c: seq<real>)
    requires |c| == 6
    ensures Stiffness(Trigonal, c, 0, 0, 1, 2) == c[3]
    ensures Stiffness(Trigonal, c, 1, 1, 1, 2) == -c[3]
    ensures Stiffness(Trigonal, c, 0, 2, 0, 1) == c[3]
    ensures Stiffness(Trigonal, c, 1, 1, 0, 2) == 0.0
  {
  }

  /** The named hexagonal entries. */
  lemma HexagonalEntries(c: seq<real>)
    requires |c| == 5
    ensures Stiffness(Hexagonal, c, 0, 0, 0, 0) == c[0] && Stiffness(Hexagonal, c, 1, 1, 1, 1) == c[0]
    ensures Stiffness(Hexagonal, c, 0, 0, 1, 1) == c[1]
    ensures Stiffness(Hexagonal, c, 0, 0, 2, 2) == c[2] && Stiffness(Hexagonal, c, 1, 1, 2, 2) == c[2]
    ensures Stiffness(Hexagonal, c, 2, 2, 2, 2) == c[3]
    ensures Stiffness(Hexagonal, c, 1, 2, 1, 2) == c[4] && Stiffness(Hexagonal, c, 0, 2, 0, 2) == c[4]
    ensures Stiffness(Hexagonal, c, 0, 1, 0, 1) == 0.5 * (c[0] - c[1])
  {
  }

  /** The cubic tensor as written: C_0011 holds c11 while C_0022 holds c12,
      so exchanging the second and third axes changes the tensor whenever
      the first two moduli differ. */
  lemma CubicAsWrittenBreaksAxisSymmetry(c: seq<real>)
    requires |c| == 3 && c[0] != c[1]
    ensures Stiffness(Cubic, c, 0, 0, 1, 1) == c[0]
    ensures Stiffness(Cubic, c, 0, 0, 2, 2) == c[1]
    ensures Stiffness(Cubic, c, 0, 0, 1, 1) != Stiffness(Cubic, c, 0, 0, 2, 2)
  {
  }

  /** The cubic Voigt matrix with 11, 12, 44 each in its own slots. */
  function CorrectedCubicUpper(c: seq<real>, a: nat, b: nat): real
    requires |c| == 3
  {
    if a == b && a < 3 then c[0]
    else if a < b && b < 3 then c[1]
    else if a == b && a < 6 then c[2]
    else 0.0
  }

  /** The corrected cubic stiffness tensor. */
  function CorrectedCubicStiffness(c: seq<real>, i: nat, j: nat, k: nat, l: nat): real
    requires |c| == 3 && i < 3 && j < 3 && k < 3 && l < 3
  {
    var a := Voigt(i, j);
    var b := Voigt(k, l);
    if a <= b then CorrectedCubicUpper(c, a, b) else CorrectedCubicUpper(c, b, a)
  }

  /** p is a permutation of the three axes. */
  predicate AxisPermutation(p: seq<nat>)
  {
    |p| == 3 && p[0] < 3 && p[1] < 3 && p[2] < 3
    && p[0] != p[1] && p[0] != p[2] && p[1] != p[2]
  }

  /** The corrected cubic tensor is unchanged by every permutation of the
      axes, the symmetry that defines the cubic group. */
  lemma CorrectedCubicAxisSymmetric(c: seq<real>, p: seq<nat>, i: nat, j: nat, k: nat, l: nat)
    requires |c| == 3 && AxisPermutation(p) && i < 3 && j < 3 && k < 3 && l < 3
    ensures CorrectedCubicStiffness(c, p[i], p[j], p[k], p[l]) == CorrectedCubicStiffness(c, i, j, k, l)
  {
  }

  /** The corrected tensor agrees with the written one everywhere except on
      the Voigt slot 12, the entries C_0011 and C_1100. */
  lemma CorrectedCubicDiffersOnlyInSlot12(c: seq<real>, i: nat, j: nat, k: nat, l: nat)
    requires |c| == 3 && i < 3 && j < 3 && k < 3 && l < 3
    ensures !SamePair(Voigt(i, j), Voigt(k, l), 0, 1) ==>
      CorrectedCubicStiffness(c, i, j, k, l) == Stiffness(Cubic, c, i, j, k, l)
    ensures SamePair(Voigt(i, j), Voigt(k, l), 0, 1) ==>
      CorrectedCubicStiffness(c, i, j, k, l) == c[1] && Stiffness(Cubic, c, i, j, k, l) == c[0]
  {
  }

  class ElasticTensor {
    /** The rank-4 tensor base that holds the moduli and the entries. */
    const base: TensorBase

    ghost predicate Valid()
      reads this, base
    {
      base.Valid() && base.rank == 4 && base.entries.Length == 81
    }

    /** Builds the rank-4 base from a non-empty list of moduli. */
    constructor (moduli: seq<real>)
      requires |moduli| != 0
      ensures Valid() && fresh(base) && fresh(base.entries) && fresh(base.constants)
      ensures base.nConstants == |moduli| && base.constants[..] == moduli
      ensures forall n :: 0 <= n < base.entries.Length ==> base.entries[n] == 0.0
    {
      ComponentsOfUsedRanks();
      base := new TensorBase(4, moduli);
    }

    /** The entry C_ijkl. */
    ghost function Entry(i: nat, j: nat, k: nat, l: nat): real
      reads this, base, base.entries
      requires Valid() && i < 3 && j < 3 && k < 3 && l < 3
    {
      base.entries[At(i, j, k, l)]
    }

    /** Clears the tensor and applies the rule of the stored group. Every
        entry is then the reference stiffness of the group; an unsupported
        group or a wrong number of moduli fails and leaves the zero tensor. */
    method Distribute() returns (outcome: Outcome)
      requires Valid()
      modifies base.entries
      ensures outcome == ExpectedOutcome(base.symmetry, base.nConstants)
      ensures outcome == Done ==> Fits(base.symmetry, base.constants[..])
      ensures outcome == Done ==>
        forall i: nat, j: nat, k: nat, l: nat | i < 3 && j < 3 && k < 3 && l < 3 ::
          Entry(i, j, k, l) == Stiffness(base.symmetry, base.constants[..], i, j, k, l)
      ensures outcome != Done ==> forall n :: 0 <= n < base.entries.Length ==> base.entries[n] == 0.0
    {
      base.Clear();
      match base.symmetry
      case Hexagonal =>
        outcome := DistributeToHexagonal();
      case Trigonal =>
        outcome := DistributeToTrigonal();
      case Cubic =>
        outcome := DistributeToCubic();
      case _ =>
        outcome := Failed(NotImplemented);
    }

    /** The hexagonal rule: five moduli 11, 12, 13, 33, 44. */
    method DistributeToHexagonal() returns (outcome: Outcome)
      requires Valid() && base.symmetry == Hexagonal
      modifies base.entries
      ensures outcome == ExpectedOutcome(Hexagonal, base.nConstants)
      ensures outcome != Done ==> unchanged(base.entries)
      ensures outcome == Done ==>
        forall i: nat, j: nat, k: nat, l: nat | i < 3 && j < 3 && k < 3 && l < 3 ::
          Entry(i, j, k, l) ==
            if Written(Hexagonal, Voigt(i, j), Voigt(k, l))
            then Stiffness(Hexagonal, base.constants[..], i, j, k, l)
            else old(Entry(i, j, k, l))
    {
      if base.nConstants != 5 {
        return Failed(WrongModuliCount(5, base.nConstants));
      }
      FillHexagonal(base.entries, base.constants[..]);
      outcome := Done;
    }

    /** The trigonal rule (point group 32): six moduli 11, 12, 13, 14, 33, 44. */
    method DistributeToTrigonal() returns (outcome: Outcome)
      requires Valid() && base.symmetry == Trigonal
      modifies base.entries
      ensures outcome == ExpectedOutcome(Trigonal, base.nConstants)
      ensures outcome != Done ==> unchanged(base.entries)
      ensures outcome == Done ==>
        forall i: nat, j: nat, k: nat, l: nat | i < 3 && j < 3 && k < 3 && l < 3 ::
          Entry(i, j, k, l) ==
            if Written(Trigonal, Voigt(i, j), Voigt(k, l))
            then Stiffness(Trigonal, base.constants[..], i, j, k, l)
            else old(Entry(i, j, k, l))
    {
      if base.nConstants != 6 {
        return Failed(WrongModuliCount(6, base.nConstants));
      }
      FillTrigonal(base.entries, base.constants[..]);
      outcome := Done;
    }

    /** The cubic rule: three moduli 11, 12, 44, with the 12 slot filled from
        the first modulus as the library writes it. */
    method DistributeToCubic() returns (outcome: Outcome)
      requires Valid() && base.symmetry == Cubic
      modifies base.entries
      ensures outcome == ExpectedOutcome(Cubic, base.nConstants)
      ensures outcome != Done ==> unchanged(base.entries)
      ensures outcome == Done ==>
        forall i: nat, j: nat, k: nat, l: nat | i < 3 && j < 3 && k < 3 && l < 3 ::
          Entry(i, j, k, l) ==
            if Written(Cubic, Voigt(i, j), Voigt(k, l))
            then Stiffness(Cubic, base.constants[..], i, j, k, l)
            else old(Entry(i, j, k, l))
    {
      if base.nConstants != 3 {
        return Failed(WrongModuliCount(3, base.nConstants));
      }
      FillCubic(base.entries, base.constants[..]);
      outcome := Done;
    }
  }
}
