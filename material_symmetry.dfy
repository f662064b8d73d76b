/** The crystal symmetry flags and the stream operator that writes the name
    of a flag. The enumerators are numbered 0 to 7, but the operator tests
    them with a bitwise AND as if they were bit flags. */
module MaterialSymmetry {

  /** The enumerators of SymmetryFlag; their values are given by Code. */
  datatype SymmetryFlag =
    | Null | Triclinic | Monoclinic | Orthorhombic | Tetragonal | Trigonal | Hexagonal | Cubic

  /** The numeric value of each enumerator. */
  function Code(f: SymmetryFlag): (v: bv8)
    ensures v <= 7
    ensures v == 0 <==> f == Null
  {
    match f
    case Null => 0x00
    case Triclinic => 0x01
    case Monoclinic => 0x02
    case Orthorhombic => 0x03
    case Tetragonal => 0x04
    case Trigonal => 0x05
    case Hexagonal => 0x06
    case Cubic => 0x07
  }

  /** The values are fixed and distinct, so the enumeration is a bijection onto 0..7. */
  lemma CodeInjective(f: SymmetryFlag, g: SymmetryFlag)
    ensures Code(f) == Code(g) <==> f == g
  {
    match f
    case Null =>
    case Triclinic =>
    case Monoclinic =>
    case Orthorhombic =>
    case Tetragonal =>
    case Trigonal =>
    case Hexagonal =>
    case Cubic =>
  }

  /** The name the operator writes for an enumerator. */
  function Name(f: SymmetryFlag): string
  {
    match f
    case Null => "null"
    case Triclinic => "triclinic"
    case Monoclinic => "monoclinic"
    case Orthorhombic => "orthorhombic"
    case Tetragonal => "tetragonal"
    case Trigonal => "trigonal"
    case Hexagonal => "hexagonal"
    case Cubic => "cubic"
  }

  /** What the operator always writes first. */
  const PREFIX: string := "   SymmetryFlag::Crystal "

  /** The test `symmetry_flag & g` that guards the name of g. */
  predicate Selects(flag: SymmetryFlag, g: SymmetryFlag)
  {
    Code(flag) & Code(g) != 0
  }

  /** The names the operator writes after the prefix, in the order it writes
      them: one conditional per enumerator, null first and cubic last. */
  function Emitted(flag: SymmetryFlag): seq<SymmetryFlag>
  {
    (if Selects(flag, Null) then [Null] else [])
    + (if Selects(flag, Triclinic) then [Triclinic] else [])
    + (if Selects(flag, Monoclinic) then [Monoclinic] else [])
    + (if Selects(flag, Orthorhombic) then [Orthorhombic] else [])
    + (if Selects(flag, Tetragonal) then [Tetragonal] else [])
    + (if Selects(flag, Trigonal) then [Trigonal] else [])
    + (if Selects(flag, Hexagonal) then [Hexagonal] else [])
    + (if Selects(flag, Cubic) then [Cubic] else [])
  }

  /** What the operator writes for each flag, worked out bit by bit. */
  lemma EmittedTable(flag: SymmetryFlag)
    ensures Emitted(flag) ==
      match flag
      case Null => []
      case Triclinic => [Triclinic, Orthorhombic, Trigonal, Cubic]
      case Monoclinic => [Monoclinic, Orthorhombic, Hexagonal, Cubic]
      case Orthorhombic => [Triclinic, Monoclinic, Orthorhombic, Trigonal, Hexagonal, Cubic]
      case Tetragonal => [Tetragonal, Trigonal, Hexagonal, Cubic]
      case Trigonal => [Triclinic, Orthorhombic, Tetragonal, Trigonal, Hexagonal, Cubic]
      case Hexagonal => [Monoclinic, Orthorhombic, Tetragonal, Trigonal, Hexagonal, Cubic]
      case Cubic => [Triclinic, Monoclinic, Orthorhombic, Tetragonal, Trigonal, Hexagonal, Cubic]
  {
  }

  /** A name is written exactly when its value shares a bit with the flag. */
  lemma EmittedExactlySelected(flag: SymmetryFlag, g: SymmetryFlag)
    ensures g in Emitted(flag) <==> Selects(flag, g)
  {
    EmittedTable(flag);
    match g
    case Null =>
    case Triclinic =>
    case Monoclinic =>
    case Orthorhombic =>
    case Tetragonal =>
    case Trigonal =>
    case Hexagonal =>
    case Cubic =>
  }

  /** The names come out in increasing order of their values. */
  lemma EmittedInOrder(flag: SymmetryFlag, i: nat, j: nat)
    requires i < j < |Emitted(flag)|
    ensures Code(Emitted(flag)[i]) < Code(Emitted(flag)[j])
  {
    EmittedNeighboursInOrder(flag);
    OrderFromNeighbours(Emitted(flag), i, j);
  }

  /** Each value in fs is below the next one. */
  predicate NeighboursInOrder(fs: seq<SymmetryFlag>)
  {
    forall k :: 0 <= k < |fs| - 1 ==> Code(fs[k]) < Code(fs[k + 1])
  }

  lemma EmittedNeighboursInOrder(flag: SymmetryFlag)
    ensures NeighboursInOrder(Emitted(flag))
  {
    EmittedTable(flag);
    match flag
    case Null =>
    case Triclinic => InOrder4(Triclinic, Orthorhombic, Trigonal, Cubic);
    case Monoclinic => InOrder4(Monoclinic, Orthorhombic, Hexagonal, Cubic);
    case Orthorhombic => InOrder6(Triclinic, Monoclinic, Orthorhombic, Trigonal, Hexagonal, Cubic);
    case Tetragonal => InOrder4(Tetragonal, Trigonal, Hexagonal, Cubic);
    case Trigonal => InOrder6(Triclinic, Orthorhombic, Tetragonal, Trigonal, Hexagonal, Cubic);
    case Hexagonal => InOrder6(Monoclinic, Orthorhombic, Tetragonal, Trigonal, Hexagonal, Cubic);
    case Cubic =>
      InOrder6(Monoclinic, Orthorhombic, Tetragonal, Trigonal, Hexagonal, Cubic);
      assert Emitted(flag) == [Triclinic] + [Monoclinic, Orthorhombic, Tetragonal, Trigonal, Hexagonal, Cubic];
  }

  lemma InOrder4(a: SymmetryFlag, b: SymmetryFlag, c: SymmetryFlag, d: SymmetryFlag)
    requires Code(a) < Code(b) < Code(c) < Code(d)
    ensures NeighboursInOrder([a, b, c, d])
  {
  }

  lemma InOrder6(a: SymmetryFlag, b: SymmetryFlag, c: SymmetryFlag, d: SymmetryFlag, e: SymmetryFlag, f: SymmetryFlag)
    requires Code(a) < Code(b) < Code(c) < Code(d) < Code(e) < Code(f)
    ensures NeighboursInOrder([a, b, c, d, e, f])
  {
  }

  /** Order between neighbours gives order between any two positions. */
  lemma {:induction false} OrderFromNeighbours(fs: seq<SymmetryFlag>, i: nat, j: nat)
    requires NeighboursInOrder(fs) && i < j < |fs|
    ensures Code(fs[i]) < Code(fs[j])
  {
    if i + 1 < j {
      OrderFromNeighbours(fs, i, j - 1);
      assert Code(fs[j - 1]) < Code(fs[j]);
    }
  }

  /** The concatenated names of a sequence of flags. */
  function Names(fs: seq<SymmetryFlag>): string
  {
    if fs == [] then "" else Name(fs[0]) + Names(fs[1..])
  }

  /** Everything `operator <<` writes to the stream for a flag. */
  function Write(flag: SymmetryFlag): (s: string)
    ensures |s| >= |PREFIX| && s[..|PREFIX|] == PREFIX
  {
    PREFIX + Names(Emitted(flag))
  }

  /** "null" is never written: x & 0 is 0 for every x. */
  lemma NullNeverEmitted(flag: SymmetryFlag)
    ensures Null !in Emitted(flag)
  {
    EmittedTable(flag);
  }

  /** The null flag selects nothing, so only the prefix is written. */
  lemma NullWritesOnlyPrefix()
    ensures Emitted(Null) == []
    ensures Write(Null) == PREFIX
  {
  }

  /** Every other flag selects itself (f & f = f) and cubic (f & 7 = f),
      and cubic is always the last name written. */
  lemma NonNullEmitsItselfAndCubic(flag: SymmetryFlag)
    requires flag != Null
    ensures flag in Emitted(flag) && Cubic in Emitted(flag)
    ensures Emitted(flag)[|Emitted(flag)| - 1] == Cubic
  {
    EmittedTable(flag);
  }

  /** As written, no flag is named by its own name alone: every non-null flag
      also drags in cubic (and more), and null drags in nothing. */
  lemma NoFlagWrittenAlone(flag: SymmetryFlag)
    ensures Emitted(flag) != [flag]
  {
    EmittedTable(flag);
  }

  /** The flags the operator evidently means to name: the one it is given.
      This tests equality instead of a bitwise AND. */
  function CorrectedEmitted(flag: SymmetryFlag): (r: seq<SymmetryFlag>)
    ensures r == [flag]
  {
    (if flag == Null then [Null] else [])
    + (if flag == Triclinic then [Triclinic] else [])
    + (if flag == Monoclinic then [Monoclinic] else [])
    + (if flag == Orthorhombic then [Orthorhombic] else [])
    + (if flag == Tetragonal then [Tetragonal] else [])
    + (if flag == Trigonal then [Trigonal] else [])
    + (if flag == Hexagonal then [Hexagonal] else [])
    + (if flag == Cubic then [Cubic] else [])
  }

  /** The corrected operator writes the prefix and then the flag's name. */
  function CorrectedWrite(flag: SymmetryFlag): (s: string)
    ensures s == PREFIX + Name(flag)
  {
    assert Names([flag]) == Name(flag) + Names([]) by {
      assert [flag][1..] == [];
    }
    PREFIX + Names(CorrectedEmitted(flag))
  }

  /** With the correction, different flags are written differently, and the
      text after the prefix is exactly the flag's name. */
  lemma CorrectedWriteInjective(f: SymmetryFlag, g: SymmetryFlag)
    ensures CorrectedWrite(f) == CorrectedWrite(g) <==> f == g
  {
    if CorrectedWrite(f) == CorrectedWrite(g) {
      assert CorrectedWrite(f)[|PREFIX|..] == Name(f);
      assert CorrectedWrite(g)[|PREFIX|..] == Name(g);
      match f
      case Null =>
      case Triclinic =>
      case Monoclinic =>
      case Orthorhombic =>
      case Tetragonal =>
      case Trigonal =>
      case Hexagonal =>
      case Cubic =>
    }
  }
}
