/** Poisson's problem on the test space: the linear system
      A u = b,
      A_ij = int grad phi_i . grad phi_j,
      b_j  = int f phi_j,
    assembled cell by cell with the 2-point Gauss rule from the nodal
    values of the right-hand side f, and solved by conjugate gradients. */
module Poisson {
  import opened Wrappers
  import opened Vectors
  import opened FiniteElements
  import Schroedinger

  /** The contribution of quadrature point q to the cell stiffness entry
      (i, j): grad phi_i . grad phi_j weighted by JxW, non-negative on the
      diagonal when the weight is. */
  function StiffnessTerm(s: Space, c: Cell, q: nat, i: nat, j: nat): (t: real)
    requires CellFits(s, c) && q < s.NQPoints() && i < s.DofsPerCell() && j < s.DofsPerCell()
    ensures i == j && c.jxw[q] >= 0.0 ==> t >= 0.0
  {
    if i == j then
      DotSelfNonNegative(c.grads[i][q]);
      Dot(c.grads[i][q], c.grads[j][q]) * c.jxw[q]
    else
      Dot(c.grads[i][q], c.grads[j][q]) * c.jxw[q]
  }

  /** The contribution of quadrature point q to the cell load entry j:
      f phi_j weighted by JxW. */
  function LoadTerm(s: Space, c: Cell, f: seq<real>, q: nat, j: nat): real
    requires CellFits(s, c) && |f| == s.NQPoints() && q < s.NQPoints() && j < s.DofsPerCell()
  {
    f[q] * c.values[j][q] * c.jxw[q]
  }

  /** The cell stiffness entry (i, j) summed over the first n quadrature
      points; a diagonal entry is non-negative when the weights are. */
  function StiffnessEntry(s: Space, c: Cell, n: nat, i: nat, j: nat): (e: real)
    requires CellFits(s, c) && n <= s.NQPoints() && i < s.DofsPerCell() && j < s.DofsPerCell()
    ensures i == j && (forall q :: 0 <= q < n ==> c.jxw[q] >= 0.0) ==> e >= 0.0
  {
    if n == 0 then 0.0 else StiffnessEntry(s, c, n - 1, i, j) + StiffnessTerm(s, c, n - 1, i, j)
  }

  /** The cell load entry j summed over the first n quadrature points. */
  function LoadEntry(s: Space, c: Cell, f: seq<real>, n: nat, j: nat): real
    requires CellFits(s, c) && |f| == s.NQPoints() && n <= s.NQPoints() && j < s.DofsPerCell()
  {
    if n == 0 then 0.0 else LoadEntry(s, c, f, n - 1, j) + LoadTerm(s, c, f, n - 1, j)
  }

  /** The cell stiffness matrix. */
  function CellStiffness(s: Space, c: Cell): (M: Matrix)
    requires CellFits(s, c)
    ensures IsMatrix(M, s.DofsPerCell(), s.DofsPerCell())
  {
    var d := s.DofsPerCell();
    seq(d, i requires 0 <= i < d => seq(d, j requires 0 <= j < d => StiffnessEntry(s, c, s.NQPoints(), i, j)))
  }

  /** The cell load vector for the right-hand side values f at the points. */
  function CellLoad(s: Space, c: Cell, f: seq<real>): (r: seq<real>)
    requires CellFits(s, c) && |f| == s.NQPoints()
    ensures |r| == s.DofsPerCell()
  {
    seq(s.DofsPerCell(), j requires 0 <= j < s.DofsPerCell() => LoadEntry(s, c, f, s.NQPoints(), j))
  }

  /** The Poisson stiffness entry is the kinetic part of the Schroedinger
      system entry with a unit prefactor and no potential: both assemble
      the same Laplacian. */
  lemma {:induction false} StiffnessIsUnitKineticSystem(s: Space, c: Cell, n: nat, i: nat, j: nat)
    requires CellFits(s, c) && n <= s.NQPoints() && i < s.DofsPerCell() && j < s.DofsPerCell()
    ensures StiffnessEntry(s, c, n, i, j)
         == Schroedinger.SystemEntry(s, c, Ones(s.NQPoints()), ZeroVector(s.NQPoints()), n, i, j)
  {
    if n > 0 {
      StiffnessIsUnitKineticSystem(s, c, n - 1, i, j);
    }
  }

  /** The cell stiffness matrix is symmetric. */
  lemma CellStiffnessSymmetric(s: Space, c: Cell)
    requires CellFits(s, c)
    ensures Symmetric(CellStiffness(s, c), s.DofsPerCell())
  {
    forall i, j | 0 <= i < s.DofsPerCell() && 0 <= j < s.DofsPerCell()
      ensures StiffnessEntry(s, c, s.NQPoints(), i, j) == StiffnessEntry(s, c, s.NQPoints(), j, i)
    {
      StiffnessEntrySymmetric(s, c, s.NQPoints(), i, j);
    }
  }

  lemma {:induction false} StiffnessEntrySymmetric(s: Space, c: Cell, n: nat, i: nat, j: nat)
    requires CellFits(s, c) && n <= s.NQPoints() && i < s.DofsPerCell() && j < s.DofsPerCell()
    ensures StiffnessEntry(s, c, n, i, j) == StiffnessEntry(s, c, n, j, i)
  {
    if n > 0 {
      StiffnessEntrySymmetric(s, c, n - 1, i, j);
      DotSymmetric(c.grads[i][n - 1], c.grads[j][n - 1]);
    }
  }

  /** A zero right-hand side gives a zero cell load. */
  lemma {:induction false} ZeroLoadEntry(s: Space, c: Cell, n: nat, j: nat)
    requires CellFits(s, c) && n <= s.NQPoints() && j < s.DofsPerCell()
    ensures LoadEntry(s, c, ZeroVector(s.NQPoints()), n, j) == 0.0
  {
    if n > 0 {
      ZeroLoadEntry(s, c, n - 1, j);
    }
  }

  /** A source that is non-negative where phi_j and the weights are gives a
      non-negative load entry. */
  lemma {:induction false} LoadEntryNonNegative(s: Space, c: Cell, f: seq<real>, n: nat, j: nat)
    requires CellFits(s, c) && |f| == s.NQPoints() && n <= s.NQPoints() && j < s.DofsPerCell()
    requires forall q :: 0 <= q < n ==> f[q] >= 0.0 && c.values[j][q] >= 0.0 && c.jxw[q] >= 0.0
    ensures LoadEntry(s, c, f, n, j) >= 0.0
  {
    if n > 0 {
      LoadEntryNonNegative(s, c, f, n - 1, j);
      var q := n - 1;
      Schroedinger.NonNegativeTerms(0.0, 0.0, f[q], c.values[j][q], c.jxw[q]);
    }
  }

  /** The cell load is additive in the right-hand side. */
  lemma {:induction false} LoadEntryAdditive(s: Space, c: Cell, f: seq<real>, g: seq<real>, n: nat, j: nat)
    requires CellFits(s, c) && |f| == s.NQPoints() && |g| == s.NQPoints()
    requires n <= s.NQPoints() && j < s.DofsPerCell()
    ensures LoadEntry(s, c, Add(f, g), n, j) == LoadEntry(s, c, f, n, j) + LoadEntry(s, c, g, n, j)
  {
    if n > 0 {
      LoadEntryAdditive(s, c, f, g, n - 1, j);
      LoadTermAdditive(s, c, f, g, n - 1, j);
    }
  }

  lemma LoadTermAdditive(s: Space, c: Cell, f: seq<real>, g: seq<real>, q: nat, j: nat)
    requires CellFits(s, c) && |f| == s.NQPoints() && |g| == s.NQPoints()
    requires q < s.NQPoints() && j < s.DofsPerCell()
    ensures LoadTerm(s, c, Add(f, g), q, j) == LoadTerm(s, c, f, q, j) + LoadTerm(s, c, g, q, j)
  {
    SumTimes(f[q], g[q], c.values[j][q], c.jxw[q]);
  }

  lemma SumTimes(x: real, y: real, v: real, w: real)
    ensures (x + y) * v * w == x * v * w + y * v * w
  {
  }

  /** The cell load is homogeneous in the right-hand side: scaling f by a
      scales every load entry by a. */
  lemma {:induction false} LoadEntryScales(s: Space, c: Cell, a: real, f: seq<real>, n: nat, j: nat)
    requires CellFits(s, c) && |f| == s.NQPoints() && n <= s.NQPoints() && j < s.DofsPerCell()
    ensures LoadEntry(s, c, ScaleVector(a, f), n, j) == a * LoadEntry(s, c, f, n, j)
  {
    if n > 0 {
      LoadEntryScales(s, c, a, f, n - 1, j);
      var q := n - 1;
      LoadTermScales(s, c, a, f, q, j);
      ScaledSum(a, LoadEntry(s, c, f, q, j), LoadTerm(s, c, f, q, j),
                LoadEntry(s, c, ScaleVector(a, f), q, j), LoadTerm(s, c, ScaleVector(a, f), q, j));
    }
  }

  lemma LoadTermScales(s: Space, c: Cell, a: real, f: seq<real>, q: nat, j: nat)
    requires CellFits(s, c) && |f| == s.NQPoints() && q < s.NQPoints() && j < s.DofsPerCell()
    ensures LoadTerm(s, c, ScaleVector(a, f), q, j) == a * LoadTerm(s, c, f, q, j)
  {
    ScaleTimes(a, f[q], c.values[j][q], c.jxw[q]);
  }

  lemma ScaleTimes(a: real, x: real, v: real, w: real)
    ensures (a * x) * v * w == a * (x * v * w)
  {
  }

  /** The cell loop of assemble: for each point and each column j, the i
      loop adds to the stiffness column, then the load entry j is added. */
  method AssembleCell(s: Space, c: Cell, f: seq<real>) returns (cellSystem: Matrix, cellRhs: seq<real>)
    requires CellFits(s, c) && |f| == s.NQPoints()
    ensures cellSystem == CellStiffness(s, c)
    ensures cellRhs == CellLoad(s, c, f)
  {
    var d := s.DofsPerCell();
    var nq := s.NQPoints();
    cellSystem := ZeroMatrix(d, d);
    cellRhs := ZeroVector(d);
    var q := 0;
    while q < nq
      invariant 0 <= q <= nq
      invariant IsMatrix(cellSystem, d, d) && |cellRhs| == d
      invariant forall i, j :: 0 <= i < d && 0 <= j < d ==> cellSystem[i][j] == StiffnessEntry(s, c, q, i, j)
      invariant forall j :: 0 <= j < d ==> cellRhs[j] == LoadEntry(s, c, f, q, j)
    {
      var j := 0;
      while j < d
        invariant 0 <= j <= d
        invariant IsMatrix(cellSystem, d, d) && |cellRhs| == d
        invariant forall i, j' :: 0 <= i < d && 0 <= j' < d ==>
          cellSystem[i][j'] == StiffnessEntry(s, c, if j' < j then q + 1 else q, i, j')
        invariant forall j' :: 0 <= j' < d ==> cellRhs[j'] == LoadEntry(s, c, f, if j' < j then q + 1 else q, j')
      {
        var i := 0;
        while i < d
          invariant 0 <= i <= d
          invariant IsMatrix(cellSystem, d, d)
          invariant forall i', j' :: 0 <= i' < d && 0 <= j' < d ==>
            cellSystem[i'][j'] == StiffnessEntry(s, c, if j' < j || (j' == j && i' < i) then q + 1 else q, i', j')
        {
          cellSystem := cellSystem[i := cellSystem[i][j := cellSystem[i][j] + StiffnessTerm(s, c, q, i, j)]];
          i := i + 1;
        }
        cellRhs := cellRhs[j := cellRhs[j] + LoadTerm(s, c, f, q, j)];
        j := j + 1;
      }
      q := q + 1;
    }
    MatrixEquality(cellSystem, CellStiffness(s, c), d, d);
  }

  /** The global stiffness matrix after adding the cell matrices of the
      first k cells to G: the loop over cells fed with the cell stiffness
      matrices. */
  function AssembledStiffness(s: Space, G: Matrix, k: nat): (R: Matrix)
    requires WellFormed(s) && IsMatrix(G, s.nDofs, s.nDofs) && k <= |s.cells|
    ensures IsMatrix(R, s.nDofs, s.nDofs)
  {
    AssembleCells(G, s.nDofs, CellStiffnesses(s), CellDofs(s), k)
  }

  /** Cell k is distributed into the stiffness matrix after the cells
      before it. */
  lemma StiffnessStep(s: Space, G: Matrix, k: nat)
    requires WellFormed(s) && IsMatrix(G, s.nDofs, s.nDofs) && k < |s.cells|
    ensures CellFits(s, s.cells[k])
    ensures AssembledStiffness(s, G, k + 1)
         == AddLocalMatrix(AssembledStiffness(s, G, k), s.nDofs, CellStiffness(s, s.cells[k]), s.cells[k].dofs)
  {
    var c := s.cells[k];
    assert CellFits(s, c);
    assert CellStiffnesses(s)[k] == CellStiffness(s, c);
    assert CellDofs(s)[k] == c.dofs;
  }

  /** The global load vector after adding the cell loads of the first k
      cells, for the nodal right-hand side f, to g. */
  function AssembledLoad(s: Space, g: seq<real>, k: nat, f: seq<real>): (r: seq<real>)
    requires WellFormed(s) && |g| == s.nDofs && |f| == s.nDofs && k <= |s.cells|
    ensures |r| == s.nDofs
  {
    if k == 0 then g
    else
      var c := s.cells[k - 1];
      AddLocalVector(AssembledLoad(s, g, k - 1, f), CellLoad(s, c, FunctionValues(s, c, f)), c.dofs)
  }

  lemma AssemblyStep(s: Space, G: Matrix, g: seq<real>, k: nat, f: seq<real>)
    requires WellFormed(s) && IsMatrix(G, s.nDofs, s.nDofs) && |g| == s.nDofs && |f| == s.nDofs
    requires k < |s.cells|
    ensures CellFits(s, s.cells[k])
    ensures AssembledStiffness(s, G, k + 1)
         == AddLocalMatrix(AssembledStiffness(s, G, k), s.nDofs, CellStiffness(s, s.cells[k]), s.cells[k].dofs)
    ensures AssembledLoad(s, g, k + 1, f)
         == AddLocalVector(AssembledLoad(s, g, k, f), CellLoad(s, s.cells[k], FunctionValues(s, s.cells[k], f)),
                           s.cells[k].dofs)
  {
    StiffnessStep(s, G, k);
  }

  /** The cell stiffness matrices of all cells, in cell order. */
  function CellStiffnesses(s: Space): (Ls: seq<Matrix>)
    requires WellFormed(s)
    ensures |Ls| == |s.cells|
    ensures CellsFit(Ls, CellDofs(s), s.nDofs)
    ensures forall k :: 0 <= k < |s.cells| ==> Ls[k] == CellStiffness(s, s.cells[k])
  {
    seq(|s.cells|, k requires 0 <= k < |s.cells| => CellStiffness(s, s.cells[k]))
  }

  /** The cell load vectors of all cells for the nodal right-hand side f. */
  function CellLoads(s: Space, f: seq<real>): (ls: seq<seq<real>>)
    requires WellFormed(s) && |f| == s.nDofs
    ensures |ls| == |s.cells|
    ensures forall k :: 0 <= k < |s.cells| ==> |ls[k]| == |s.cells[k].dofs|
    ensures forall k :: 0 <= k < |s.cells| ==> ls[k] == CellLoad(s, s.cells[k], FunctionValues(s, s.cells[k], f))
  {
    seq(|s.cells|, k requires 0 <= k < |s.cells| => CellLoad(s, s.cells[k], FunctionValues(s, s.cells[k], f)))
  }

  /** Global assembly is a sum: every entry (r, c) of the assembled
      stiffness matrix is the starting entry plus the entries of the first
      k cell matrices that land on (r, c) through their degree-of-freedom
      indices. */
  lemma AssembledStiffnessIsSum(s: Space, G: Matrix, k: nat, r: nat, c: nat)
    requires WellFormed(s) && IsMatrix(G, s.nDofs, s.nDofs) && k <= |s.cells| && r < s.nDofs && c < s.nDofs
    ensures AssembledStiffness(s, G, k)[r][c] == G[r][c] + PlacedSum(CellStiffnesses(s), CellDofs(s), k, r, c)
  {
    AssembleCellsIsSum(G, s.nDofs, CellStiffnesses(s), CellDofs(s), k, r, c);
  }

  /** The same for the load vector: entry r is the starting entry plus the
      entries of the first k cell loads that land on r. */
  lemma {:induction false} AssembledLoadIsSum(s: Space, g: seq<real>, k: nat, f: seq<real>, r: nat)
    requires WellFormed(s) && |g| == s.nDofs && |f| == s.nDofs && k <= |s.cells| && r < s.nDofs
    ensures AssembledLoad(s, g, k, f)[r] == g[r] + PlacedEntrySum(CellLoads(s, f), CellDofs(s), k, r)
  {
    if k > 0 {
      AssembledLoadIsSum(s, g, k - 1, f, r);
      var cell := s.cells[k - 1];
      assert CellFits(s, cell);
    }
  }

  /** Assembly onto a symmetric matrix gives a symmetric stiffness
      matrix, as conjugate gradients needs. */
  lemma AssembledStiffnessSymmetric(s: Space, G: Matrix, k: nat)
    requires WellFormed(s) && Symmetric(G, s.nDofs) && k <= |s.cells|
    ensures Symmetric(AssembledStiffness(s, G, k), s.nDofs)
  {
    var Ls := CellStiffnesses(s);
    forall i | 0 <= i < |Ls|
      ensures Symmetric(Ls[i], |CellDofs(s)[i]|)
    {
      var c := s.cells[i];
      assert CellFits(s, c);
      CellStiffnessSymmetric(s, c);
      assert CellDofs(s)[i] == c.dofs;
    }
    AssembleCellsSymmetric(G, s.nDofs, Ls, CellDofs(s), k);
  }

  lemma StiffnessStepSymmetric(s: Space, G: Matrix, k: nat)
    requires WellFormed(s) && IsMatrix(G, s.nDofs, s.nDofs) && 0 < k <= |s.cells|
    requires Symmetric(AssembledStiffness(s, G, k - 1), s.nDofs)
    ensures Symmetric(AssembledStiffness(s, G, k), s.nDofs)
  {
    var c := s.cells[k - 1];
    assert CellFits(s, c);
    CellStiffnessSymmetric(s, c);
    assert CellStiffnesses(s)[k - 1] == CellStiffness(s, c) && CellDofs(s)[k - 1] == c.dofs;
    AssembleCellsStepSymmetric(G, s.nDofs, CellStiffnesses(s), CellDofs(s), k);
  }

  /** A zero right-hand side assembled onto a zero vector gives a zero
      load vector: no charge, no source. */
  lemma {:induction false} ZeroRightHandSide(s: Space, k: nat)
    requires WellFormed(s) && k <= |s.cells|
    ensures AllZero(AssembledLoad(s, ZeroVector(s.nDofs), k, ZeroVector(s.nDofs)))
  {
    if k > 0 {
      ZeroRightHandSide(s, k - 1);
      ZeroLoadStep(s, k);
    }
  }

  lemma ZeroLoadStep(s: Space, k: nat)
    requires WellFormed(s) && 0 < k <= |s.cells|
    requires AllZero(AssembledLoad(s, ZeroVector(s.nDofs), k - 1, ZeroVector(s.nDofs)))
    ensures AllZero(AssembledLoad(s, ZeroVector(s.nDofs), k, ZeroVector(s.nDofs)))
  {
    var c := s.cells[k - 1];
    assert CellFits(s, c);
    var fq := FunctionValues(s, c, ZeroVector(s.nDofs));
    forall q | 0 <= q < s.NQPoints()
      ensures fq[q] == 0.0
    {
      ZeroFunctionValues(s, c, q, s.DofsPerCell());
    }
    assert fq == ZeroVector(s.NQPoints());
    forall j | 0 <= j < s.DofsPerCell()
      ensures CellLoad(s, c, fq)[j] == 0.0
    {
      ZeroLoadEntry(s, c, s.NQPoints(), j);
    }
  }

  /** One pass of the cell loop of assemble_system: cell k's matrix and
      load vector, distributed into the global system assembled so far. */
  method DistributeCell(s: Space, G: Matrix, g: seq<real>, k: nat, f: seq<real>,
                        system: Matrix, rhs: seq<real>) returns (newSystem: Matrix, newRhs: seq<real>)
    requires WellFormed(s) && IsMatrix(G, s.nDofs, s.nDofs) && |g| == s.nDofs && |f| == s.nDofs
    requires k < |s.cells|
    requires system == AssembledStiffness(s, G, k) && rhs == AssembledLoad(s, g, k, f)
    ensures newSystem == AssembledStiffness(s, G, k + 1)
    ensures newRhs == AssembledLoad(s, g, k + 1, f)
  {
    var c := s.cells[k];
    AssemblyStep(s, G, g, k, f);
    var cellSystem, cellRhs := AssembleCell(s, c, FunctionValues(s, c, f));
    newSystem := AddLocalMatrix(system, s.nDofs, cellSystem, c.dofs);
    newRhs := AddLocalVector(rhs, cellRhs, c.dofs);
  }

  /** The cell loop of assemble: every cell's stiffness matrix and load
      vector, added to G and g. */
  method AssembleSystem(s: Space, G: Matrix, g: seq<real>, f: seq<real>) returns (system: Matrix, rhs: seq<real>)
    requires WellFormed(s) && IsMatrix(G, s.nDofs, s.nDofs) && |g| == s.nDofs && |f| == s.nDofs
    ensures system == AssembledStiffness(s, G, |s.cells|)
    ensures rhs == AssembledLoad(s, g, |s.cells|, f)
  {
    system := G;
    rhs := g;
    var k := 0;
    while k < |s.cells|
      invariant 0 <= k <= |s.cells|
      invariant system == AssembledStiffness(s, G, k)
      invariant rhs == AssembledLoad(s, g, k, f)
    {
      system, rhs := DistributeCell(s, G, g, k, f, system, rhs);
      k := k + 1;
    }
  }

  /** What conjugate gradients hands back: the solution and the number of
      steps it took. */
  datatype SolveResult = SolveResult(solution: seq<real>, lastStep: nat)

  /** The tolerance of solve: 1e-8 times the l2 norm of the right-hand side.
      It is non-negative with a non-negative square root, and zero for a
      zero right-hand side when the square root maps zero to zero. */
  function Tolerance(b: seq<real>, sqrt: real -> real): (tol: real)
    ensures (forall x :: x >= 0.0 ==> sqrt(x) >= 0.0) ==> tol >= 0.0
    ensures sqrt(0.0) == 0.0 && AllZero(b) ==> tol == 0.0
  {
    if AllZero(b) then
      ZeroSumOfSquares(b);
      sqrt(SumOfSquares(b)) / 100000000.0
    else sqrt(SumOfSquares(b)) / 100000000.0
  }

  /** Poisson::Problem: the stiffness matrix, the right-hand side, the
      solution, and the zero boundary constraints of the test space. */
  class Problem
  {
    var space: Option<Space>
    var init: bool
    var systemMatrix: Matrix
    var systemVector: seq<real>
    var solutionVector: seq<real>
    var constrained: set<nat>

    /** The space is well formed, and once initialised the stiffness matrix
        is a symmetric n x n matrix and both vectors have length n. */
    predicate Valid()
      reads this
    {
      (space.Some? ==> WellFormed(space.value))
      && (init ==>
            space.Some?
            && Symmetric(systemMatrix, space.value.nDofs)
            && |systemVector| == space.value.nDofs
            && |solutionVector| == space.value.nDofs)
    }

    /** A problem without a test space. */
    constructor ()
      ensures Valid() && !init && space == None
    {
      space := None;
      init := false;
      systemMatrix := [];
      systemVector := [];
      solutionVector := [];
      constrained := {};
    }

    /** A problem on the given test space. */
    constructor OnSpace(s: Space)
      requires WellFormed(s)
      ensures Valid() && !init && space == Some(s)
    {
      space := Some(s);
      init := false;
      systemMatrix := [];
      systemVector := [];
      solutionVector := [];
      constrained := {};
    }

    /** reinit: a zero n x n matrix, zero vectors of length n, and the
        boundary degrees of freedom as the constrained ones. */
    method Reinit()
      requires Valid() && space.Some?
      modifies this
      ensures Valid() && init && space == old(space)
      ensures systemMatrix == ZeroMatrix(space.value.nDofs, space.value.nDofs)
      ensures systemVector == ZeroVector(space.value.nDofs)
      ensures solutionVector == ZeroVector(space.value.nDofs)
      ensures constrained == space.value.boundary
    {
      var n := space.value.nDofs;
      systemMatrix := ZeroMatrix(n, n);
      ZeroMatrixSymmetric(n);
      systemVector := ZeroVector(n);
      solutionVector := ZeroVector(n);
      constrained := space.value.boundary;
      init := true;
    }

    /** assemble: adds the cell stiffness matrices and the cell loads of
        the nodal right-hand side f to the global system; the matrix stays
        symmetric. */
    method Assemble(f: seq<real>)
      requires Valid() && init && |f| == space.value.nDofs
      modifies this
      ensures Valid() && init && space == old(space)
      ensures systemMatrix == AssembledStiffness(space.value, old(systemMatrix), |space.value.cells|)
      ensures systemVector == AssembledLoad(space.value, old(systemVector), |space.value.cells|, f)
      ensures solutionVector == old(solutionVector) && constrained == old(constrained)
    {
      var s := space.value;
      var system, rhs := AssembleSystem(s, systemMatrix, systemVector, f);
      AssembledStiffnessSymmetric(s, systemMatrix, |s.cells|);
      systemMatrix := system;
      systemVector := rhs;
    }

    /** solve: conjugate gradients from the current solution, with at most
        n steps and tolerance 1e-8 times the norm of the right-hand side;
        returns the solver's last step. */
    method Solve(cg: (Matrix, seq<real>, seq<real>, SolverControl) -> SolveResult, sqrt: real -> real)
      returns (lastStep: nat)
      requires Valid() && init
      requires |cg(systemMatrix, solutionVector, systemVector,
                   SolverControl(|solutionVector|, Tolerance(systemVector, sqrt))).solution| == |solutionVector|
      modifies this
      ensures Valid() && init && space == old(space)
      ensures systemMatrix == old(systemMatrix) && systemVector == old(systemVector) && constrained == old(constrained)
      ensures var r := cg(old(systemMatrix), old(solutionVector), old(systemVector),
                          SolverControl(|old(solutionVector)|, Tolerance(old(systemVector), sqrt)));
        solutionVector == r.solution && lastStep == r.lastStep
    {
      var control := SolverControl(|solutionVector|, Tolerance(systemVector, sqrt));
      var r := cg(systemMatrix, solutionVector, systemVector, control);
      solutionVector := r.solution;
      lastStep := r.lastStep;
    }

    /** get_solution_vector: a copy of the solution. */
    method GetSolutionVector() returns (v: seq<real>)
      requires Valid() && init
      ensures v == solutionVector
    {
      v := [];
      var i := 0;
      while i < |solutionVector|
        invariant 0 <= i <= |solutionVector|
        invariant v == solutionVector[..i]
      {
        v := v + [solutionVector[i]];
        i := i + 1;
      }
      assert v == solutionVector[..|solutionVector|];
    }
  }
}
