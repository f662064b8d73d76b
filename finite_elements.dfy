/** The finite-element data the two problems assemble from: a test space of
    continuous Q1 elements given cell by cell, with the shape values,
    shape gradients and quadrature weights (JxW) of the 2-point Gauss rule
    already evaluated on every cell, and the dense matrices and vectors the
    global systems are written into. */
module FiniteElements {
  import opened Vectors

  type Matrix = seq<seq<real>>

  /** M has r rows of c entries. */
  predicate IsMatrix(M: Matrix, r: nat, c: nat)
  {
    |M| == r && forall i :: 0 <= i < r ==> |M[i]| == c
  }

  /** The entry of M in row i and column j. */
  function Entry(M: Matrix, i: nat, j: nat): real
    requires i < |M| && j < |M[i]|
  {
    M[i][j]
  }

  /** M is a symmetric n x n matrix. */
  predicate Symmetric(M: Matrix, n: nat)
  {
    IsMatrix(M, n, n) && forall i, j :: 0 <= i < n && 0 <= j < n ==> Entry(M, i, j) == Entry(M, j, i)
  }

  /** The n x m zero matrix. */
  function ZeroMatrix(n: nat, m: nat): (Z: Matrix)
    ensures IsMatrix(Z, n, m) && forall i, j :: 0 <= i < n && 0 <= j < m ==> Z[i][j] == 0.0
  {
    seq(n, _ => seq(m, _ => 0.0))
  }

  /** Two matrices of the same shape with the same entries are equal. */
  lemma MatrixEquality(A: Matrix, B: Matrix, r: nat, c: nat)
    requires IsMatrix(A, r, c) && IsMatrix(B, r, c)
    requires forall i, j :: 0 <= i < r && 0 <= j < c ==> A[i][j] == B[i][j]
    ensures A == B
  {
    forall i | 0 <= i < r
      ensures A[i] == B[i]
    {
      assert forall j :: 0 <= j < c ==> A[i][j] == B[i][j];
    }
  }

  /** The zero matrix is symmetric. */
  lemma ZeroMatrixSymmetric(n: nat)
    ensures Symmetric(ZeroMatrix(n, n), n)
  {
  }

  /** The Euclidean inner product of two vectors of the same length. */
  function Dot(u: seq<real>, v: seq<real>): real
    requires |u| == |v|
  {
    if |u| == 0 then 0.0 else u[0] * v[0] + Dot(u[1..], v[1..])
  }

  /** The inner product is symmetric. */
  lemma {:induction false} DotSymmetric(u: seq<real>, v: seq<real>)
    requires |u| == |v|
    ensures Dot(u, v) == Dot(v, u)
  {
    if |u| > 0 {
      DotSymmetric(u[1..], v[1..]);
    }
  }

  /** A vector's inner product with itself is non-negative. */
  lemma {:induction false} DotSelfNonNegative(u: seq<real>)
    ensures Dot(u, u) >= 0.0
  {
    if |u| > 0 {
      DotSelfNonNegative(u[1..]);
      if u[0] < 0.0 {
        assert u[0] * u[0] == (-u[0]) * (-u[0]);
      }
    }
  }

  /** The number of points of the 2-point Gauss rule in dim dimensions, and
      the number of degrees of freedom of a Q1 cell: 2^dim. */
  function TwoToThe(dim: nat): nat
  {
    if dim == 0 then 1 else 2 * TwoToThe(dim - 1)
  }

  /** One cell of the test space: the global indices of its degrees of
      freedom, the shape values values[i][q] and gradients grads[i][q] of
      its local degree of freedom i at quadrature point q, and the
      quadrature weights times the Jacobian jxw[q]. */
  datatype Cell = Cell(dofs: seq<nat>, values: seq<seq<real>>, grads: seq<seq<seq<real>>>, jxw: seq<real>)

  /** The test space: dimension, number of degrees of freedom, its cells,
      and the degrees of freedom on the boundary. */
  datatype Space = Space(dim: nat, nDofs: nat, cells: seq<Cell>, boundary: set<nat>)
  {
    function DofsPerCell(): nat { TwoToThe(dim) }
    function NQPoints(): nat { TwoToThe(dim) }
  }

  /** The cell has the shape the space promises: distinct global indices
      below nDofs, and a value, a gradient and a weight at every point. */
  predicate CellFits(s: Space, c: Cell)
  {
    var dpc := s.DofsPerCell();
    var nq := s.NQPoints();
    |c.dofs| == dpc
    && (forall i :: 0 <= i < dpc ==> c.dofs[i] < s.nDofs)
    && (forall i, j :: 0 <= i < j < dpc ==> c.dofs[i] != c.dofs[j])
    && |c.values| == dpc && (forall i :: 0 <= i < dpc ==> |c.values[i]| == nq)
    && |c.grads| == dpc
    && (forall i :: 0 <= i < dpc ==> |c.grads[i]| == nq)
    && (forall i, q :: 0 <= i < dpc && 0 <= q < nq ==> |c.grads[i][q]| == s.dim)
    && |c.jxw| == nq
  }

  /** Every cell fits the space. */
  predicate WellFormed(s: Space)
  {
    forall k :: 0 <= k < |s.cells| ==> CellFits(s, s.cells[k])
  }

  /** The finite-element function with nodal values v at point q of a
      cell, summed over the first n local degrees of freedom. */
  function ValueAt(s: Space, c: Cell, v: seq<real>, q: nat, n: nat): real
    requires CellFits(s, c) && |v| == s.nDofs && q < s.NQPoints() && n <= s.DofsPerCell()
  {
    if n == 0 then 0.0 else ValueAt(s, c, v, q, n - 1) + v[c.dofs[n - 1]] * c.values[n - 1][q]
  }

  /** get_function_values: the finite-element function with nodal values v
      at every quadrature point of the cell. */
  function FunctionValues(s: Space, c: Cell, v: seq<real>): (r: seq<real>)
    requires CellFits(s, c) && |v| == s.nDofs
    ensures |r| == s.NQPoints()
  {
    seq(s.NQPoints(), q requires 0 <= q < s.NQPoints() => ValueAt(s, c, v, q, s.DofsPerCell()))
  }

  /** A zero nodal vector has zero values everywhere on the cell. */
  lemma {:induction false} ZeroFunctionValues(s: Space, c: Cell, q: nat, n: nat)
    requires CellFits(s, c) && q < s.NQPoints() && n <= s.DofsPerCell()
    ensures ValueAt(s, c, ZeroVector(s.nDofs), q, n) == 0.0
  {
    if n > 0 {
      ZeroFunctionValues(s, c, q, n - 1);
    }
  }

  /** Position of a global index among the cell's distinct indices. */
  function LocalIndex(dofs: seq<nat>, r: nat): (i: nat)
    requires r in dofs
    ensures i < |dofs| && dofs[i] == r
  {
    if dofs[0] == r then 0 else 1 + LocalIndex(dofs[1..], r)
  }

  /** The indices are pairwise distinct. */
  predicate Distinct(dofs: seq<nat>)
  {
    forall i, j :: 0 <= i < j < |dofs| ==> dofs[i] != dofs[j]
  }

  /** distribute_local_to_global for a cell matrix: adds the local entry
      (i, j) to the global entry (dofs[i], dofs[j]). */
  function AddLocalMatrix(G: Matrix, n: nat, L: Matrix, dofs: seq<nat>): (R: Matrix)
    requires IsMatrix(G, n, n) && IsMatrix(L, |dofs|, |dofs|) && Distinct(dofs)
    requires forall i :: 0 <= i < |dofs| ==> dofs[i] < n
    ensures IsMatrix(R, n, n)
    ensures forall i, j :: 0 <= i < |dofs| && 0 <= j < |dofs| ==> R[dofs[i]][dofs[j]] == G[dofs[i]][dofs[j]] + L[i][j]
    ensures forall r, c :: 0 <= r < n && 0 <= c < n && !(r in dofs && c in dofs) ==> R[r][c] == G[r][c]
    ensures forall r, c {:trigger R[r][c]} :: 0 <= r < n && 0 <= c < n ==> R[r][c] == G[r][c] + Placed(L, dofs, r, c)
  {
    var R := AddLocalRows(G, n, L, dofs, n);
    assert forall i :: 0 <= i < |dofs| ==> LocalIndex(dofs, dofs[i]) == i;
    R
  }

  /** The cell matrix L seen at the global position (r, c): its entry there
      when both indices are degrees of freedom of the cell, zero otherwise. */
  function Placed(L: Matrix, dofs: seq<nat>, r: nat, c: nat): real
    requires IsMatrix(L, |dofs|, |dofs|)
  {
    if r in dofs && c in dofs then L[LocalIndex(dofs, r)][LocalIndex(dofs, c)] else 0.0
  }

  /** The cell vector l seen at the global index r. */
  function PlacedEntry(l: seq<real>, dofs: seq<nat>, r: nat): real
    requires |l| == |dofs|
  {
    if r in dofs then l[LocalIndex(dofs, r)] else 0.0
  }

  /** The sum over the first k cells of their matrices Ls seen at the global
      position (r, c), the cells' indices being dofss. */
  function PlacedSum(Ls: seq<Matrix>, dofss: seq<seq<nat>>, k: nat, r: nat, c: nat): real
    requires k <= |Ls| && k <= |dofss|
    requires forall i :: 0 <= i < k ==> IsMatrix(Ls[i], |dofss[i]|, |dofss[i]|)
  {
    if k == 0 then 0.0 else PlacedSum(Ls, dofss, k - 1, r, c) + Placed(Ls[k - 1], dofss[k - 1], r, c)
  }

  /** The sum over the first k cells of their vectors ls seen at the global
      index r. */
  function PlacedEntrySum(ls: seq<seq<real>>, dofss: seq<seq<nat>>, k: nat, r: nat): real
    requires k <= |ls| && k <= |dofss|
    requires forall i :: 0 <= i < k ==> |ls[i]| == |dofss[i]|
  {
    if k == 0 then 0.0 else PlacedEntrySum(ls, dofss, k - 1, r) + PlacedEntry(ls[k - 1], dofss[k - 1], r)
  }

  /** Every cell matrix is square in its own indices, and the indices are
      distinct and below n. */
  predicate CellsFit(Ls: seq<Matrix>, dofss: seq<seq<nat>>, n: nat)
  {
    |Ls| == |dofss|
    && (forall i :: 0 <= i < |Ls| ==> IsMatrix(Ls[i], |dofss[i]|, |dofss[i]|))
    && (forall i :: 0 <= i < |Ls| ==> Distinct(dofss[i]))
    && (forall i, j :: 0 <= i < |Ls| && 0 <= j < |dofss[i]| ==> dofss[i][j] < n)
  }

  /** The loop over cells of every assemble_system: G after distributing the
      first k cell matrices into it, one cell after the other. */
  function AssembleCells(G: Matrix, n: nat, Ls: seq<Matrix>, dofss: seq<seq<nat>>, k: nat): (R: Matrix)
    requires IsMatrix(G, n, n) && CellsFit(Ls, dofss, n) && k <= |Ls|
    ensures IsMatrix(R, n, n)
  {
    if k == 0 then G
    else
      var dofs := dofss[k - 1];
      assert forall i :: 0 <= i < |dofs| ==> dofs[i] < n;
      AddLocalMatrix(AssembleCells(G, n, Ls, dofss, k - 1), n, Ls[k - 1], dofs)
  }

  /** Distributing one more symmetric cell matrix keeps the assembled matrix
      symmetric. */
  lemma AssembleCellsStepSymmetric(G: Matrix, n: nat, Ls: seq<Matrix>, dofss: seq<seq<nat>>, k: nat)
    requires IsMatrix(G, n, n) && CellsFit(Ls, dofss, n) && 0 < k <= |Ls|
    requires Symmetric(AssembleCells(G, n, Ls, dofss, k - 1), n) && Symmetric(Ls[k - 1], |dofss[k - 1]|)
    ensures Symmetric(AssembleCells(G, n, Ls, dofss, k), n)
  {
    AddLocalMatrixSymmetric(AssembleCells(G, n, Ls, dofss, k - 1), n, Ls[k - 1], dofss[k - 1]);
  }

  /** Distributing symmetric cell matrices onto a symmetric matrix keeps it
      symmetric, however many cells are added. */
  lemma {:induction false} AssembleCellsSymmetric(G: Matrix, n: nat, Ls: seq<Matrix>, dofss: seq<seq<nat>>, k: nat)
    requires Symmetric(G, n) && CellsFit(Ls, dofss, n) && k <= |Ls|
    requires forall i :: 0 <= i < |Ls| ==> Symmetric(Ls[i], |dofss[i]|)
    ensures Symmetric(AssembleCells(G, n, Ls, dofss, k), n)
  {
    if k > 0 {
      AssembleCellsSymmetric(G, n, Ls, dofss, k - 1);
      AssembleCellsStepSymmetric(G, n, Ls, dofss, k);
    }
  }

  /** Global assembly is a sum: entry (r, c) after the first k cells is G's
      entry plus every cell matrix seen at (r, c). */
  lemma {:induction false} AssembleCellsIsSum(G: Matrix, n: nat, Ls: seq<Matrix>, dofss: seq<seq<nat>>, k: nat, r: nat, c: nat)
    requires IsMatrix(G, n, n) && CellsFit(Ls, dofss, n) && k <= |Ls| && r < n && c < n
    ensures AssembleCells(G, n, Ls, dofss, k)[r][c] == G[r][c] + PlacedSum(Ls, dofss, k, r, c)
  {
    if k > 0 {
      AssembleCellsIsSum(G, n, Ls, dofss, k - 1, r, c);
      PlacedSumStep(G, AssembleCells(G, n, Ls, dofss, k - 1), n, Ls, dofss, k, r, c);
    }
  }

  /** One more cell extends the sum by that cell's matrix seen at (r, c). */
  lemma PlacedSumStep(G: Matrix, P: Matrix, n: nat, Ls: seq<Matrix>, dofss: seq<seq<nat>>, k: nat, r: nat, c: nat)
    requires IsMatrix(G, n, n) && CellsFit(Ls, dofss, n) && 0 < k <= |Ls| && r < n && c < n
    requires P == AssembleCells(G, n, Ls, dofss, k - 1)
    requires P[r][c] == G[r][c] + PlacedSum(Ls, dofss, k - 1, r, c)
    ensures AssembleCells(G, n, Ls, dofss, k)[r][c] == G[r][c] + PlacedSum(Ls, dofss, k, r, c)
  {
    var L, dofs := Ls[k - 1], dofss[k - 1];
    assert forall i :: 0 <= i < |dofs| ==> dofs[i] < n;
    assert AssembleCells(G, n, Ls, dofss, k) == AddLocalMatrix(P, n, L, dofs);
  }

  /** The degree-of-freedom indices of every cell, in cell order. */
  function CellDofs(s: Space): (d: seq<seq<nat>>)
    ensures |d| == |s.cells| && forall k :: 0 <= k < |s.cells| ==> d[k] == s.cells[k].dofs
  {
    seq(|s.cells|, k requires 0 <= k < |s.cells| => s.cells[k].dofs)
  }

  /** The global entry (r, c) after the cell's contribution. */
  function Distributed(G: Matrix, n: nat, L: Matrix, dofs: seq<nat>, r: nat, c: nat): real
    requires IsMatrix(G, n, n) && IsMatrix(L, |dofs|, |dofs|) && r < n && c < n
  {
    if r in dofs && c in dofs then G[r][c] + L[LocalIndex(dofs, r)][LocalIndex(dofs, c)] else G[r][c]
  }

  /** The first m rows of the distributed matrix. */
  function AddLocalRows(G: Matrix, n: nat, L: Matrix, dofs: seq<nat>, m: nat): (R: Matrix)
    requires IsMatrix(G, n, n) && IsMatrix(L, |dofs|, |dofs|) && m <= n
    ensures |R| == m
    ensures forall r :: 0 <= r < m ==> |R[r]| == n
    ensures forall r, c :: 0 <= r < m && 0 <= c < n ==> R[r][c] == Distributed(G, n, L, dofs, r, c)
  {
    if m == 0 then [] else AddLocalRows(G, n, L, dofs, m - 1) + [AddLocalRow(G, n, L, dofs, m - 1, n)]
  }

  /** The first m entries of row r of the distributed matrix. */
  function AddLocalRow(G: Matrix, n: nat, L: Matrix, dofs: seq<nat>, r: nat, m: nat): (row: seq<real>)
    requires IsMatrix(G, n, n) && IsMatrix(L, |dofs|, |dofs|) && r < n && m <= n
    ensures |row| == m
    ensures forall c :: 0 <= c < m ==> row[c] == Distributed(G, n, L, dofs, r, c)
  {
    if m == 0 then [] else AddLocalRow(G, n, L, dofs, r, m - 1) + [Distributed(G, n, L, dofs, r, m - 1)]
  }

  /** distribute_local_to_global for a cell vector: adds the local entry i
      to the global entry dofs[i]. */
  function AddLocalVector(g: seq<real>, l: seq<real>, dofs: seq<nat>): (r: seq<real>)
    requires |l| == |dofs| && Distinct(dofs)
    requires forall i :: 0 <= i < |dofs| ==> dofs[i] < |g|
    ensures |r| == |g|
    ensures forall i {:trigger r[dofs[i]]} :: 0 <= i < |dofs| ==> r[dofs[i]] == g[dofs[i]] + l[i]
    ensures forall k {:trigger r[k]} :: 0 <= k < |g| && k !in dofs ==> r[k] == g[k]
    ensures forall k {:trigger r[k]} :: 0 <= k < |g| ==> r[k] == g[k] + PlacedEntry(l, dofs, k)
  {
    var r := AddLocalEntries(g, l, dofs, |g|);
    assert forall i :: 0 <= i < |dofs| ==> LocalIndex(dofs, dofs[i]) == i;
    r
  }

  /** The first m entries of the distributed vector. */
  function AddLocalEntries(g: seq<real>, l: seq<real>, dofs: seq<nat>, m: nat): (r: seq<real>)
    requires |l| == |dofs| && m <= |g|
    ensures |r| == m
    ensures forall k :: 0 <= k < m ==> r[k] == if k in dofs then g[k] + l[LocalIndex(dofs, k)] else g[k]
  {
    if m == 0 then []
    else AddLocalEntries(g, l, dofs, m - 1) + [if m - 1 in dofs then g[m - 1] + l[LocalIndex(dofs, m - 1)] else g[m - 1]]
  }

  /** Adding a symmetric cell matrix keeps a global matrix symmetric. */
  lemma AddLocalMatrixSymmetric(G: Matrix, n: nat, L: Matrix, dofs: seq<nat>)
    requires Symmetric(G, n) && Symmetric(L, |dofs|) && Distinct(dofs)
    requires forall i :: 0 <= i < |dofs| ==> dofs[i] < n
    ensures Symmetric(AddLocalMatrix(G, n, L, dofs), n)
  {
    var R := AddLocalMatrix(G, n, L, dofs);
    forall r, c | 0 <= r < n && 0 <= c < n
      ensures Entry(R, r, c) == Entry(R, c, r)
    {
      assert Entry(G, r, c) == Entry(G, c, r);
      if r in dofs && c in dofs {
        var i := LocalIndex(dofs, r);
        var j := LocalIndex(dofs, c);
        assert Entry(L, i, j) == Entry(L, j, i);
        assert R[dofs[i]][dofs[j]] == G[dofs[i]][dofs[j]] + L[i][j];
        assert R[dofs[j]][dofs[i]] == G[dofs[j]][dofs[i]] + L[j][i];
      }
    }
  }

  /** The parameters of an iterative solve: the largest number of steps and
      the residual tolerance. */
  datatype SolverControl = SolverControl(maxSteps: nat, tolerance: real)

  /** homogeneous constraints.distribute: the constrained entries become zero. */
  function ZeroConstrained(v: seq<real>, constrained: set<nat>): (r: seq<real>)
    ensures |r| == |v|
    ensures forall i :: 0 <= i < |v| ==> r[i] == if i in constrained then 0.0 else v[i]
  {
    seq(|v|, i requires 0 <= i < |v| => if i in constrained then 0.0 else v[i])
  }

  /** The quadratic form v^T M v. */
  function QuadraticForm(M: Matrix, v: seq<real>): real
    requires IsMatrix(M, |v|, |v|)
  {
    RowsForm(M, v, |v|)
  }

  /** sum over the first k rows of v_r (M v)_r. */
  function RowsForm(M: Matrix, v: seq<real>, k: nat): real
    requires IsMatrix(M, |v|, |v|) && k <= |v|
  {
    if k == 0 then 0.0 else RowsForm(M, v, k - 1) + v[k - 1] * Dot(M[k - 1], v)
  }

  /** The dot product is linear in its second argument. */
  lemma {:induction false} DotScales(u: seq<real>, a: real, v: seq<real>)
    requires |u| == |v|
    ensures Dot(u, ScaleVector(a, v)) == a * Dot(u, v)
  {
    if |u| > 0 {
      var w := ScaleVector(a, v);
      var tail := ScaleVector(a, v[1..]);
      assert |w[1..]| == |tail|;
      assert forall i :: 0 <= i < |tail| ==> w[1..][i] == tail[i];
      assert w[1..] == tail;
      DotScales(u[1..], a, v[1..]);
      assert u[0] * (a * v[0]) == a * (u[0] * v[0]);
    }
  }

  /** sum over the first k rows of u_r (M v)_r: the bilinear form of M. */
  function Bilinear(M: Matrix, u: seq<real>, v: seq<real>, k: nat): real
    requires IsMatrix(M, |v|, |v|) && |u| == |v| && k <= |v|
  {
    if k == 0 then 0.0 else Bilinear(M, u, v, k - 1) + u[k - 1] * Dot(M[k - 1], v)
  }

  /** The quadratic form is the bilinear form with equal arguments. */
  lemma {:induction false} RowsFormIsBilinear(M: Matrix, v: seq<real>, k: nat)
    requires IsMatrix(M, |v|, |v|) && k <= |v|
    ensures RowsForm(M, v, k) == Bilinear(M, v, v, k)
  {
    if k > 0 {
      RowsFormIsBilinear(M, v, k - 1);
    }
  }

  /** One row of a scaled sum: if the first rows scale by a and the new
      row x y has one factor scaled by a, the sum scales by a. */
  lemma ScaleStep(a: real, x: real, y: real, scaledX: real, scaledY: real,
                  before: real, scaledBefore: real, total: real, scaledTotal: real)
    requires scaledX * scaledY == a * (x * y) && scaledBefore == a * before
    requires total == before + x * y && scaledTotal == scaledBefore + scaledX * scaledY
    ensures scaledTotal == a * total
  {
  }

  /** Two sums scaled by a add up to their total scaled by a. */
  lemma ScaledSum(a: real, before: real, term: real, scaledBefore: real, scaledTerm: real)
    requires scaledBefore == a * before && scaledTerm == a * term
    ensures scaledBefore + scaledTerm == a * (before + term)
  {
  }

  /** A factor a of one side of a product moves out of it. */
  lemma FactorOut(a: real, x: real, y: real, scaled: real)
    requires scaled == a * y
    ensures x * scaled == a * (x * y) && scaled * x == a * (y * x)
  {
  }

  /** The bilinear form is linear in its first argument. */
  lemma {:induction false} BilinearScalesLeft(M: Matrix, a: real, u: seq<real>, v: seq<real>, k: nat)
    requires IsMatrix(M, |v|, |v|) && |u| == |v| && k <= |v|
    ensures Bilinear(M, ScaleVector(a, u), v, k) == a * Bilinear(M, u, v, k)
  {
    if k > 0 {
      var w := ScaleVector(a, u);
      BilinearScalesLeft(M, a, u, v, k - 1);
      var d := Dot(M[k - 1], v);
      FactorOut(a, d, u[k - 1], w[k - 1]);
      ScaleStep(a, u[k - 1], d, w[k - 1], d, Bilinear(M, u, v, k - 1), Bilinear(M, w, v, k - 1),
                Bilinear(M, u, v, k), Bilinear(M, w, v, k));
    }
  }

  /** The bilinear form is linear in its second argument. */
  lemma {:induction false} BilinearScalesRight(M: Matrix, a: real, u: seq<real>, v: seq<real>, k: nat)
    requires IsMatrix(M, |v|, |v|) && |u| == |v| && k <= |v|
    ensures Bilinear(M, u, ScaleVector(a, v), k) == a * Bilinear(M, u, v, k)
  {
    if k > 0 {
      var w := ScaleVector(a, v);
      BilinearScalesRight(M, a, u, v, k - 1);
      DotScales(M[k - 1], a, v);
      var d := Dot(M[k - 1], v);
      var dw := Dot(M[k - 1], w);
      FactorOut(a, u[k - 1], d, dw);
      ScaleStep(a, u[k - 1], d, u[k - 1], dw, Bilinear(M, u, v, k - 1), Bilinear(M, u, w, k - 1),
                Bilinear(M, u, v, k), Bilinear(M, u, w, k));
    }
  }

  /** The quadratic form is homogeneous of degree two. */
  lemma RowsFormScales(M: Matrix, a: real, v: seq<real>, k: nat)
    requires IsMatrix(M, |v|, |v|) && k <= |v|
    ensures RowsForm(M, ScaleVector(a, v), k) == a * a * RowsForm(M, v, k)
  {
    var w := ScaleVector(a, v);
    RowsFormIsBilinear(M, w, k);
    RowsFormIsBilinear(M, v, k);
    BilinearScalesLeft(M, a, v, w, k);
    BilinearScalesRight(M, a, v, v, k);
    TwoFactors(a, Bilinear(M, v, v, k), Bilinear(M, v, w, k), Bilinear(M, w, w, k), RowsForm(M, v, k));
  }

  /** Scaling twice by a is scaling by a^2. */
  lemma TwoFactors(a: real, b: real, once: real, twice: real, total: real)
    requires once == a * b && twice == a * once && total == b
    ensures twice == a * a * total
  {
  }
}
