/** Schroedinger's problem on the test space: the generalised eigenproblem
      A x = lambda B x,
      A_ij = int ke grad phi_i . grad phi_j + pe phi_i phi_j,
      B_ij = int phi_i phi_j,
    assembled cell by cell with the 2-point Gauss rule, with a kinetic
    prefactor ke and a potential pe given by their nodal values. */
module Schroedinger {
  import opened Wrappers
  import opened Vectors
  import opened FiniteElements

  /** The contribution of quadrature point q to the cell system entry (i, j):
      the kinetic term ke grad phi_i . grad phi_j plus the potential term
      pe phi_i phi_j, weighted by JxW. On the diagonal it is non-negative
      when the coefficients and the weight are. */
  function SystemTerm(s: Space, c: Cell, ke: seq<real>, pe: seq<real>, q: nat, i: nat, j: nat): (t: real)
    requires CellFits(s, c) && |ke| == s.NQPoints() && |pe| == s.NQPoints()
    requires q < s.NQPoints() && i < s.DofsPerCell() && j < s.DofsPerCell()
    ensures i == j && ke[q] >= 0.0 && pe[q] >= 0.0 && c.jxw[q] >= 0.0 ==> t >= 0.0
  {
    var g := Dot(c.grads[i][q], c.grads[j][q]);
    var v := c.values[i][q] * c.values[j][q];
    if i == j then
      DotSelfNonNegative(c.grads[i][q]);
      SquareNonNegative(c.values[i][q]);
      NonNegativeTerms(ke[q], g, pe[q], v, c.jxw[q]);
      ke[q] * g * c.jxw[q] + pe[q] * c.values[i][q] * c.values[j][q] * c.jxw[q]
    else
      ke[q] * g * c.jxw[q] + pe[q] * c.values[i][q] * c.values[j][q] * c.jxw[q]
  }

  /** The contribution of quadrature point q to the cell overlap entry
      (i, j): phi_i phi_j weighted by JxW, non-negative on the diagonal when
      the weight is. */
  function OverlapTerm(s: Space, c: Cell, q: nat, i: nat, j: nat): (t: real)
    requires CellFits(s, c) && q < s.NQPoints() && i < s.DofsPerCell() && j < s.DofsPerCell()
    ensures i == j && c.jxw[q] >= 0.0 ==> t >= 0.0
  {
    if i == j then
      SquareNonNegative(c.values[i][q]);
      NonNegativeTerms(0.0, 0.0, 1.0, c.values[i][q] * c.values[j][q], c.jxw[q]);
      c.values[i][q] * c.values[j][q] * c.jxw[q]
    else
      c.values[i][q] * c.values[j][q] * c.jxw[q]
  }

  lemma SquareNonNegative(x: real)
    ensures x * x >= 0.0
  {
    if x < 0.0 {
      assert x * x == (-x) * (-x);
    }
  }

  lemma NonNegativeTerms(k: real, g: real, p: real, v: real, w: real)
    ensures k >= 0.0 && g >= 0.0 && p >= 0.0 && v >= 0.0 && w >= 0.0 ==> k * g * w + p * v * w >= 0.0
  {
    if k >= 0.0 && g >= 0.0 && p >= 0.0 && v >= 0.0 && w >= 0.0 {
      assert k * g >= 0.0 && p * v >= 0.0;
      assert (k * g) * w >= 0.0 && (p * v) * w >= 0.0;
    }
  }

  /** The cell system entry (i, j) summed over the first n quadrature points. */
  function SystemEntry(s: Space, c: Cell, ke: seq<real>, pe: seq<real>, n: nat, i: nat, j: nat): real
    requires CellFits(s, c) && |ke| == s.NQPoints() && |pe| == s.NQPoints()
    requires n <= s.NQPoints() && i < s.DofsPerCell() && j < s.DofsPerCell()
  {
    if n == 0 then 0.0 else SystemEntry(s, c, ke, pe, n - 1, i, j) + SystemTerm(s, c, ke, pe, n - 1, i, j)
  }

  /** A diagonal entry of the cell system is non-negative when ke, pe and
      the weights are at every point. */
  lemma {:induction false} SystemEntryDiagonalNonNegative(s: Space, c: Cell, ke: seq<real>, pe: seq<real>, n: nat, i: nat)
    requires CellFits(s, c) && |ke| == s.NQPoints() && |pe| == s.NQPoints()
    requires n <= s.NQPoints() && i < s.DofsPerCell()
    requires forall q :: 0 <= q < n ==> ke[q] >= 0.0 && pe[q] >= 0.0 && c.jxw[q] >= 0.0
    ensures SystemEntry(s, c, ke, pe, n, i, i) >= 0.0
  {
    if n > 0 {
      SystemEntryDiagonalNonNegative(s, c, ke, pe, n - 1, i);
    }
  }

  /** The cell overlap entry (i, j) summed over the first n quadrature
      points; a diagonal entry is non-negative when the weights are. */
  function OverlapEntry(s: Space, c: Cell, n: nat, i: nat, j: nat): (e: real)
    requires CellFits(s, c) && n <= s.NQPoints() && i < s.DofsPerCell() && j < s.DofsPerCell()
    ensures i == j && (forall q :: 0 <= q < n ==> c.jxw[q] >= 0.0) ==> e >= 0.0
  {
    if n == 0 then 0.0 else OverlapEntry(s, c, n - 1, i, j) + OverlapTerm(s, c, n - 1, i, j)
  }

  /** The cell system matrix for the cell values ke, pe. */
  function CellSystem(s: Space, c: Cell, ke: seq<real>, pe: seq<real>): (M: Matrix)
    requires CellFits(s, c) && |ke| == s.NQPoints() && |pe| == s.NQPoints()
    ensures IsMatrix(M, s.DofsPerCell(), s.DofsPerCell())
  {
    var d := s.DofsPerCell();
    seq(d, i requires 0 <= i < d => seq(d, j requires 0 <= j < d => SystemEntry(s, c, ke, pe, s.NQPoints(), i, j)))
  }

  /** The cell overlap matrix; its diagonal is non-negative when the
      weights are, as a mass matrix's is. */
  function CellOverlap(s: Space, c: Cell): (M: Matrix)
    requires CellFits(s, c)
    ensures IsMatrix(M, s.DofsPerCell(), s.DofsPerCell())
    ensures (forall q :: 0 <= q < s.NQPoints() ==> c.jxw[q] >= 0.0) ==>
      forall i :: 0 <= i < s.DofsPerCell() ==> M[i][i] >= 0.0
  {
    var d := s.DofsPerCell();
    seq(d, i requires 0 <= i < d => seq(d, j requires 0 <= j < d => OverlapEntry(s, c, s.NQPoints(), i, j)))
  }

  /** The cell system entry is additive in the pair of coefficients
      (ke, pe): the kinetic and potential terms are each linear in theirs. */
  lemma {:induction false} SystemEntryAdditive(s: Space, c: Cell, ke1: seq<real>, pe1: seq<real>,
                                               ke2: seq<real>, pe2: seq<real>, n: nat, i: nat, j: nat)
    requires CellFits(s, c) && |ke1| == s.NQPoints() && |pe1| == s.NQPoints()
    requires |ke2| == s.NQPoints() && |pe2| == s.NQPoints()
    requires n <= s.NQPoints() && i < s.DofsPerCell() && j < s.DofsPerCell()
    ensures SystemEntry(s, c, Add(ke1, ke2), Add(pe1, pe2), n, i, j)
         == SystemEntry(s, c, ke1, pe1, n, i, j) + SystemEntry(s, c, ke2, pe2, n, i, j)
  {
    if n > 0 {
      SystemEntryAdditive(s, c, ke1, pe1, ke2, pe2, n - 1, i, j);
      SystemTermAdditive(s, c, ke1, pe1, ke2, pe2, n - 1, i, j);
    }
  }

  lemma SystemTermAdditive(s: Space, c: Cell, ke1: seq<real>, pe1: seq<real>,
                           ke2: seq<real>, pe2: seq<real>, q: nat, i: nat, j: nat)
    requires CellFits(s, c) && |ke1| == s.NQPoints() && |pe1| == s.NQPoints()
    requires |ke2| == s.NQPoints() && |pe2| == s.NQPoints()
    requires q < s.NQPoints() && i < s.DofsPerCell() && j < s.DofsPerCell()
    ensures SystemTerm(s, c, Add(ke1, ke2), Add(pe1, pe2), q, i, j)
         == SystemTerm(s, c, ke1, pe1, q, i, j) + SystemTerm(s, c, ke2, pe2, q, i, j)
  {
    TermAdditive(ke1[q], ke2[q], pe1[q], pe2[q], Dot(c.grads[i][q], c.grads[j][q]),
                 c.values[i][q], c.values[j][q], c.jxw[q]);
  }

  lemma TermAdditive(k1: real, k2: real, p1: real, p2: real, g: real, vi: real, vj: real, w: real)
    ensures (k1 + k2) * g * w + (p1 + p2) * vi * vj * w
         == (k1 * g * w + p1 * vi * vj * w) + (k2 * g * w + p2 * vi * vj * w)
  {
  }

  /** The cell system entry is homogeneous in (ke, pe): scaling both
      coefficients by a scales the entry by a. */
  lemma SystemEntryScales(s: Space, c: Cell, a: real, ke: seq<real>, pe: seq<real>, n: nat, i: nat, j: nat)
    requires CellFits(s, c) && |ke| == s.NQPoints() && |pe| == s.NQPoints()
    requires n <= s.NQPoints() && i < s.DofsPerCell() && j < s.DofsPerCell()
    ensures SystemEntry(s, c, ScaleVector(a, ke), ScaleVector(a, pe), n, i, j) == a * SystemEntry(s, c, ke, pe, n, i, j)
  {
    forall q | 0 <= q < s.NQPoints()
      ensures SystemTerm(s, c, ScaleVector(a, ke), ScaleVector(a, pe), q, i, j) == a * SystemTerm(s, c, ke, pe, q, i, j)
    {
      SystemTermScales(s, c, a, ke, pe, q, i, j);
    }
    ScaledTermsScaledEntry(s, c, a, ke, pe, ScaleVector(a, ke), ScaleVector(a, pe), n, i, j);
  }

  /** When every point's term scales by a, so does their sum. */
  lemma {:induction false} ScaledTermsScaledEntry(s: Space, c: Cell, a: real, ke: seq<real>, pe: seq<real>,
                                                  ske: seq<real>, spe: seq<real>, n: nat, i: nat, j: nat)
    requires CellFits(s, c) && |ke| == s.NQPoints() && |pe| == s.NQPoints()
    requires |ske| == s.NQPoints() && |spe| == s.NQPoints()
    requires n <= s.NQPoints() && i < s.DofsPerCell() && j < s.DofsPerCell()
    requires forall q :: 0 <= q < s.NQPoints() ==> SystemTerm(s, c, ske, spe, q, i, j) == a * SystemTerm(s, c, ke, pe, q, i, j)
    ensures SystemEntry(s, c, ske, spe, n, i, j) == a * SystemEntry(s, c, ke, pe, n, i, j)
  {
    if n > 0 {
      var q := n - 1;
      ScaledTermsScaledEntry(s, c, a, ke, pe, ske, spe, q, i, j);
      ScaledSum(a, SystemEntry(s, c, ke, pe, q, i, j), SystemTerm(s, c, ke, pe, q, i, j),
                SystemEntry(s, c, ske, spe, q, i, j), SystemTerm(s, c, ske, spe, q, i, j));
    }
  }

  lemma SystemTermScales(s: Space, c: Cell, a: real, ke: seq<real>, pe: seq<real>, q: nat, i: nat, j: nat)
    requires CellFits(s, c) && |ke| == s.NQPoints() && |pe| == s.NQPoints()
    requires q < s.NQPoints() && i < s.DofsPerCell() && j < s.DofsPerCell()
    ensures SystemTerm(s, c, ScaleVector(a, ke), ScaleVector(a, pe), q, i, j) == a * SystemTerm(s, c, ke, pe, q, i, j)
  {
    TermScales(a, ke[q], pe[q], Dot(c.grads[i][q], c.grads[j][q]), c.values[i][q], c.values[j][q], c.jxw[q]);
  }

  lemma TermScales(a: real, k: real, p: real, g: real, vi: real, vj: real, w: real)
    ensures (a * k) * g * w + (a * p) * vi * vj * w == a * (k * g * w + p * vi * vj * w)
  {
  }

  /** The cell system matrix is linear in (ke, pe): additive in the pair
      of coefficients and homogeneous under a common scale factor. */
  lemma CellSystemLinear(s: Space, c: Cell, a: real, ke1: seq<real>, pe1: seq<real>, ke2: seq<real>, pe2: seq<real>)
    requires CellFits(s, c) && |ke1| == s.NQPoints() && |pe1| == s.NQPoints()
    requires |ke2| == s.NQPoints() && |pe2| == s.NQPoints()
    ensures forall i, j :: 0 <= i < s.DofsPerCell() && 0 <= j < s.DofsPerCell() ==>
      CellSystem(s, c, Add(ke1, ke2), Add(pe1, pe2))[i][j] == CellSystem(s, c, ke1, pe1)[i][j] + CellSystem(s, c, ke2, pe2)[i][j]
    ensures forall i, j :: 0 <= i < s.DofsPerCell() && 0 <= j < s.DofsPerCell() ==>
      CellSystem(s, c, ScaleVector(a, ke1), ScaleVector(a, pe1))[i][j] == a * CellSystem(s, c, ke1, pe1)[i][j]
  {
    forall i, j | 0 <= i < s.DofsPerCell() && 0 <= j < s.DofsPerCell()
      ensures CellSystem(s, c, Add(ke1, ke2), Add(pe1, pe2))[i][j] == CellSystem(s, c, ke1, pe1)[i][j] + CellSystem(s, c, ke2, pe2)[i][j]
      ensures CellSystem(s, c, ScaleVector(a, ke1), ScaleVector(a, pe1))[i][j] == a * CellSystem(s, c, ke1, pe1)[i][j]
    {
      CellSystemLinearAt(s, c, a, ke1, pe1, ke2, pe2, i, j);
    }
  }

  lemma CellSystemLinearAt(s: Space, c: Cell, a: real, ke1: seq<real>, pe1: seq<real>, ke2: seq<real>, pe2: seq<real>,
                           i: nat, j: nat)
    requires CellFits(s, c) && |ke1| == s.NQPoints() && |pe1| == s.NQPoints()
    requires |ke2| == s.NQPoints() && |pe2| == s.NQPoints()
    requires i < s.DofsPerCell() && j < s.DofsPerCell()
    ensures CellSystem(s, c, Add(ke1, ke2), Add(pe1, pe2))[i][j] == CellSystem(s, c, ke1, pe1)[i][j] + CellSystem(s, c, ke2, pe2)[i][j]
    ensures CellSystem(s, c, ScaleVector(a, ke1), ScaleVector(a, pe1))[i][j] == a * CellSystem(s, c, ke1, pe1)[i][j]
  {
    var n := s.NQPoints();
    SystemEntryAdditive(s, c, ke1, pe1, ke2, pe2, n, i, j);
    SystemEntryScales(s, c, a, ke1, pe1, n, i, j);
    assert CellSystem(s, c, ke1, pe1)[i][j] == SystemEntry(s, c, ke1, pe1, n, i, j);
    assert CellSystem(s, c, ke2, pe2)[i][j] == SystemEntry(s, c, ke2, pe2, n, i, j);
    assert CellSystem(s, c, Add(ke1, ke2), Add(pe1, pe2))[i][j] == SystemEntry(s, c, Add(ke1, ke2), Add(pe1, pe2), n, i, j);
    assert CellSystem(s, c, ScaleVector(a, ke1), ScaleVector(a, pe1))[i][j]
        == SystemEntry(s, c, ScaleVector(a, ke1), ScaleVector(a, pe1), n, i, j);
  }

  /** The contribution of one quadrature point is symmetric in (i, j). */
  lemma SystemTermSymmetric(s: Space, c: Cell, ke: seq<real>, pe: seq<real>, q: nat, i: nat, j: nat)
    requires CellFits(s, c) && |ke| == s.NQPoints() && |pe| == s.NQPoints()
    requires q < s.NQPoints() && i < s.DofsPerCell() && j < s.DofsPerCell()
    ensures SystemTerm(s, c, ke, pe, q, i, j) == SystemTerm(s, c, ke, pe, q, j, i)
  {
    DotSymmetric(c.grads[i][q], c.grads[j][q]);
    var vi, vj := c.values[i][q], c.values[j][q];
    assert pe[q] * vi * vj * c.jxw[q] == pe[q] * vj * vi * c.jxw[q];
  }

  /** The cell system entry is symmetric in (i, j). */
  lemma {:induction false} SystemEntrySymmetric(s: Space, c: Cell, ke: seq<real>, pe: seq<real>, n: nat, i: nat, j: nat)
    requires CellFits(s, c) && |ke| == s.NQPoints() && |pe| == s.NQPoints()
    requires n <= s.NQPoints() && i < s.DofsPerCell() && j < s.DofsPerCell()
    ensures SystemEntry(s, c, ke, pe, n, i, j) == SystemEntry(s, c, ke, pe, n, j, i)
  {
    if n > 0 {
      SystemEntrySymmetric(s, c, ke, pe, n - 1, i, j);
      SystemTermSymmetric(s, c, ke, pe, n - 1, i, j);
    }
  }

  /** The cell system matrix is symmetric. */
  lemma CellSystemSymmetric(s: Space, c: Cell, ke: seq<real>, pe: seq<real>)
    requires CellFits(s, c) && |ke| == s.NQPoints() && |pe| == s.NQPoints()
    ensures Symmetric(CellSystem(s, c, ke, pe), s.DofsPerCell())
  {
    forall i, j | 0 <= i < s.DofsPerCell() && 0 <= j < s.DofsPerCell()
      ensures SystemEntry(s, c, ke, pe, s.NQPoints(), i, j) == SystemEntry(s, c, ke, pe, s.NQPoints(), j, i)
    {
      SystemEntrySymmetric(s, c, ke, pe, s.NQPoints(), i, j);
    }
  }

  /** The cell overlap matrix is symmetric. */
  lemma CellOverlapSymmetric(s: Space, c: Cell)
    requires CellFits(s, c)
    ensures Symmetric(CellOverlap(s, c), s.DofsPerCell())
  {
    forall i, j | 0 <= i < s.DofsPerCell() && 0 <= j < s.DofsPerCell()
      ensures OverlapEntry(s, c, s.NQPoints(), i, j) == OverlapEntry(s, c, s.NQPoints(), j, i)
    {
      OverlapEntrySymmetric(s, c, s.NQPoints(), i, j);
    }
  }

  lemma {:induction false} OverlapEntrySymmetric(s: Space, c: Cell, n: nat, i: nat, j: nat)
    requires CellFits(s, c) && n <= s.NQPoints() && i < s.DofsPerCell() && j < s.DofsPerCell()
    ensures OverlapEntry(s, c, n, i, j) == OverlapEntry(s, c, n, j, i)
  {
    if n > 0 {
      OverlapEntrySymmetric(s, c, n - 1, i, j);
    }
  }

  /** The overlap matrix is the system matrix with no kinetic term and a
      unit potential: the mass matrix. */
  lemma {:induction false} OverlapIsUnitPotentialSystem(s: Space, c: Cell, n: nat, i: nat, j: nat)
    requires CellFits(s, c) && n <= s.NQPoints() && i < s.DofsPerCell() && j < s.DofsPerCell()
    ensures OverlapEntry(s, c, n, i, j)
         == SystemEntry(s, c, ZeroVector(s.NQPoints()), Ones(s.NQPoints()), n, i, j)
  {
    if n > 0 {
      OverlapIsUnitPotentialSystem(s, c, n - 1, i, j);
    }
  }

  /** The system entry splits into its kinetic part (no potential) and its
      potential part (no kinetic prefactor). */
  lemma {:induction false} SystemSplits(s: Space, c: Cell, ke: seq<real>, pe: seq<real>, n: nat, i: nat, j: nat)
    requires CellFits(s, c) && |ke| == s.NQPoints() && |pe| == s.NQPoints()
    requires n <= s.NQPoints() && i < s.DofsPerCell() && j < s.DofsPerCell()
    ensures SystemEntry(s, c, ke, pe, n, i, j)
         == SystemEntry(s, c, ke, ZeroVector(s.NQPoints()), n, i, j)
          + SystemEntry(s, c, ZeroVector(s.NQPoints()), pe, n, i, j)
  {
    if n > 0 {
      SystemSplits(s, c, ke, pe, n - 1, i, j);
    }
  }

  /** The cell loop of assemble: the q, j, i loops that accumulate the cell
      system and overlap matrices from zero. */
  method AssembleCell(s: Space, c: Cell, ke: seq<real>, pe: seq<real>) returns (cellSystem: Matrix, cellOverlap: Matrix)
    requires CellFits(s, c) && |ke| == s.NQPoints() && |pe| == s.NQPoints()
    ensures cellSystem == CellSystem(s, c, ke, pe)
    ensures cellOverlap == CellOverlap(s, c)
  {
    var d := s.DofsPerCell();
    var nq := s.NQPoints();
    cellSystem := ZeroMatrix(d, d);
    cellOverlap := ZeroMatrix(d, d);
    var q := 0;
    while q < nq
      invariant 0 <= q <= nq
      invariant IsMatrix(cellSystem, d, d) && IsMatrix(cellOverlap, d, d)
      invariant forall i, j :: 0 <= i < d && 0 <= j < d ==> cellSystem[i][j] == SystemEntry(s, c, ke, pe, q, i, j)
      invariant forall i, j :: 0 <= i < d && 0 <= j < d ==> cellOverlap[i][j] == OverlapEntry(s, c, q, i, j)
    {
      cellSystem, cellOverlap := AddPoint(s, c, ke, pe, q, cellSystem, cellOverlap);
      q := q + 1;
    }
    MatrixEquality(cellSystem, CellSystem(s, c, ke, pe), d, d);
    MatrixEquality(cellOverlap, CellOverlap(s, c), d, d);
  }

  /** The j and i loops for quadrature point q: every entry of the cell
      matrices gains the point's contribution. */
  method AddPoint(s: Space, c: Cell, ke: seq<real>, pe: seq<real>, q: nat, S: Matrix, O: Matrix)
    returns (S': Matrix, O': Matrix)
    requires CellFits(s, c) && |ke| == s.NQPoints() && |pe| == s.NQPoints() && q < s.NQPoints()
    requires IsMatrix(S, s.DofsPerCell(), s.DofsPerCell()) && IsMatrix(O, s.DofsPerCell(), s.DofsPerCell())
    ensures IsMatrix(S', s.DofsPerCell(), s.DofsPerCell()) && IsMatrix(O', s.DofsPerCell(), s.DofsPerCell())
    ensures forall i, j :: 0 <= i < s.DofsPerCell() && 0 <= j < s.DofsPerCell() ==>
      S'[i][j] == S[i][j] + SystemTerm(s, c, ke, pe, q, i, j) && O'[i][j] == O[i][j] + OverlapTerm(s, c, q, i, j)
  {
    var d := s.DofsPerCell();
    S', O' := S, O;
    var j := 0;
    while j < d
      invariant 0 <= j <= d
      invariant IsMatrix(S', d, d) && IsMatrix(O', d, d)
      invariant forall i, j' :: 0 <= i < d && 0 <= j' < j ==>
        S'[i][j'] == S[i][j'] + SystemTerm(s, c, ke, pe, q, i, j') && O'[i][j'] == O[i][j'] + OverlapTerm(s, c, q, i, j')
      invariant forall i, j' :: 0 <= i < d && j <= j' < d ==> S'[i][j'] == S[i][j'] && O'[i][j'] == O[i][j']
    {
      S', O' := AddColumn(s, c, ke, pe, q, j, S', O');
      j := j + 1;
    }
  }

  /** The i loop for quadrature point q and column j: the column gains the
      point's contribution and no other entry changes. */
  method AddColumn(s: Space, c: Cell, ke: seq<real>, pe: seq<real>, q: nat, j: nat, S: Matrix, O: Matrix)
    returns (S': Matrix, O': Matrix)
    requires CellFits(s, c) && |ke| == s.NQPoints() && |pe| == s.NQPoints()
    requires q < s.NQPoints() && j < s.DofsPerCell()
    requires IsMatrix(S, s.DofsPerCell(), s.DofsPerCell()) && IsMatrix(O, s.DofsPerCell(), s.DofsPerCell())
    ensures IsMatrix(S', s.DofsPerCell(), s.DofsPerCell()) && IsMatrix(O', s.DofsPerCell(), s.DofsPerCell())
    ensures forall i :: 0 <= i < s.DofsPerCell() ==>
      S'[i][j] == S[i][j] + SystemTerm(s, c, ke, pe, q, i, j) && O'[i][j] == O[i][j] + OverlapTerm(s, c, q, i, j)
    ensures forall i, j' :: 0 <= i < s.DofsPerCell() && 0 <= j' < s.DofsPerCell() && j' != j ==>
      S'[i][j'] == S[i][j'] && O'[i][j'] == O[i][j']
  {
    var d := s.DofsPerCell();
    S', O' := S, O;
    var i := 0;
    while i < d
      invariant 0 <= i <= d
      invariant IsMatrix(S', d, d) && IsMatrix(O', d, d)
      invariant forall i' :: 0 <= i' < i ==>
        S'[i'][j] == S[i'][j] + SystemTerm(s, c, ke, pe, q, i', j) && O'[i'][j] == O[i'][j] + OverlapTerm(s, c, q, i', j)
      invariant forall i' :: i <= i' < d ==> S'[i'][j] == S[i'][j] && O'[i'][j] == O[i'][j]
      invariant forall i', j' :: 0 <= i' < d && 0 <= j' < d && j' != j ==> S'[i'][j'] == S[i'][j'] && O'[i'][j'] == O[i'][j']
    {
      S' := S'[i := S'[i][j := S'[i][j] + SystemTerm(s, c, ke, pe, q, i, j)]];
      O' := O'[i := O'[i][j := O'[i][j] + OverlapTerm(s, c, q, i, j)]];
      i := i + 1;
    }
  }

  /** The global system matrix after adding the cell systems of the first k
      cells to G: the loop over cells fed with the cell systems. */
  function AssembledSystem(s: Space, G: Matrix, k: nat, ke: seq<real>, pe: seq<real>): (R: Matrix)
    requires WellFormed(s) && IsMatrix(G, s.nDofs, s.nDofs) && k <= |s.cells|
    requires |ke| == s.nDofs && |pe| == s.nDofs
    ensures IsMatrix(R, s.nDofs, s.nDofs)
  {
    AssembleCells(G, s.nDofs, CellSystems(s, ke, pe), CellDofs(s), k)
  }

  /** The global overlap matrix after adding the cell overlaps of the first
      k cells to O: the loop over cells fed with the cell overlaps. */
  function AssembledOverlap(s: Space, O: Matrix, k: nat): (R: Matrix)
    requires WellFormed(s) && IsMatrix(O, s.nDofs, s.nDofs) && k <= |s.cells|
    ensures IsMatrix(R, s.nDofs, s.nDofs)
  {
    AssembleCells(O, s.nDofs, CellOverlaps(s), CellDofs(s), k)
  }

  /** Cell k is distributed into the system matrix after the cells before
      it. */
  lemma SystemStep(s: Space, G: Matrix, k: nat, ke: seq<real>, pe: seq<real>)
    requires WellFormed(s) && IsMatrix(G, s.nDofs, s.nDofs) && k < |s.cells|
    requires |ke| == s.nDofs && |pe| == s.nDofs
    ensures CellFits(s, s.cells[k])
    ensures AssembledSystem(s, G, k + 1, ke, pe)
         == AddLocalMatrix(AssembledSystem(s, G, k, ke, pe), s.nDofs,
                           CellSystem(s, s.cells[k], FunctionValues(s, s.cells[k], ke), FunctionValues(s, s.cells[k], pe)),
                           s.cells[k].dofs)
  {
    var c := s.cells[k];
    assert CellFits(s, c);
    assert CellSystems(s, ke, pe)[k] == CellSystem(s, c, FunctionValues(s, c, ke), FunctionValues(s, c, pe));
    assert CellDofs(s)[k] == c.dofs;
  }

  /** Cell k is distributed into the overlap matrix after the cells before
      it. */
  lemma OverlapStep(s: Space, O: Matrix, k: nat)
    requires WellFormed(s) && IsMatrix(O, s.nDofs, s.nDofs) && k < |s.cells|
    ensures CellFits(s, s.cells[k])
    ensures AssembledOverlap(s, O, k + 1)
         == AddLocalMatrix(AssembledOverlap(s, O, k), s.nDofs, CellOverlap(s, s.cells[k]), s.cells[k].dofs)
  {
    var c := s.cells[k];
    assert CellFits(s, c);
    assert CellOverlaps(s)[k] == CellOverlap(s, c);
    assert CellDofs(s)[k] == c.dofs;
  }

  /** Adding the cell systems to a symmetric matrix keeps it symmetric. */
  lemma AssembledSystemSymmetric(s: Space, G: Matrix, k: nat, ke: seq<real>, pe: seq<real>)
    requires WellFormed(s) && Symmetric(G, s.nDofs) && k <= |s.cells|
    requires |ke| == s.nDofs && |pe| == s.nDofs
    ensures Symmetric(AssembledSystem(s, G, k, ke, pe), s.nDofs)
  {
    var Ls := CellSystems(s, ke, pe);
    forall i | 0 <= i < |Ls|
      ensures Symmetric(Ls[i], |CellDofs(s)[i]|)
    {
      var c := s.cells[i];
      assert CellFits(s, c);
      CellSystemSymmetric(s, c, FunctionValues(s, c, ke), FunctionValues(s, c, pe));
      assert CellDofs(s)[i] == c.dofs;
    }
    AssembleCellsSymmetric(G, s.nDofs, Ls, CellDofs(s), k);
  }

  /** Adding the cell overlaps to a symmetric matrix keeps it symmetric. */
  lemma AssembledOverlapSymmetric(s: Space, O: Matrix, k: nat)
    requires WellFormed(s) && Symmetric(O, s.nDofs) && k <= |s.cells|
    ensures Symmetric(AssembledOverlap(s, O, k), s.nDofs)
  {
    var Ls := CellOverlaps(s);
    forall i | 0 <= i < |Ls|
      ensures Symmetric(Ls[i], |CellDofs(s)[i]|)
    {
      var c := s.cells[i];
      assert CellFits(s, c);
      CellOverlapSymmetric(s, c);
      assert CellDofs(s)[i] == c.dofs;
    }
    AssembleCellsSymmetric(O, s.nDofs, Ls, CellDofs(s), k);
  }

  /** Adding one more cell keeps the system matrix symmetric. */
  lemma AssemblyStepSymmetric(s: Space, G: Matrix, k: nat, ke: seq<real>, pe: seq<real>)
    requires WellFormed(s) && IsMatrix(G, s.nDofs, s.nDofs) && 0 < k <= |s.cells|
    requires |ke| == s.nDofs && |pe| == s.nDofs
    requires Symmetric(AssembledSystem(s, G, k - 1, ke, pe), s.nDofs)
    ensures Symmetric(AssembledSystem(s, G, k, ke, pe), s.nDofs)
  {
    var c := s.cells[k - 1];
    assert CellFits(s, c);
    var kq := FunctionValues(s, c, ke);
    var pq := FunctionValues(s, c, pe);
    CellSystemSymmetric(s, c, kq, pq);
    assert CellSystems(s, ke, pe)[k - 1] == CellSystem(s, c, kq, pq) && CellDofs(s)[k - 1] == c.dofs;
    AssembleCellsStepSymmetric(G, s.nDofs, CellSystems(s, ke, pe), CellDofs(s), k);
  }

  /** Adding one more cell keeps the overlap matrix symmetric. */
  lemma OverlapStepSymmetric(s: Space, O: Matrix, k: nat)
    requires WellFormed(s) && IsMatrix(O, s.nDofs, s.nDofs) && 0 < k <= |s.cells|
    requires Symmetric(AssembledOverlap(s, O, k - 1), s.nDofs)
    ensures Symmetric(AssembledOverlap(s, O, k), s.nDofs)
  {
    var c := s.cells[k - 1];
    assert CellFits(s, c);
    CellOverlapSymmetric(s, c);
    assert CellOverlaps(s)[k - 1] == CellOverlap(s, c) && CellDofs(s)[k - 1] == c.dofs;
    AssembleCellsStepSymmetric(O, s.nDofs, CellOverlaps(s), CellDofs(s), k);
  }

  /** The cell system matrices of all cells, in cell order. */
  function CellSystems(s: Space, ke: seq<real>, pe: seq<real>): (Ls: seq<Matrix>)
    requires WellFormed(s) && |ke| == s.nDofs && |pe| == s.nDofs
    ensures |Ls| == |s.cells|
    ensures CellsFit(Ls, CellDofs(s), s.nDofs)
    ensures forall k :: 0 <= k < |s.cells| ==>
      Ls[k] == CellSystem(s, s.cells[k], FunctionValues(s, s.cells[k], ke), FunctionValues(s, s.cells[k], pe))
  {
    seq(|s.cells|, k requires 0 <= k < |s.cells| =>
      CellSystem(s, s.cells[k], FunctionValues(s, s.cells[k], ke), FunctionValues(s, s.cells[k], pe)))
  }

  /** The cell overlap matrices of all cells, in cell order. */
  function CellOverlaps(s: Space): (Ls: seq<Matrix>)
    requires WellFormed(s)
    ensures |Ls| == |s.cells|
    ensures CellsFit(Ls, CellDofs(s), s.nDofs)
    ensures forall k :: 0 <= k < |s.cells| ==> Ls[k] == CellOverlap(s, s.cells[k])
  {
    seq(|s.cells|, k requires 0 <= k < |s.cells| => CellOverlap(s, s.cells[k]))
  }

  /** Global assembly is a sum: every entry (r, c) of the assembled system
      is the starting entry plus the entries of the first k cell systems
      that land on (r, c) through their degree-of-freedom indices. */
  lemma AssembledSystemIsSum(s: Space, G: Matrix, k: nat, ke: seq<real>, pe: seq<real>, r: nat, c: nat)
    requires WellFormed(s) && IsMatrix(G, s.nDofs, s.nDofs) && k <= |s.cells|
    requires |ke| == s.nDofs && |pe| == s.nDofs && r < s.nDofs && c < s.nDofs
    ensures AssembledSystem(s, G, k, ke, pe)[r][c] == G[r][c] + PlacedSum(CellSystems(s, ke, pe), CellDofs(s), k, r, c)
  {
    AssembleCellsIsSum(G, s.nDofs, CellSystems(s, ke, pe), CellDofs(s), k, r, c);
  }

  /** The same for the overlap matrix. */
  lemma AssembledOverlapIsSum(s: Space, O: Matrix, k: nat, r: nat, c: nat)
    requires WellFormed(s) && IsMatrix(O, s.nDofs, s.nDofs) && k <= |s.cells| && r < s.nDofs && c < s.nDofs
    ensures AssembledOverlap(s, O, k)[r][c] == O[r][c] + PlacedSum(CellOverlaps(s), CellDofs(s), k, r, c)
  {
    AssembleCellsIsSum(O, s.nDofs, CellOverlaps(s), CellDofs(s), k, r, c);
  }

  /** The solution vector scaled to unit overlap norm, x / sqrt(x^T B x);
      a vector of zero norm is left as it is. */
  function Normalised(B: Matrix, v: seq<real>, sqrt: real -> real): (r: seq<real>)
    requires IsMatrix(B, |v|, |v|)
    ensures |r| == |v|
  {
    var root := sqrt(QuadraticForm(B, v));
    if root != 0.0 then ScaleVector(1.0 / root, v) else v
  }

  /** With an exact square root and a positive overlap norm, the normalised
      vector has unit overlap norm. */
  lemma NormalisedIsUnit(B: Matrix, v: seq<real>, sqrt: real -> real)
    requires IsMatrix(B, |v|, |v|)
    requires QuadraticForm(B, v) > 0.0 && sqrt(QuadraticForm(B, v)) * sqrt(QuadraticForm(B, v)) == QuadraticForm(B, v)
    ensures QuadraticForm(B, Normalised(B, v, sqrt)) == 1.0
  {
    var n2 := QuadraticForm(B, v);
    var root := sqrt(n2);
    assert root != 0.0;
    var a := 1.0 / root;
    RowsFormScales(B, a, v, |v|);
    InverseSquare(root, a, n2, QuadraticForm(B, ScaleVector(a, v)));
  }

  /** Scaling a square by the square of the inverse of its root gives one. */
  lemma InverseSquare(root: real, a: real, square: real, scaled: real)
    requires root != 0.0 && a == 1.0 / root && root * root == square && scaled == a * a * square
    ensures scaled == 1.0
  {
    assert a * root == 1.0;
    assert a * a * square == (a * root) * (a * root);
  }

  /** Normalisation keeps the zeros of the vector, so a vector that satisfies
      the homogeneous boundary constraints still does afterwards. */
  lemma NormalisedKeepsZeros(B: Matrix, v: seq<real>, sqrt: real -> real)
    requires IsMatrix(B, |v|, |v|)
    ensures forall i :: 0 <= i < |v| && v[i] == 0.0 ==> Normalised(B, v, sqrt)[i] == 0.0
  {
  }

  /** The eigenpairs the dense eigensolver hands back, and the number of
      steps it took. */
  datatype EigenResult = EigenResult(values: seq<real>, vectors: seq<seq<real>>, lastStep: nat)

  /** The solver returned count eigenpairs of vectors of length n. */
  predicate Fits(r: EigenResult, count: nat, n: nat)
  {
    |r.values| == count && |r.vectors| == count && forall i :: 0 <= i < count ==> |r.vectors[i]| == n
  }

  lemma AssemblyStep(s: Space, G: Matrix, O: Matrix, k: nat, ke: seq<real>, pe: seq<real>)
    requires WellFormed(s) && IsMatrix(G, s.nDofs, s.nDofs) && IsMatrix(O, s.nDofs, s.nDofs)
    requires |ke| == s.nDofs && |pe| == s.nDofs && k < |s.cells|
    ensures CellFits(s, s.cells[k])
    ensures AssembledSystem(s, G, k + 1, ke, pe)
         == AddLocalMatrix(AssembledSystem(s, G, k, ke, pe), s.nDofs,
                           CellSystem(s, s.cells[k], FunctionValues(s, s.cells[k], ke), FunctionValues(s, s.cells[k], pe)),
                           s.cells[k].dofs)
    ensures AssembledOverlap(s, O, k + 1)
         == AddLocalMatrix(AssembledOverlap(s, O, k), s.nDofs, CellOverlap(s, s.cells[k]), s.cells[k].dofs)
  {
    SystemStep(s, G, k, ke, pe);
    OverlapStep(s, O, k);
  }

  /** One pass of the cell loop of assemble: cell k's system and overlap
      matrices, distributed into the global matrices assembled so far. */
  method DistributeCell(s: Space, G: Matrix, O: Matrix, k: nat, ke: seq<real>, pe: seq<real>,
                        system: Matrix, overlap: Matrix) returns (newSystem: Matrix, newOverlap: Matrix)
    requires WellFormed(s) && IsMatrix(G, s.nDofs, s.nDofs) && IsMatrix(O, s.nDofs, s.nDofs)
    requires |ke| == s.nDofs && |pe| == s.nDofs && k < |s.cells|
    requires system == AssembledSystem(s, G, k, ke, pe) && overlap == AssembledOverlap(s, O, k)
    ensures newSystem == AssembledSystem(s, G, k + 1, ke, pe)
    ensures newOverlap == AssembledOverlap(s, O, k + 1)
  {
    var c := s.cells[k];
    AssemblyStep(s, G, O, k, ke, pe);
    var cellSystem, cellOverlap := AssembleCell(s, c, FunctionValues(s, c, ke), FunctionValues(s, c, pe));
    newSystem := AddLocalMatrix(system, s.nDofs, cellSystem, c.dofs);
    newOverlap := AddLocalMatrix(overlap, s.nDofs, cellOverlap, c.dofs);
  }

  /** The cell loop of assemble: every cell's system and overlap matrices,
      added to G and O. */
  method AssembleMatrices(s: Space, G: Matrix, O: Matrix, ke: seq<real>, pe: seq<real>) returns (system: Matrix, overlap: Matrix)
    requires WellFormed(s) && IsMatrix(G, s.nDofs, s.nDofs) && IsMatrix(O, s.nDofs, s.nDofs)
    requires |ke| == s.nDofs && |pe| == s.nDofs
    ensures system == AssembledSystem(s, G, |s.cells|, ke, pe)
    ensures overlap == AssembledOverlap(s, O, |s.cells|)
    ensures Symmetric(G, s.nDofs) ==> Symmetric(system, s.nDofs)
    ensures Symmetric(O, s.nDofs) ==> Symmetric(overlap, s.nDofs)
  {
    system := G;
    overlap := O;
    var k := 0;
    while k < |s.cells|
      invariant 0 <= k <= |s.cells|
      invariant system == AssembledSystem(s, G, k, ke, pe)
      invariant overlap == AssembledOverlap(s, O, k)
    {
      system, overlap := DistributeCell(s, G, O, k, ke, pe, system, overlap);
      k := k + 1;
    }
    if Symmetric(G, s.nDofs) {
      AssembledSystemSymmetric(s, G, |s.cells|, ke, pe);
    }
    if Symmetric(O, s.nDofs) {
      AssembledOverlapSymmetric(s, O, |s.cells|);
    }
  }

  /** Schroedinger::Problem: the system and overlap matrices, the
      eigenpairs, and the zero boundary constraints of the test space. */
  class Problem
  {
    var space: Option<Space>
    const nEigenpairs: nat
    var init: bool
    var systemMatrix: Matrix
    var overlapMatrix: Matrix
    var solutionValues: seq<real>
    var solutionVectors: seq<seq<real>>
    var constrained: set<nat>

    /** The space is well formed, and once initialised the matrices are
        symmetric n x n matrices and there are nEigenpairs values and
        vectors of length n. */
    predicate Valid()
      reads this
    {
      (space.Some? ==> WellFormed(space.value))
      && (init ==>
            space.Some?
            && Symmetric(systemMatrix, space.value.nDofs)
            && Symmetric(overlapMatrix, space.value.nDofs)
            && |solutionValues| == nEigenpairs
            && |solutionVectors| == nEigenpairs
            && (forall i :: 0 <= i < nEigenpairs ==> |solutionVectors[i]| == space.value.nDofs))
    }

    /** A problem without a test space. */
    constructor (eigenpairs: nat)
      ensures Valid() && !init && space == None && nEigenpairs == eigenpairs
    {
      space := None;
      nEigenpairs := eigenpairs;
      init := false;
      systemMatrix := [];
      overlapMatrix := [];
      solutionValues := [];
      solutionVectors := [];
      constrained := {};
    }

    /** A problem on the given test space. */
    constructor OnSpace(s: Space, eigenpairs: nat)
      requires WellFormed(s)
      ensures Valid() && !init && space == Some(s) && nEigenpairs == eigenpairs
    {
      space := Some(s);
      nEigenpairs := eigenpairs;
      init := false;
      systemMatrix := [];
      overlapMatrix := [];
      solutionValues := [];
      solutionVectors := [];
      constrained := {};
    }

    /** reinit: zero n x n matrices, nEigenpairs zero vectors and values,
        and the boundary degrees of freedom as the constrained ones. */
    method Reinit()
      requires Valid() && space.Some?
      modifies this
      ensures Valid() && init && space == old(space)
      ensures systemMatrix == ZeroMatrix(space.value.nDofs, space.value.nDofs)
      ensures overlapMatrix == ZeroMatrix(space.value.nDofs, space.value.nDofs)
      ensures |solutionVectors| == nEigenpairs
      ensures forall i :: 0 <= i < nEigenpairs ==> solutionVectors[i] == ZeroVector(space.value.nDofs)
      ensures solutionValues == ZeroVector(nEigenpairs)
      ensures constrained == space.value.boundary
    {
      var n := space.value.nDofs;
      systemMatrix := ZeroMatrix(n, n);
      overlapMatrix := ZeroMatrix(n, n);
      ZeroMatrixSymmetric(n);
      var vectors: seq<seq<real>> := [];
      var i := 0;
      while i < nEigenpairs
        invariant 0 <= i <= nEigenpairs
        invariant |vectors| == i && forall k :: 0 <= k < i ==> vectors[k] == ZeroVector(n)
      {
        vectors := vectors + [ZeroVector(n)];
        i := i + 1;
      }
      solutionVectors := vectors;
      var values: seq<real> := [];
      i := 0;
      while i < nEigenpairs
        invariant 0 <= i <= nEigenpairs
        invariant values == ZeroVector(i)
      {
        values := values + [0.0];
        i := i + 1;
      }
      solutionValues := values;
      constrained := space.value.boundary;
      init := true;
    }

    /** assemble: adds the cell system and overlap matrices of every cell
        of the space, for the nodal kinetic prefactor ke and potential pe,
        to the global matrices; they stay symmetric. */
    method Assemble(ke: seq<real>, pe: seq<real>)
      requires Valid() && init
      requires |ke| == space.value.nDofs && |pe| == space.value.nDofs
      modifies this
      ensures Valid() && init && space == old(space)
      ensures systemMatrix == AssembledSystem(space.value, old(systemMatrix), |space.value.cells|, ke, pe)
      ensures overlapMatrix == AssembledOverlap(space.value, old(overlapMatrix), |space.value.cells|)
      ensures solutionValues == old(solutionValues) && solutionVectors == old(solutionVectors)
      ensures constrained == old(constrained)
    {
      var s := space.value;
      var system, overlap := AssembleMatrices(s, systemMatrix, overlapMatrix, ke, pe);
      systemMatrix := system;
      overlapMatrix := overlap;
    }

    /** solve: the dense eigensolver is asked for the nEigenpairs smallest
        eigenpairs with at most nEigenpairs * n steps and tolerance 1e-24;
        each vector is then made to satisfy the zero boundary constraints
        and scaled to unit overlap norm. Returns the solver's last step. */
    method Solve(lapack: (Matrix, Matrix, nat, SolverControl) -> EigenResult, sqrt: real -> real) returns (lastStep: nat)
      requires Valid() && init
      requires Fits(lapack(systemMatrix, overlapMatrix, nEigenpairs,
                           SolverControl(nEigenpairs * |systemMatrix|, 1.0 / 1000000000000000000000000.0)),
                    nEigenpairs, space.value.nDofs)
      modifies this
      ensures Valid() && init && space == old(space)
      ensures systemMatrix == old(systemMatrix) && overlapMatrix == old(overlapMatrix) && constrained == old(constrained)
      ensures var r := lapack(systemMatrix, overlapMatrix, nEigenpairs,
                              SolverControl(nEigenpairs * |systemMatrix|, 1.0 / 1000000000000000000000000.0));
        && solutionValues == r.values
        && |solutionVectors| == nEigenpairs
        && (forall i :: 0 <= i < nEigenpairs ==>
              solutionVectors[i] == Normalised(overlapMatrix, ZeroConstrained(r.vectors[i], constrained), sqrt))
        && lastStep == r.lastStep
    {
      var control := SolverControl(nEigenpairs * |systemMatrix|, 1.0 / 1000000000000000000000000.0);
      var r := lapack(systemMatrix, overlapMatrix, nEigenpairs, control);
      var n := space.value.nDofs;
      solutionValues := r.values;
      var vectors := r.vectors;
      var i := 0;
      while i < nEigenpairs
        invariant 0 <= i <= nEigenpairs
        invariant |vectors| == nEigenpairs
        invariant forall k :: 0 <= k < nEigenpairs ==> |vectors[k]| == n
        invariant forall k :: 0 <= k < i ==>
          vectors[k] == Normalised(overlapMatrix, ZeroConstrained(r.vectors[k], constrained), sqrt)
        invariant forall k :: i <= k < nEigenpairs ==> vectors[k] == r.vectors[k]
      {
        var constrainedVector := ZeroConstrained(vectors[i], constrained);
        vectors := vectors[i := Normalised(overlapMatrix, constrainedVector, sqrt)];
        i := i + 1;
      }
      solutionVectors := vectors;
      lastStep := r.lastStep;
    }

    /** get_solution_eigenpairs: copies of the eigenvalues and eigenvectors. */
    method GetSolutionEigenpairs() returns (values: seq<real>, vectors: seq<seq<real>>)
      requires Valid() && init
      ensures values == solutionValues && vectors == solutionVectors
    {
      vectors := [];
      var i := 0;
      while i < nEigenpairs
        invariant 0 <= i <= nEigenpairs
        invariant vectors == solutionVectors[..i]
      {
        vectors := vectors + [solutionVectors[i]];
        i := i + 1;
      }
      values := [];
      i := 0;
      while i < nEigenpairs
        invariant 0 <= i <= nEigenpairs
        invariant values == solutionValues[..i]
      {
        values := values + [solutionValues[i]];
        i := i + 1;
      }
      assert vectors == solutionVectors[..nEigenpairs];
      assert values == solutionValues[..nEigenpairs];
    }
  }

  /** After solve, every eigenvector is zero on the constrained degrees of
      freedom, and, where the solver's vector has positive overlap norm
      after the constraints and the square root is exact, it has unit
      overlap norm. */
  lemma SolvedVectorsNormalised(B: Matrix, v: seq<real>, constrained: set<nat>, sqrt: real -> real)
    requires IsMatrix(B, |v|, |v|)
    ensures var w := Normalised(B, ZeroConstrained(v, constrained), sqrt);
      forall i :: 0 <= i < |v| && i in constrained ==> w[i] == 0.0
    ensures var u := ZeroConstrained(v, constrained);
      QuadraticForm(B, u) > 0.0 && sqrt(QuadraticForm(B, u)) * sqrt(QuadraticForm(B, u)) == QuadraticForm(B, u)
      ==> QuadraticForm(B, Normalised(B, u, sqrt)) == 1.0
  {
    var u := ZeroConstrained(v, constrained);
    NormalisedKeepsZeros(B, u, sqrt);
    if QuadraticForm(B, u) > 0.0 && sqrt(QuadraticForm(B, u)) * sqrt(QuadraticForm(B, u)) == QuadraticForm(B, u) {
      NormalisedIsUnit(B, u, sqrt);
    }
  }
}
