/** The container of a generalised eigenspectrum problem (A - lambda B) x = 0:
    its type, and the eigenvectors and eigenvalues sized to the number of
    wanted eigenpairs. The matrices themselves are not part of this model. */
module EigenspectrumSystem {

  /** The kinds of eigenspectrum problem. */
  datatype SystemType =
    | GeneralisedHermitian
    | GeneralisedNonHermitian
    | StandardHermitian
    | StandardNonHermitian

  /** The matrices of a problem are symmetric unless it is non-Hermitian. */
  predicate IsSymmetric(t: SystemType)
  {
    !(t == GeneralisedNonHermitian || t == StandardNonHermitian)
  }

  /** std::vector::resize: the first entries are kept, new ones take the
      fill value. */
  function Resize<T>(v: seq<T>, n: nat, fill: T): (r: seq<T>)
    ensures |r| == n
    ensures forall i :: 0 <= i < n ==> r[i] == if i < |v| then v[i] else fill
  {
    if n <= |v| then v[..n] else v + seq(n - |v|, _ => fill)
  }

  class EigenspectrumSystem {
    var systemType: SystemType
    /** The eigenvectors x. */
    var x: seq<seq<real>>
    /** The eigenvalues lambda. */
    var lambda: seq<real>
    var nEigenpairs: nat

    /** A generalised Hermitian problem for one eigenpair, with no vectors
        or values yet. */
    constructor ()
      ensures systemType == GeneralisedHermitian && nEigenpairs == 1
      ensures x == [] && lambda == []
    {
      systemType := GeneralisedHermitian;
      nEigenpairs := 1;
      x := [];
      lambda := [];
    }

    /** Sets the kind of problem. */
    method SetSystemType(t: SystemType)
      modifies this
      ensures systemType == t
      ensures x == old(x) && lambda == old(lambda) && nEigenpairs == old(nEigenpairs)
    {
      systemType := t;
    }

    /** Sizes the eigenpairs to nEigenpairs: the eigenvectors keep the ones
        already there and new ones are empty, and every eigenvalue is zero.
        The result says whether the matrices would be built symmetric. */
    method Reinit() returns (isSymmetric: bool)
      modifies this
      ensures isSymmetric <==> IsSymmetric(systemType)
      ensures x == Resize(old(x), nEigenpairs, [])
      ensures |lambda| == nEigenpairs && forall i :: 0 <= i < nEigenpairs ==> lambda[i] == 0.0
      ensures systemType == old(systemType) && nEigenpairs == old(nEigenpairs)
    {
      isSymmetric := true;
      if systemType == GeneralisedNonHermitian || systemType == StandardNonHermitian {
        isSymmetric := false;
      }
      x := Resize(x, nEigenpairs, []);
      lambda := Resize(lambda, nEigenpairs, 0.0);
      var i := 0;
      while i < nEigenpairs
        invariant 0 <= i <= nEigenpairs == |lambda|
        invariant forall k :: 0 <= k < i ==> lambda[k] == 0.0
        invariant x == Resize(old(x), nEigenpairs, []) && systemType == old(systemType) && nEigenpairs == old(nEigenpairs)
      {
        lambda := lambda[i := 0.0];
        i := i + 1;
      }
    }
  }
}
