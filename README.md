# QuantumDove core, modelled in Dafny

QuantumDove is a finite-element library for semiconductor nanostructures.
It solves Schroedinger's equation for the electrons of a quantum well, with
an effective mass and a potential that vary in space. It also solves
Poisson's equation for the electrostatic potential those electrons produce,
and alternates the two in a self-consistent field (SCF) loop. This project
models the core of the library and proves properties of it:

- **Crystal tensors.** The symmetry flags, and the stream operator that
  names a flag. The tensor base: moduli, rank, entries and symmetry. The
  elastic (rank 4) and dielectric (rank 2) tensors, whose `distribute`
  fills the entries from moduli given in Voigt order, according to the
  crystal group.
  Tensor entries C_ijkl have 0-based axis indices, as in the code (C0011
  couples the first two axes). The moduli are c0, c1, ... in the order
  given. A Voigt slot keeps its usual 1-based label, so slot 12 is the
  pair (11, 22) and holds C0011.
- **Fermi-Dirac statistics.** The density |psi|^2 and the number density
  g |psi|^2 occ, for one or several eigenpairs, where g is the
  two-dimensional density of states of an effective mass.
- **The Fick profile.** The analytic solution of the diffusion equation in
  one dimension, symmetric or a single step, used to build material
  profiles.
- **The oscillator pseudo-potentials.** |p|^2, isotropic and anisotropic.
- **The eigenspectrum system.** Its type, and the resizing of its
  eigenpairs.
- **The Schroedinger and Poisson problems.** Their life cycle (construct,
  `reinit`, `assemble`, `solve`, get the solution). Their cell kernels are
  triple loops over quadrature points and local degrees of freedom. Global
  assembly adds the cell matrices into the global ones. The normalisation of
  the eigenvectors and the tolerance of the linear solve are also modelled.
- **The two SCF drivers, step-1 and step-2.** The material profile, the
  kinetic prefactor, the number density, the charge rho, the largest update,
  the damping factor and the in-place damped update of the potential, over
  100 cycles.

The floating-point `double` of the library is Dafny's `real` throughout.
The transcendental functions are parameters of the members that use them:

- `erf` (property `Fick.IsErf`);
- `log(1 + exp(x))` (`softplus`, property `Statistics.IsSoftplus`);
- `sqrt`.

The eigensolver and the linear solver are also parameters:

- The problem classes take the dense eigensolver (`lapack`) and conjugate
  gradients (`cg`) as functions of the matrices.
- The drivers take the whole Schroedinger pipeline (`schroedinger`) and the
  whole Poisson pipeline (`poisson`) as functions of their inputs. The shapes
  these promise are stated by `Scf.EigensolverFits` and
  `Scf.LinearSolverFits`.

A finite-element space is a value (`FiniteElements.Space`). It holds:

- the cells, each with the global indices of its degrees of freedom;
- the shape values, shape gradients and JxW weights of the 2-point Gauss
  rule on that cell;
- the boundary degrees of freedom.

The drivers work on the support points of a one-dimensional space.

The library's `assert`s are handled in three ways:

- An `assert` on an argument becomes a `requires`.
- The `assert`s inside the tensors' `distribute` become a `Failed` outcome,
  because the library reaches them for ordinary inputs. These are an
  unsupported group, a wrong number of moduli, and the hexagonal dielectric
  rule.
- Every bug recorded under "## Findings" is modelled as written, and its
  correction is modelled separately, with the property it restores proved.

## Model

| member | source | states |
|---|---|---|
| MaterialSymmetry.Code | include/qdove/materials/material_symmetry.h:36-55 | the enumerator values are at most 7, and only null is 0 |
| MaterialSymmetry.CodeInjective | include/qdove/materials/material_symmetry.h:43-54 | the values are pairwise distinct, so the enumeration is a bijection onto 0..7 |
| MaterialSymmetry.Write | include/qdove/materials/material_symmetry.h:63-65 | the output always starts with the prefix "   SymmetryFlag::Crystal " |
| MaterialSymmetry.EmittedTable | include/qdove/materials/material_symmetry.h:67-74 | the exact list of names written for each of the eight flags, worked out from the bitwise ANDs |
| MaterialSymmetry.EmittedExactlySelected | include/qdove/materials/material_symmetry.h:67-74 | a name is written if and only if its value shares a bit with the flag |
| MaterialSymmetry.EmittedInOrder | include/qdove/materials/material_symmetry.h:67-74 | the names come out in strictly increasing order of value |
| MaterialSymmetry.NullNeverEmitted | include/qdove/materials/material_symmetry.h:67 | "null" is never written, for any flag |
| MaterialSymmetry.NullWritesOnlyPrefix | include/qdove/materials/material_symmetry.h:65-74 | the null flag writes the prefix and nothing else |
| MaterialSymmetry.NonNullEmitsItselfAndCubic | include/qdove/materials/material_symmetry.h:68-74 | every non-null flag writes its own name and also "cubic", and "cubic" comes last |
| MaterialSymmetry.NoFlagWrittenAlone | include/qdove/materials/material_symmetry.h:67-74 | as written, no flag is ever named by its own name alone |
| MaterialSymmetry.CorrectedEmitted | include/qdove/materials/material_symmetry.h:67-74 | the corrected selection by equality writes exactly the given flag |
| MaterialSymmetry.CorrectedWrite | include/qdove/materials/material_symmetry.h:63-74 | the corrected output is the prefix followed by the flag's own name |
| MaterialSymmetry.CorrectedWriteInjective | include/qdove/materials/material_symmetry.h:63-74 | with the correction, two flags give the same text if and only if they are equal |
| TensorBase.ComponentsOfUsedRanks | source/materials/tensor_base.cc:41-47 | rank 2 has 9 components and rank 4 has 81 |
| TensorBase.TensorBase.constructor | include/qdove/materials/tensor_base.h:58-67 | requires a non-empty moduli list; n_constants is its size; the constants are the moduli in order; the tensor starts at zero; the symmetry is left unset |
| TensorBase.TensorBase.NComponents | source/materials/tensor_base.cc:41-47 | the number of components is the number of stored entries |
| TensorBase.TensorBase.SymmetryFlag | source/materials/tensor_base.cc:49-54 | returns the stored symmetry and changes nothing |
| TensorBase.TensorBase.Distribute | source/materials/tensor_base.cc:56-62 | the base distribute always fails |
| TensorBase.TensorBase.Clear | source/materials/tensor_base.cc:34-39 | after the destructor's clear, every entry is zero |
| ElasticTensor.AtInjective | source/materials/elastic_tensor.cc:64-173 | the flat storage position of C_ijkl determines all four indices |
| ElasticTensor.Voigt | source/materials/elastic_tensor.cc:60-61 | the Voigt index of a pair is below 6, and below 3 exactly for a diagonal pair |
| ElasticTensor.SetModulus | source/materials/elastic_tensor.cc:70 | a chained assignment writes v to every entry whose Voigt pair is {a, b} and changes no other entry |
| ElasticTensor.FillHexagonal | source/materials/elastic_tensor.cc:63-88 | the hexagonal assignments give each entry they write the reference hexagonal stiffness and leave the others unchanged |
| ElasticTensor.FillTrigonal | source/materials/elastic_tensor.cc:102-137 | the same for the trigonal (group 32) assignments |
| ElasticTensor.FillCubic | source/materials/elastic_tensor.cc:148-173 | the same for the cubic assignments as written |
| ElasticTensor.FillCubicNormal | source/materials/elastic_tensor.cc:148-164 | the normal-stress block of the cubic rule: c0 on the diagonal and in the 12 slot, c1 in 13 and 23 |
| ElasticTensor.FillNormal | source/materials/elastic_tensor.cc:63-79 | the normal-stress assignments shared by the hexagonal and trigonal rules write c11 to 11 and 22, c12 to 12, c13 to 13 and 23, c33 to 33, and leave every slot with a shear index unchanged |
| ElasticTensor.FillTrigonalShear | source/materials/elastic_tensor.cc:111-137 | the trigonal assignments involving a shear slot give each entry they write the reference trigonal stiffness (14, 24 = -14, 44, 55, 56, 66) and leave the others unchanged |
| ElasticTensor.VoigtOnto | source/materials/elastic_tensor.cc:60-61 | every Voigt index 0..5 is the index of some pair (i <= j) |
| ElasticTensor.EveryVoigtSlotStored | source/materials/elastic_tensor.cc:60-61 | every Voigt slot (a, b) of every group is held by some entry C_ijkl of the reference tensor: the 4-index storage loses no modulus of the 6 x 6 table |
| ElasticTensor.StiffnessSymmetries | source/materials/elastic_tensor.cc:64-173 | for every group, the reference tensor has both minor symmetries and the major symmetry |
| ElasticTensor.HalfTurnAboutFirstAxis | source/materials/elastic_tensor.cc:64-173 | every entry with an odd number of indices off the first axis is zero, for all three groups |
| ElasticTensor.HexagonalSwapsFirstTwoAxes | source/materials/elastic_tensor.cc:63-88 | the hexagonal tensor is unchanged when the first two axes are exchanged |
| ElasticTensor.TrigonalCouplesNormalAndShear | source/materials/elastic_tensor.cc:111-134 | the trigonal "14" entries are c3, the "24" entries are -c3, and the "56" entries are c3 |
| ElasticTensor.HexagonalEntries | source/materials/elastic_tensor.cc:63-88 | C0000 = C1111 = c0, C0011 = c1, C0022 = C1122 = c2, C2222 = c3, shear c4, and C0101 = (c0 - c1)/2 |
| ElasticTensor.CubicAsWrittenBreaksAxisSymmetry | source/materials/elastic_tensor.cc:157-161 | as written, C0011 is c0 and C0022 is c1, so the cubic tensor changes under an axis swap when c0 != c1 |
| ElasticTensor.CorrectedCubicAxisSymmetric | source/materials/elastic_tensor.cc:148-173 | the corrected cubic tensor is invariant under every permutation of the three axes |
| ElasticTensor.CorrectedCubicDiffersOnlyInSlot12 | source/materials/elastic_tensor.cc:157-158 | the corrected and written cubic tensors differ only in Voigt slot 12 (C0011 and C1100), where they hold c1 and c0 |
| ElasticTensor.ElasticTensor.constructor | include/qdove/materials/tensor_base.h:58-67 | a rank-4 base of 81 zero entries holding the moduli |
| ElasticTensor.ElasticTensor.Distribute | source/materials/elastic_tensor.cc:30-52 | clears the tensor and dispatches on the group. On success every entry equals the reference stiffness. An unsupported group or a wrong moduli count fails and leaves zeros |
| ElasticTensor.ElasticTensor.DistributeToHexagonal | source/materials/elastic_tensor.cc:55-89 | requires the hexagonal group and checks for 5 moduli; writes the hexagonal entries and changes nothing else |
| ElasticTensor.ElasticTensor.DistributeToTrigonal | source/materials/elastic_tensor.cc:91-138 | requires the trigonal group and checks for 6 moduli; writes the trigonal entries |
| ElasticTensor.ElasticTensor.DistributeToCubic | source/materials/elastic_tensor.cc:140-174 | requires the cubic group and checks for 3 moduli; writes the cubic entries as written |
| DielectricTensor.HexagonalNeverSucceeds | source/materials/dielectric_tensor.cc:54-70 | the hexagonal rule never succeeds. With one modulus it reads modulus 1 out of bounds; otherwise its count check fails |
| DielectricTensor.PermittivityShape | source/materials/dielectric_tensor.cc:72-107 | a successful rule gives a symmetric diagonal tensor. Its first two diagonal entries are c0. The third is c1 for trigonal and c0 for cubic |
| DielectricTensor.CorrectedHexagonalOutcome | source/materials/dielectric_tensor.cc:57 | the corrected hexagonal rule succeeds exactly with two moduli |
| DielectricTensor.CorrectedHexagonalPermittivity | source/materials/dielectric_tensor.cc:59-69 | the corrected hexagonal tensor is diag(c0, c0, c1), the same as the trigonal one |
| DielectricTensor.DielectricTensor.constructor | include/qdove/materials/tensor_base.h:58-67 | a rank-2 base of 9 zero entries holding the moduli |
| DielectricTensor.DielectricTensor.Distribute | source/materials/dielectric_tensor.cc:30-52 | clears the tensor and dispatches on the group. On success every entry equals the reference permittivity. The failed hexagonal rule leaves diag(c0, c0, 0); any other failure leaves zeros |
| DielectricTensor.DielectricTensor.DistributeToHexagonal | source/materials/dielectric_tensor.cc:54-70 | checks for 1 modulus, writes eps00 and eps11, and fails reading the second modulus |
| DielectricTensor.DielectricTensor.DistributeToTrigonal | source/materials/dielectric_tensor.cc:72-89 | checks for 2 moduli and writes diag(c0, c0, c1) |
| DielectricTensor.DielectricTensor.DistributeToCubic | source/materials/dielectric_tensor.cc:91-107 | checks for 1 modulus and writes diag(c0, c0, c0) |
| Statistics.Occupancy | source/models/statistics.cc:58-59 | with softplus positive, the integrated Fermi-Dirac occupancy k_B T log(1 + exp((E_F - E)/k_B T)) is positive for every level |
| Statistics.OccupancyMonotone | source/models/statistics.cc:58-59 | the occupancy does not decrease as the level drops further below the Fermi energy |
| Statistics.Density | source/models/statistics.cc:39-43 | the density has the length of the wavefunction |
| Statistics.DensityOfSignedWavefunction | source/models/statistics.cc:42-43 | the density is non-negative and does not see the sign of the wavefunction |
| Statistics.ComputeDensity | source/models/statistics.cc:35-44 | the loop computes psi[i]^2 at every node |
| Statistics.ComputeNumberDensity | source/models/statistics.cc:46-64 | requires equal lengths; the loop computes g[i] psi[i]^2 occ with one occupancy per pair |
| Statistics.NumberDensity | source/models/statistics.cc:46-64 | entry i is g[i] times the density psi[i]^2 times the occupancy of the level, and it is non-negative wherever g is |
| Statistics.TotalNumberDensity | source/models/statistics.cc:75-89 | the sum over pairs has the length of the density of states |
| Statistics.ComputeNumberDensitySum | source/models/statistics.cc:66-90 | requires as many energies as wavefunctions, matching lengths and at least one pair. The result starts at zero and adds each pair's number density in order |
| Statistics.SinglePairTotal | source/models/statistics.cc:81-89 | with one pair the sum is that pair's number density |
| Statistics.TotalNumberDensityBounds | source/models/statistics.cc:75-89 | with g >= 0, each node's total is at least every pair's contribution, and that contribution is at least 0 |
| Statistics.TotalNumberDensityNonNegative | source/models/statistics.cc:75-89 | with g >= 0, the total number density is non-negative |
| Statistics.DensityOfStates | source/models/statistics.cc:96-100 | the density of states has the length of the mass |
| Statistics.DensityOfStatesInverts | source/models/statistics.cc:99-100 | g is the mass times the positive constant M0/(hbar^2 pi). It is positive exactly where the mass is, and dividing by the constant recovers the mass |
| Statistics.ComputeDensityOfStates | source/models/statistics.cc:92-101 | the loop computes m[i] M0 / (hbar^2 pi) at every node |
| Fick.Profile | source/models/fick.cc:99-118 | with the error function, a positive rate and height, and a positive half-length for the symmetric profile, both profiles lie in [0, h]; a negative half-length, which the length setter accepts, is outside this bound |
| Fick.SymmetricProfileIsEven | source/models/fick.cc:109-110 | for any erf, the symmetric profile is even in x |
| Fick.SymmetricProfileCentre | source/models/fick.cc:109-110 | at the centre of the well the symmetric profile is h erf(L/r) |
| Fick.StepProfileShape | source/models/fick.cc:111-112 | with the error function, the step profile equals h/2 at x = L and does not decrease in x |
| Fick.Solution.Default | source/models/fick.cc:34-40 | a fresh solution is symmetric and not initialised |
| Fick.Solution.constructor | source/models/fick.cc:42-51 | the same, on a test space |
| Fick.Solution.Reinit | source/models/fick.cc:57-63 | sets init and changes no parameter |
| Fick.Solution.SetInitialLength | source/models/fick.cc:65-72 | requires a non-zero length; sets it and nothing else |
| Fick.Solution.SetInitialHeight | source/models/fick.cc:74-81 | requires 0 < h <= 1; sets it and nothing else |
| Fick.Solution.SetInitialRate | source/models/fick.cc:83-90 | requires a positive rate; sets it and nothing else |
| Fick.Solution.SetSymmetricProfile | source/models/fick.cc:92-97 | sets the profile kind and nothing else |
| Fick.Solution.Value | source/models/fick.cc:99-118 | the value of the current parameters; with the error function, 0 < h <= 1 and r > 0 (which the setters demand) and L > 0 for the symmetric profile, it is a material fraction in [0, 1]. The length setter also accepts L < 0, for which the symmetric profile lies in [-h, 0]; the bound is not stated for that case |
| Fick.Solution.ValueList | source/models/fick.cc:120-131 | requires equal lengths; out[i] is the profile at points[i] |
| Fick.Solution.InterpolateAnalyticSolution | source/models/fick.cc:133-146 | requires init; one value per degree of freedom, the profile at its support point |
| Vectors.ZeroSumOfSquares | source/psuedopotentials/function_library.cc:34 | a vector with every entry zero has zero squared norm: \|p\|^2 vanishes at the origin |
| FunctionLibrary.SquareNormScales | source/psuedopotentials/function_library.cc:34 | \|a p\|^2 = a^2 \|p\|^2 |
| FunctionLibrary.UnitSpringsGiveSquareNorm | source/psuedopotentials/function_library.cc:60-61 | the spring-weighted norm with unit springs is \|p\|^2 |
| FunctionLibrary.IsotropicValue | source/psuedopotentials/function_library.cc:29-35 | the isotropic value is non-negative, zero at the origin, and even |
| FunctionLibrary.AnisotropicValue | source/psuedopotentials/function_library.cc:55-62 | the anisotropic value is the spring-weighted norm with every spring constant one |
| FunctionLibrary.AnisotropicIsIsotropic | source/psuedopotentials/function_library.cc:29-62 | the two oscillators agree at every point |
| FunctionLibrary.IsotropicValueList | source/psuedopotentials/function_library.cc:37-50 | requires equal sizes; values[i] is the isotropic value at points[i] |
| FunctionLibrary.AnisotropicValueList | source/psuedopotentials/function_library.cc:64-75 | requires equal sizes; values[i] is the anisotropic value at points[i] |
| EigenspectrumSystem.Resize | source/generic_linear_algebra/eigenspectrum_system.cc:83-87 | std::vector::resize keeps the first entries and fills the rest |
| EigenspectrumSystem.EigenspectrumSystem.constructor | source/generic_linear_algebra/eigenspectrum_system.cc:31-35 | the default type is generalised Hermitian, for one eigenpair |
| EigenspectrumSystem.EigenspectrumSystem.SetSystemType | source/generic_linear_algebra/eigenspectrum_system.cc:37-43 | stores exactly the given type |
| EigenspectrumSystem.EigenspectrumSystem.Reinit | source/generic_linear_algebra/eigenspectrum_system.cc:45-90 | symmetric unless the type is non-Hermitian; x resized to n_eigenpairs; n_eigenpairs eigenvalues, all zero |
| FiniteElements.ZeroMatrixSymmetric | source/models/schroedinger.cc:68-74 | the freshly reinitialised zero matrix is symmetric |
| FiniteElements.DotSymmetric | source/models/schroedinger.cc:146-148 | the product of two gradients does not depend on their order |
| FiniteElements.FunctionValues | source/models/schroedinger.cc:135-136 | get_function_values gives one value per quadrature point |
| FiniteElements.ZeroFunctionValues | source/models/poisson.cc:121 | a zero nodal vector has zero values at every quadrature point |
| FiniteElements.AddLocalMatrix | source/models/schroedinger.cc:168-171 | distribute_local_to_global adds local entry (i, j) at (dofs[i], dofs[j]) and changes no other entry; every global entry (r, c) becomes G[r][c] plus the cell matrix seen at (r, c) |
| FiniteElements.AddLocalVector | source/models/poisson.cc:153-156 | distribute_local_to_global adds local entry i at dofs[i] and changes no other entry; every global entry r becomes g[r] plus the cell vector seen at r |
| FiniteElements.AddLocalMatrixSymmetric | source/models/schroedinger.cc:168-176 | adding a symmetric cell matrix keeps the global matrix symmetric |
| FiniteElements.AssembleCellsIsSum | source/models/poisson.cc:144-157 | after distributing the first k cell matrices into G one cell after the other, every global entry (r, c) is G[r][c] plus the sum over those cells of their entries whose dof indices place them at (r, c) |
| FiniteElements.AssembleCellsSymmetric | source/models/poisson.cc:144-157 | distributing any number of symmetric cell matrices into a symmetric global matrix keeps it symmetric |
| FiniteElements.ZeroConstrained | source/models/schroedinger.cc:204 | constraints.distribute with homogeneous boundary constraints zeroes the constrained entries and keeps the others |
| Schroedinger.SystemTerm | source/models/schroedinger.cc:144-155 | the contribution of one quadrature point is non-negative on the diagonal when ke, pe and JxW are non-negative there |
| Schroedinger.OverlapTerm | source/models/schroedinger.cc:144-155 | the overlap contribution of one quadrature point is non-negative on the diagonal when JxW is |
| Schroedinger.SystemEntry | source/models/schroedinger.cc:144-155 | the cell system entry (i, j) is the sum of the per-point terms over the quadrature points; its properties are SystemEntryDiagonalNonNegative, SystemEntrySymmetric, SystemEntryAdditive and SystemEntryScales |
| Schroedinger.SystemEntryDiagonalNonNegative | source/models/schroedinger.cc:144-155 | a diagonal cell system entry is non-negative when ke, pe and JxW are non-negative at every quadrature point |
| Schroedinger.OverlapEntry | source/models/schroedinger.cc:157-161 | a diagonal cell overlap entry is non-negative when JxW is non-negative at every quadrature point |
| Schroedinger.CellOverlap | source/models/schroedinger.cc:138-161 | the cell overlap is a dofs_per_cell square matrix with a non-negative diagonal when every JxW is non-negative |
| Schroedinger.CellSystem | source/models/schroedinger.cc:138-155 | the cell system is a dofs_per_cell square matrix |
| Schroedinger.SystemTermSymmetric | source/models/schroedinger.cc:144-155 | the contribution of one quadrature point to the cell system is symmetric in (i, j) |
| Schroedinger.CellSystemSymmetric | source/models/schroedinger.cc:138-155 | the cell system matrix is symmetric |
| Schroedinger.CellOverlapSymmetric | source/models/schroedinger.cc:138-161 | the cell overlap matrix is symmetric |
| Schroedinger.SystemEntrySymmetric | source/models/schroedinger.cc:144-155 | each cell system entry is symmetric in (i, j) |
| Schroedinger.SystemEntryAdditive | source/models/schroedinger.cc:144-155 | each cell system entry is additive in the pair of coefficients (ke, pe) |
| Schroedinger.SystemEntryScales | source/models/schroedinger.cc:144-155 | scaling ke and pe by a scales each cell system entry by a |
| Schroedinger.CellSystemLinear | source/models/schroedinger.cc:138-155 | the cell system matrix is linear in (ke, pe): additive in the pair and homogeneous under a common factor |
| Schroedinger.CellSystemLinearAt | source/models/schroedinger.cc:144-155 | entry (i, j) of the cell system is additive in the pair (ke, pe) and homogeneous under a common factor |
| Schroedinger.OverlapEntrySymmetric | source/models/schroedinger.cc:157-161 | each cell overlap entry is symmetric in (i, j) |
| Schroedinger.OverlapIsUnitPotentialSystem | source/models/schroedinger.cc:144-161 | the overlap entry is the system entry with ke = 0 and pe = 1, so it depends on neither ke nor pe |
| Schroedinger.SystemSplits | source/models/schroedinger.cc:144-155 | the system entry is its kinetic part (pe = 0) plus its potential part (ke = 0) |
| Schroedinger.AssembleCell | source/models/schroedinger.cc:130-162 | starting from zero cell matrices, the q/j/i loops compute the cell system and cell overlap |
| Schroedinger.DistributeCell | source/models/schroedinger.cc:164-177 | given the global matrices assembled over the cells before cell k, adding cell k's system and overlap gives the global matrices assembled over the first k + 1 cells |
| Schroedinger.AddPoint | source/models/schroedinger.cc:139-162 | the j and i loops for one quadrature point add that point's contribution to every entry of both cell matrices |
| Schroedinger.AddColumn | source/models/schroedinger.cc:140-162 | the i loop for one point and column j adds the point's contribution to that column of both cell matrices and changes no other entry |
| Schroedinger.AssembledSystemSymmetric | source/models/schroedinger.cc:128-178 | adding every cell system to a symmetric global matrix keeps it symmetric |
| Schroedinger.AssemblyStepSymmetric | source/models/schroedinger.cc:166-171 | adding one more cell system keeps the global matrix symmetric |
| Schroedinger.OverlapStepSymmetric | source/models/schroedinger.cc:166-176 | adding one more cell overlap keeps the global overlap matrix symmetric |
| Schroedinger.AssembledOverlapSymmetric | source/models/schroedinger.cc:128-178 | adding every cell overlap to a symmetric global matrix keeps it symmetric |
| Schroedinger.AssembledSystem | source/models/schroedinger.cc:128-178 | the global system matrix after the first k cells keeps the n_dofs x n_dofs shape; its entries are stated by AssembledSystemIsSum |
| Schroedinger.AssembledOverlap | source/models/schroedinger.cc:128-178 | the same for the global overlap matrix; its entries are stated by AssembledOverlapIsSum |
| Schroedinger.AssembledSystemIsSum | source/models/schroedinger.cc:128-178 | every global system entry (r, c) is the starting entry plus the sum over the cells of their system entries that their dof indices place at (r, c) |
| Schroedinger.AssembledOverlapIsSum | source/models/schroedinger.cc:128-178 | the same for the overlap matrix and the cell overlap matrices |
| Schroedinger.AssembleMatrices | source/models/schroedinger.cc:128-178 | the cell loop adds every cell's system and overlap matrix into the global ones; each result is symmetric when its starting matrix is |
| FiniteElements.DotScales | source/models/schroedinger.cc:206 | scaling a vector scales its products by the same factor |
| FiniteElements.RowsFormIsBilinear | source/models/schroedinger.cc:205-206 | the overlap norm squared is the bilinear form of the vector with itself |
| FiniteElements.BilinearScalesLeft | source/models/schroedinger.cc:206 | the bilinear form is linear in its first argument |
| FiniteElements.BilinearScalesRight | source/models/schroedinger.cc:206 | the bilinear form is linear in its second argument |
| FiniteElements.RowsFormScales | source/models/schroedinger.cc:205-206 | the overlap norm squared is homogeneous of degree two |
| Schroedinger.Normalised | source/models/schroedinger.cc:205-206 | the normalised vector has the length of the solution vector |
| Schroedinger.NormalisedIsUnit | source/models/schroedinger.cc:205-206 | with a positive overlap norm and an exact square root, the normalised vector has unit overlap norm |
| Schroedinger.NormalisedKeepsZeros | source/models/schroedinger.cc:204-206 | normalising keeps every zero entry zero |
| Schroedinger.SolvedVectorsNormalised | source/models/schroedinger.cc:202-207 | after solve, every eigenvector is zero on the boundary; with a positive norm and an exact square root it has unit overlap norm |
| Schroedinger.Problem.constructor | source/models/schroedinger.cc:37-41 | a problem with no space: not initialised, and n_eigenpairs is the given count |
| Schroedinger.Problem.OnSpace | source/models/schroedinger.cc:43-53 | the same, on a test space |
| Schroedinger.Problem.Reinit | source/models/schroedinger.cc:60-90 | sets init. Both matrices become n x n zero matrices. There are n_eigenpairs zero vectors and n_eigenpairs zero values. The constrained set becomes the boundary |
| Schroedinger.Problem.Assemble | source/models/schroedinger.cc:93-182 | requires init and ke, pe of length n_dofs. Adds every cell's matrices into the global ones, keeps them symmetric, and changes nothing else |
| Schroedinger.Problem.Solve | source/models/schroedinger.cc:187-210 | runs the eigensolver with at most n_eigenpairs x m steps and tolerance 1e-24. It stores its values. It stores its vectors with the constrained entries zeroed and then normalised. It returns the solver's last step |
| Schroedinger.Problem.GetSolutionEigenpairs | source/models/schroedinger.cc:213-230 | returns copies of the stored values and vectors and changes nothing |
| Poisson.CellStiffness | source/models/poisson.cc:126-134 | the cell stiffness is a dofs_per_cell square matrix |
| Poisson.CellLoad | source/models/poisson.cc:136-140 | the cell load has one entry per local degree of freedom |
| Poisson.StiffnessTerm | source/models/poisson.cc:129-133 | the stiffness contribution grad phi_i . grad phi_j JxW of one quadrature point is non-negative on the diagonal when JxW is |
| Poisson.LoadTerm | source/models/poisson.cc:136-140 | the load contribution f phi_j JxW of one quadrature point; its properties are LoadEntryNonNegative, LoadEntryAdditive and LoadEntryScales |
| Poisson.StiffnessEntry | source/models/poisson.cc:129-133 | a diagonal cell stiffness entry, summed over the quadrature points, is non-negative when every JxW is |
| Poisson.LoadEntry | source/models/poisson.cc:136-140 | the cell load entry j summed over the quadrature points; its properties are the LoadEntry lemmas |
| Poisson.LoadEntryNonNegative | source/models/poisson.cc:136-140 | a cell load entry is non-negative when the right-hand side, the shape value and JxW are non-negative at every quadrature point |
| Poisson.StiffnessIsUnitKineticSystem | source/models/poisson.cc:129-133 | the stiffness entry is the Schroedinger system entry with ke = 1 and pe = 0, so it does not depend on the right-hand side |
| Poisson.CellStiffnessSymmetric | source/models/poisson.cc:126-134 | the cell stiffness matrix is symmetric |
| Poisson.StiffnessEntrySymmetric | source/models/poisson.cc:129-133 | each stiffness entry is symmetric in (i, j) |
| Poisson.ZeroLoadEntry | source/models/poisson.cc:136-140 | a zero right-hand side gives a zero cell load |
| Poisson.LoadEntryAdditive | source/models/poisson.cc:136-140 | the cell load is additive in the right-hand side |
| Poisson.LoadEntryScales | source/models/poisson.cc:136-140 | scaling the right-hand side by a scales each cell load entry by a |
| Poisson.AssembleCell | source/models/poisson.cc:116-142 | starting from zeros, the loops compute the cell stiffness (i loop) and then the cell load (after it), for every q and j |
| Poisson.DistributeCell | source/models/poisson.cc:144-156 | given the global system assembled over the cells before cell k, adding cell k's matrix and load vector gives the global system assembled over the first k + 1 cells |
| Poisson.AssembledStiffnessIsSum | source/models/poisson.cc:114-157 | every global stiffness entry (r, c) is the starting entry plus the sum over the cells of their stiffness entries that their dof indices place at (r, c) |
| Poisson.AssembledLoadIsSum | source/models/poisson.cc:114-157 | every global load entry r is the starting entry plus the sum over the cells of their load entries placed at r |
| Poisson.AssembledStiffnessSymmetric | source/models/poisson.cc:114-157 | adding every cell stiffness to a symmetric global matrix keeps it symmetric |
| Poisson.AssembledStiffness | source/models/poisson.cc:114-157 | the global stiffness matrix after the first k cells keeps the n_dofs x n_dofs shape; its entries are stated by AssembledStiffnessIsSum |
| Poisson.AssembledLoad | source/models/poisson.cc:114-157 | the global load vector after the first k cells keeps length n_dofs; its entries are stated by AssembledLoadIsSum |
| Poisson.StiffnessStepSymmetric | source/models/poisson.cc:148-151 | adding one more cell keeps the global stiffness matrix symmetric |
| Poisson.ZeroRightHandSide | source/models/poisson.cc:114-157 | a zero right-hand side assembled onto a zero vector gives a zero global load |
| Poisson.ZeroLoadStep | source/models/poisson.cc:153-156 | adding one more cell's load to a zero load keeps it zero |
| Poisson.AssembleSystem | source/models/poisson.cc:114-157 | the cell loop adds every cell's stiffness and load into the global ones |
| Poisson.Tolerance | source/models/poisson.cc:168-169 | the tolerance 1e-8 \|b\| is non-negative for a non-negative square root, and zero for a zero right-hand side when sqrt(0) = 0 |
| Poisson.Problem.constructor | source/models/poisson.cc:37-41 | a problem with no space, not initialised |
| Poisson.Problem.OnSpace | source/models/poisson.cc:43-50 | the same, on a test space |
| Poisson.Problem.Reinit | source/models/poisson.cc:57-79 | sets init. The matrix becomes an n x n zero matrix. The right-hand side and solution become zero vectors of length n. The constrained set becomes the boundary |
| Poisson.Problem.Assemble | source/models/poisson.cc:82-161 | requires init and a right-hand side of length n_dofs. Adds every cell's stiffness and load, keeps the matrix symmetric, and changes nothing else |
| Poisson.Problem.Solve | source/models/poisson.cc:164-176 | runs cg from the current solution, with at most |solution| steps and tolerance 1e-8 times the l2 norm of the right-hand side. It stores the result and returns the last step |
| Poisson.Problem.GetSolutionVector | source/models/poisson.cc:181-187 | returns a copy of the stored solution and changes nothing |
| Scf.Abs | examples/step-1/step-1.cc:220 | fabs is non-negative and equals x or -x |
| Scf.Updates | examples/step-1/step-1.cc:217-221 | one update per node |
| Scf.MaxAbs | examples/step-1/step-1.cc:216-221 | the std::max fold over the first k updates is non-negative and bounds the absolute value of each of them |
| Scf.MaxAbsIsMaximum | examples/step-1/step-1.cc:216-221 | the std::max fold is >= 0 and bounds every \|update\|; it is 0 or one of them |
| Scf.ComputeMaxUpdate | examples/step-2/step-2.cc:230-235 | the max_update loop computes the fold over the updates against the given baseline |
| Scf.AdaptiveAlpha | examples/step-1/step-1.cc:224-226 | the adaptive factor lies in (0, 1]; alpha times a non-negative max_update is at most the cutoff, and exactly the cutoff when max_update exceeds it |
| Scf.Relaxed | examples/step-2/step-2.cc:243-248 | the damped update keeps the number of nodes |
| Scf.Relax | examples/step-2/step-2.cc:243-248 | the in-place update loop turns the potential into the damped update of the old potential |
| Scf.RelaxedIsInterpolation | examples/step-1/step-1.cc:231-237 | each node moves to (1 - alpha) times its old value plus alpha times (solution + baseline); a node already at that value does not move |
| Scf.RelaxedMovesByUpdate | examples/step-2/step-2.cc:243-248 | each node moves by exactly alpha times its update, the quantity max_update bounds |
| Scf.Kinetic | examples/step-1/step-1.cc:151-153 | one prefactor per node |
| Scf.KineticPositiveAndDecreasing | examples/step-1/step-1.cc:151-153 | a positive mass gives a positive prefactor, and a heavier one a smaller prefactor |
| Scf.ComputeKinetic | examples/step-1/step-1.cc:151-153 | the loop computes hbar^2 / (2 m M0) at every node |
| Step1.Material | examples/step-1/step-1.cc:130-136 | one material value per support point |
| Step1.MaterialInUnitInterval | examples/step-1/step-1.cc:130-136 | the material lies in [0, 1] and is even about the centre of the well |
| Step1.InitialPotential | examples/step-1/step-1.cc:139-141 | one initial potential per node |
| Step1.InitialPotentialRange | examples/step-1/step-1.cc:139-141 | the initial potential is the band edge where there is no material, 0 where there is full material, and in between otherwise |
| Step1.EffectiveMasses | examples/step-1/step-1.cc:145-147 | the constant GaAs mass at every node |
| Step1.Charge | examples/step-1/step-1.cc:200-204 | one charge value per node |
| Step1.ChargeSigns | examples/step-1/step-1.cc:200-204 | the scale 4 pi e^2/permittivity is positive. Doped nodes above the Fermi energy are negative. Every other node is the scaled density, non-negative when the density is |
| Step1.FirstCycleHasNoDoping | examples/step-1/step-1.cc:201 | with no solution yet, the charge is the scaled density alone |
| Step1.Start | examples/step-1/step-1.cc:157-159 | the first state fits the nodes and has no solution |
| Step1.Baseline | examples/step-1/step-1.cc:233 | one baseline value per node |
| Step1.Cycle | examples/step-1/step-1.cc:164-237 | after a cycle the state has a solution on every node |
| Step1.Iterate | examples/step-1/step-1.cc:164 | after k cycles the state fits the nodes, and from the first cycle on it has a full solution |
| Step1.ComputeInitialPotential | examples/step-1/step-1.cc:139-141 | the loop computes band_edge - material band_edge at every node |
| Step1.ComputeEffectiveMasses | examples/step-1/step-1.cc:145-147 | the loop sets the GaAs mass at every node |
| Step1.ComputeCharge | examples/step-1/step-1.cc:200-204 | the copy, doping and scaling loops compute the charge |
| Step1.InterpolateMaterial | examples/step-1/step-1.cc:130-136 | the Fick solution, set up with the well's parameters and interpolated, gives the material profile |
| Step1.StartPotential | examples/step-1/step-1.cc:157-159 | a new array holding 0.9 times the initial potential |
| Step1.RunCycle | examples/step-1/step-1.cc:164-237 | one cycle updates the potential in place and returns the new solution, as the cycle function specifies; the adaptive alpha is computed and overwritten with 0.1 |
| Step1.SelfConsistentProblem.constructor | examples/step-1/step-1.cc:76-86 | no eigenpairs and no solution yet |
| Step1.RunCycles | examples/step-1/step-1.cc:164-238 | starting from the start potential with no solution, the 100 cycles leave the potential and solution of the specification after 100 cycles, and the eigenpairs of the potential after 99 cycles |
| Step1.SelfConsistentProblem.Run | examples/step-1/step-1.cc:115-239 | the final potential and solution are those of the specification after exactly 100 cycles; the stored eigenvalues and eigenvectors are those of the last Schroedinger solve, on the potential after 99 cycles |
| Step2.Transition | examples/step-2/step-2.cc:135-145 | one transition value per support point |
| Step2.Mix | examples/step-2/step-2.cc:147-152 | one material value per node |
| Step2.Material | examples/step-2/step-2.cc:130-152 | one material value per support point |
| Step2.MixRange | examples/step-2/step-2.cc:148-152 | mixing transitions that lie in [0, 1] gives a value in [0, 2] |
| Step2.MixTransitions | examples/step-2/step-2.cc:147-152 | the mixing loop over the nodes gives exactly the mixed material of the three transitions |
| Step2.MaterialRange | examples/step-2/step-2.cc:130-152 | with the error function, the material lies in [0, 2] |
| Step2.Masses | examples/step-2/step-2.cc:159 | one effective mass per node |
| Step2.MassesFollowMaterial | examples/step-2/step-2.cc:158-159 | on a non-negative material the mass is at least GaAs's, hence positive; more material means a heavier mass |
| Step2.StartPotential | examples/step-2/step-2.cc:162-165 | one start value per node |
| Step2.Baseline | examples/step-2/step-2.cc:230-248 | one baseline value per node |
| Step2.FirstUpdateIsSolution | examples/step-2/step-2.cc:163-248 | the start potential equals the baseline, so the first update is the Poisson solution itself |
| Step2.Start | examples/step-2/step-2.cc:162-165 | the first state fits the nodes and has no solution |
| Step2.DensityAsWritten | examples/step-2/step-2.cc:199-209 | one density value per node |
| Step2.IntendedDensity | examples/step-2/step-2.cc:199-209 | one density value per node |
| Step2.DensityAsWrittenIsNotLocal | examples/step-2/step-2.cc:206 | two materials agree at node 1 but differ at node 0, and the density written at node 1 differs |
| Step2.IntendedDensityIsLocal | examples/step-2/step-2.cc:206-207 | with the node index, the density at a node depends only on the material at that node |
| Step2.IntendedDensityNonNegative | examples/step-2/step-2.cc:206-207 | with the node index and a non-negative material, the density is non-negative |
| Step2.UniformMaterialHidesIndex | examples/step-2/step-2.cc:206 | on a uniform material the written density equals the intended one |
| Step2.Charge | examples/step-2/step-2.cc:213-218 | one charge value per node |
| Step2.ChargeSigns | examples/step-2/step-2.cc:213-218 | the scale e^2/permittivity is positive. A doped node above the Fermi energy is the scaled density less the scaled doping, and negative when the density is below the doping. Every other node is the scaled density |
| Step2.Doping | examples/step-2/step-2.cc:213-216 | one doping value per node |
| Step2.Cycle | examples/step-2/step-2.cc:173-248 | after a cycle the state has a solution on every node |
| Step2.Iterate | examples/step-2/step-2.cc:173 | after k cycles the state fits the nodes, and from the first cycle on it has a full solution |
| Step2.Outcome | examples/step-2/step-2.cc:124-248 | run's final state fits the nodes with a full solution |
| Step2.InterpolateMaterial | examples/step-2/step-2.cc:130-152 | the Fick solution, set up asymmetric and interpolated at the three step positions, gives the three transitions, and the mixing loop gives the material |
| Step2.ComputeKineticOfMaterial | examples/step-2/step-2.cc:157-159 | the loop computes hbar^2 / (2 (m* + 0.35 m 0.083) M0) at every node |
| Step2.ComputeStartPotential | examples/step-2/step-2.cc:162-165 | a new array: a copy of the material, scaled by 0.9 energy_height |
| Step2.AddPairAsWritten | examples/step-2/step-2.cc:202-208 | the inner loop adds g psi[j]^2 occ to the density at every node, with the same g at every node |
| Step2.AddScaledSquares | examples/step-2/step-2.cc:204-208 | the node loop adds g psi[j]^2 occ to the density at every node j and to nothing else |
| Step2.ComputeDensityAsWritten | examples/step-2/step-2.cc:198-209 | the nested loops compute the density as written |
| Step2.ComputeDoping | examples/step-2/step-2.cc:213-216 | a new zero array with -doping on the doped nodes above the Fermi energy |
| Step2.ComputeCharge | examples/step-2/step-2.cc:213-218 | the doping, addition and scaling steps compute the charge |
| Step2.RunCycle | examples/step-2/step-2.cc:173-248 | one cycle updates the potential in place and returns the new solution, as the cycle function specifies; max_update and the update share the baseline, and alpha is overwritten with 0.2 |
| Step2.SelfConsistentProblem.constructor | examples/step-2/step-2.cc:76-86 | no eigenpairs and no solution yet |
| Step2.RunCycles | examples/step-2/step-2.cc:173-249 | starting from the start potential with no solution, the 100 cycles leave the potential and solution of the specification after 100 cycles, and the eigenpairs of the potential after 99 cycles |
| Step2.SelfConsistentProblem.Run | examples/step-2/step-2.cc:115-250 | the final potential and solution are those of the specification after exactly 100 cycles; the stored eigenvalues and eigenvectors are those of the last Schroedinger solve, on the potential after 99 cycles |

## Left out

- deal.II's `FEValues`, `QGauss` and `DoFHandler` are inputs to the model, not part of it. The shape values, gradients and JxW weights of every cell, and each cell's degrees of freedom, come with the `Space`.
- `ConstraintMatrix::distribute_local_to_global` is modelled as plain addition into the global matrix and vector. Its elimination of the constrained rows is not modelled. The constraints appear only where the eigenvectors are zeroed on the boundary after solve.
- `compress`, the sparsity patterns, MPI and PETSc storage are not modelled. The global matrices are dense `seq<seq<real>>`.
- The eigensolver (SLEPc LAPACK) is not modelled; it is the parameter `lapack`. The conjugate-gradient solver and its block-Jacobi preconditioner are not modelled either; they are the parameter `cg`. Their results and step counts are whatever these functions return.
- The drivers treat the whole Schroedinger and Poisson pipelines as the parameters `schroedinger` and `poisson`. These cover reinit, assemble, solve and get for both problems.
- `erf`, `log(1 + exp(x))` and `sqrt` are parameters. Only the properties the lemmas state about them are assumed.
- Floating-point rounding, overflow and NaN are not modelled. In particular, dividing by the square root of a zero overlap norm has no meaning over `real`. `Schroedinger.Normalised` returns the vector unchanged in that case.
- Output is not modelled: `write_gnuplot`, every `std::cout`, and `main` with its MPI set-up and exception reporting.
- examples/step-0/step-0.cc is not part of this model. It only fills constant vectors and prints.
- linear_algebra_system.cc is not part of this model; it is a stub. The solver wrappers, test_space.cc and trial_space.cc are not part of this model either. The trial space is not modelled.
- The Fick `Problem` class is not modelled: it has only a constructor and an empty destructor. Fick `Solution::value` is modelled for `dim = 1`, the only dimension the drivers instantiate. The `assert(false)` branch for other dimensions is not modelled.
- Destructors are not modelled, apart from the tensor's clear: they are empty.
- The `system_type.h` header is not part of this model.
- Schroedinger.Problem.Solve: requires `init`, which the source does not check, because the matrices only have their sizes after `reinit`.
- Poisson.Problem.Solve: requires `init` for the same reason.
- Fick.Solution.Value: requires a non-zero rate, because the profile divides by it. In the source an unset rate is undefined.
- Fick.Solution.Value: the [0, 1] bound is stated only for a positive half-length when the profile is symmetric. `set_initial_length` (source/models/fick.cc:67-71) rejects only L = 0, and with L < 0 the symmetric profile h/2 (erf((L-x)/r) + erf((L+x)/r)) is negative, down to -h.
- Step1.RunCycle: the adaptive alpha is computed and discarded, as in the source. The step's bound alpha * |update| <= cutoff is not stated for the update. `Scf.AdaptiveAlpha` and `Scf.RelaxedMovesByUpdate` state its two halves separately.
- Step1.SelfConsistentProblem.Run: max_update measures the update from the initial potential (step-1.cc:219), while the update uses 0.9 times it (step-1.cc:233). Because alpha is overwritten, this mismatch has no effect, and it is modelled as written.
- Step2.SelfConsistentProblem.Run: requires at least as many nodes as eigenpairs (10). The density loop reads the material at the index of the eigenpair, which is out of range otherwise. It also requires the error-function properties, because the kinetic prefactor divides by a mass that is positive only for a non-negative material.

## Findings

| source | as written | input that shows it | evidently intended | confidence | as-written member | corrected member |
|---|---|---|---|---|---|---|
| source/materials/elastic_tensor.cc:157-158 | the cubic Voigt slot 12 (C0011) is filled from constants[0] (c11) | moduli (c11, c12, c44) = (2, 1, 1): C0011 = 2 but C0022 = 1 | C0011 = C0022 = C1122 = constants[1], making the tensor invariant under every permutation of the axes | high, not executed | ElasticTensor.CubicAsWrittenBreaksAxisSymmetry | ElasticTensor.CorrectedCubicAxisSymmetric |
| source/materials/dielectric_tensor.cc:54-70 | the hexagonal rule asserts one modulus and then reads constants[1] | one modulus: the count check passes and the read is out of bounds; any other count fails the check | two moduli (11, 33) giving diag(c0, c0, c1), like the trigonal rule | high, not executed | DielectricTensor.HexagonalNeverSucceeds | DielectricTensor.CorrectedHexagonalPermittivity |
| include/qdove/materials/material_symmetry.h:67-74 | names are selected by a bitwise AND of enumerators numbered 0..7 | the trigonal flag (5) writes six names: "triclinic", "orthorhombic", "tetragonal", "trigonal", "hexagonal" and "cubic" | write the name of the given flag only | high, not executed | MaterialSymmetry.NoFlagWrittenAlone | MaterialSymmetry.CorrectedWriteInjective |
| examples/step-2/step-2.cc:206 | the density of states of pair i uses material_function[i], i being the eigenpair index | one pair psi = (0, 1): materials (0, 0) and (1, 0) agree at node 1, yet give different densities there | use material_function[j], the node being summed into | high, not executed | Step2.DensityAsWrittenIsNotLocal | Step2.IntendedDensityIsLocal |

The drivers and the tensor classes reproduce the code as written. They use
`DensityAsWritten`, the cubic rule with c11 in slot 12, and the failing
hexagonal dielectric rule. The corrected definitions are separate functions,
and the lemmas beside them prove the property that each correction restores.
