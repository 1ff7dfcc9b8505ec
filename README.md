# s2sleplet core, modelled in Dafny

This project models the index-level and combinatorial core of s2sleplet. s2sleplet solves the Slepian spatial–spectral concentration problem on the sphere and on meshes. For a band-limit and a region of interest, it builds the concentration matrix `D`, solves its eigenproblem, caches the result, and offers wavelets built on the resulting Slepian basis. The model keeps the source's form:
- Classes whose fields the source updates are Dafny classes with `modifies` clauses.
- Loops that fill arrays in place are methods with loop invariants over `array`/`array2`.
- Pure rules are functions with lemmas about them.

What the model covers, module by module:

- **Concentration matrices.**
  - `SlepianArbitrary`: the column fill `_matrix_helper` with its order-0 mirror shortcut, the memo of `_integral`, the chunked fill, the cache and large-job control flow, and the `L_min`/`L_max` validators.
  - `MeshDMatrix`, `MeshSlepian`, `MeshSlepianLegacy`: the mesh fill and the two mesh cache flows.
  - `SlepianFunctionsLegacy`: the full Hermitian fill, eigen-problem and file-name angle part of the earliest script.
  - `ArrayMethods`: the Hermitian completion.
  - `ParallelMethods`: the worker chunks.
  - `EigenMethods`: the sorting, transposing and sign fixing of eigen-pairs.
- **Regions and masks.** `Region` covers region identification and the angle validators; `BoolMethods` the region predicates; `MaskMethods` the sphere and mesh masks; `MeshConfig`, `MeshMethods` and `LegacyMeshMethods` the mesh regions, the graph Laplacian, vertex-to-face averaging, mesh integrals and the mesh eigendecomposition cache; `IntegrationMethods` the sphere and mesh integrals.
- **Wavelets.**
  - `WaveletMethods`: the axisymmetric forward and inverse transforms, with a tight-frame round trip, `create_kappas`, the non-zero scale filter, and the Slepian wavelet transforms.
  - `WaveletScales`: the `j` validation and scale selection shared by `SlepianWavelets`, `MeshSlepianWavelets`, `MeshSlepianWaveletCoefficients`, `DirectionalSpinWavelets`, `Ridgelets` and `AxisymmetricWaveletCoefficientsEarth`.
- **Functions and naming.**
  - `Coefficients`, `MeshCoefficients`, `LegacyFunctions`, `LegacyMeshCoefficients`: the initialisation hooks, name suffixes, masking rules and property setters.
  - `SlepianRank`, `LegacySlepianKernel`, `MeshBasisFunctions`: rank validation and names.
  - `SlepianSpecific`: the angle and order setters.
  - `DiracDelta`: the Dirac delta.
  - `PlotMethods`: plot resolution, plot types, mask closing and normalisation.
- **Shared helpers.** `ComplexNumbers` holds complex numbers as pairs of reals; `HarmonicIndex` the `elm2ind`/`ind2elm` bijection `ell^2 + ell + m`; `Strings` decimal printing, `split`, `replace` and `lower`; `Numerics` sums and the square-root interface; `Storage` cache files as a map from paths to stored arrays; `Errors` Python's exceptions as a `Result`.

The numerics the source calls into do not appear in the model. They come in as function parameters:
- quadrature
- basis synthesis
- `eigh`
- `sqrt`
- `pys2let`'s `j_max`, kappas and tiling
- the sifting convolution
- the masking of coefficients
- `{x:e}` formatting

Where a property depends on one of them, the parameter carries the needed assumption as a predicate; for example, `IsSqrt` says that `sqrt` squares back to its argument.

Three places where the code, not the documentation, is followed:
- The graph Laplacian is `A - diag(rowsum A)`, as `_graph_laplacian` computes it, not the `D - A` of its docstring.
- An all-zero function is normalised to 0.5, as `_normalise_function` returns, not to 0 as its comment says.
- The legacy Slepian kernel's `_validate_rank` message says "less than or equal to", but its comparison `>=` refuses a rank equal to the number of eigenvectors; the model follows the comparison.

## Model

| member | source | states |
|---|---|---|
| `ArrayMethods.Completed` | pys2sleplet/test/test_arrays.py:11-18 | the completed matrix is square and of the size of the input |
| `ArrayMethods.CompletedIsHermitian` | pys2sleplet/test/test_arrays.py:7-18 | after completion every off-diagonal pair is conjugate, and the diagonal and lower triangle are the input's (the diagonal is not conjugated) |
| `ArrayMethods.CompletedIgnoresUpper` | pys2sleplet/test/test_arrays.py:11-18 | the completion depends only on the diagonal and the lower triangle of its input |
| `ArrayMethods.FillUpperTriangleOfHermitianMatrix` | src/sleplet/slepian/slepian_region/slepian_arbitrary.py:90 | in place, the array becomes the completion of its old contents |
| `ParallelMethods.SplitArrIntoChunks` | tests/test_parallel.py:14-15 | `split_arr_into_chunks` returns exactly `ncpu` chunks |
| `ParallelMethods.SplitLengths` | tests/test_parallel.py:21-30 | the first `n % ncpu` chunks hold `n / ncpu + 1` indices, the others `n / ncpu` |
| `ParallelMethods.ChunksBalanced` | tests/test_parallel.py:10-30 | chunk lengths differ by at most one, and all equal `n / ncpu` when it divides evenly |
| `ParallelMethods.SplitCovers` | src/sleplet/slepian/slepian_region/slepian_arbitrary.py:128-130 | the chunks, one after another, list `[arr_min, arr_max)` in order |
| `ParallelMethods.SplitMembers` | src/sleplet/slepian/slepian_region/slepian_arbitrary.py:128-130 | an index is in some chunk exactly when it lies in `[arr_min, arr_max)` |
| `SlepianArbitrary.Sign` | src/sleplet/slepian/slepian_region/slepian_arbitrary.py:169-170 | `(-1) ** m` is 1 or -1 |
| `SlepianArbitrary.MirrorValue` | src/sleplet/slepian/slepian_region/slepian_arbitrary.py:168-170 | the pair written at `ind(ell, -m)` is `(-1)^m` times the conjugate of the pair at `ind(ell, m)` |
| `SlepianArbitrary.MirrorWrittenLater` | src/sleplet/slepian/slepian_region/slepian_arbitrary.py:159-170 | a mirrored row's partner has positive order, comes after the diagonal and is not itself mirrored |
| `SlepianArbitrary.EveryLowerRowWritten` | src/sleplet/slepian/slepian_region/slepian_arbitrary.py:159-174 | every row below the diagonal of the column is written, the negative orders the loop skips included |
| `SlepianArbitrary.MirrorAboveDiagonal` | src/sleplet/slepian/slepian_region/slepian_arbitrary.py:162-170 | a mirrored write lands above the diagonal exactly when its degree is the column's |
| `SlepianArbitrary.WrittenAtStep` | src/sleplet/slepian/slepian_region/slepian_arbitrary.py:159-174 | loop step `j` writes row `j` unless the shortcut skips it, plus the mirror row when the shortcut applies to a positive order, and nothing else |
| `SlepianArbitrary.DiagonalWrittenFirst` | src/sleplet/slepian/slepian_region/slepian_arbitrary.py:153-156 | before the loop only the diagonal entry of the column is written |
| `SlepianArbitrary.WritersBelowBandlimit` | src/sleplet/slepian/slepian_region/slepian_arbitrary.py:159 | every written row of the matrix is written by a step of the loop over `range(i + 1, L^2)` or by the diagonal write |
| `SlepianArbitrary.WritePair` | src/sleplet/slepian/slepian_region/slepian_arbitrary.py:166-170 | row `j` gets the pair and row `k` its mirrored value read back from row `j`; no other entry changes |
| `SlepianArbitrary.SlepianArbitrary.constructor` | src/sleplet/slepian/slepian_region/slepian_arbitrary.py:37-46 | the fields as given, an empty memo, nothing synthesised |
| `SlepianArbitrary.SlepianArbitrary.Integral` | src/sleplet/slepian/slepian_region/slepian_arbitrary.py:176-190 | returns the region integral of `Y_i conj(Y_j)`; the memo gains `i` and `j`; each harmonic missing from the memo is synthesised once |
| `SlepianArbitrary.SlepianArbitrary.Memoise` | src/sleplet/slepian/slepian_region/slepian_arbitrary.py:180-187 | harmonic `i` is in the memo afterwards and is synthesised only when it was missing |
| `SlepianArbitrary.SlepianArbitrary.Record` | src/sleplet/slepian/slepian_region/slepian_arbitrary.py:181-183 | the memo maps `i` to its synthesised field, recorded once |
| `SlepianArbitrary.SlepianArbitrary.MatrixHelper` | src/sleplet/slepian/slepian_region/slepian_arbitrary.py:144-174 | column `i` holds the diagonal integral, the computed integrals and the mirrored shortcut values; every other column is unchanged |
| `SlepianArbitrary.SlepianArbitrary.HelperLoop` | src/sleplet/slepian/slepian_region/slepian_arbitrary.py:159-174 | the loop writes every row of column `i` whose writer is a loop step, and nothing outside column `i` |
| `SlepianArbitrary.SlepianArbitrary.HelperStep` | src/sleplet/slepian/slepian_region/slepian_arbitrary.py:160-174 | one step writes row `j`, or row `j` and its mirror, or nothing for a negative order under the shortcut |
| `SlepianArbitrary.SlepianArbitrary.WriteDirect` | src/sleplet/slepian/slepian_region/slepian_arbitrary.py:171-174 | row `j` of column `i` gets the real and imaginary part of `integral(j, i)`; nothing else changes |
| `SlepianArbitrary.SlepianArbitrary.WriteWithMirror` | src/sleplet/slepian/slepian_region/slepian_arbitrary.py:162-170 | row `j` gets `integral(j, i)` and row `ind(ell_j, -m_j)` its mirrored value; nothing else changes |
| `SlepianArbitrary.SlepianArbitrary.MirrorEntry` | src/sleplet/slepian/slepian_region/slepian_arbitrary.py:162-170 | under the shortcut the mirror row is `ind(ell_j, -m_j)`, below `L^2`, distinct from `j`, and holds the mirrored value of `integral(j, i)` |
| `SlepianArbitrary.SlepianArbitrary.FillChunk` | src/sleplet/slepian/slepian_region/slepian_arbitrary.py:113-125 | every column of the chunk is filled by the helper; the other columns keep their entries |
| `SlepianArbitrary.SlepianArbitrary.BuiltD` | src/sleplet/slepian/slepian_region/slepian_arbitrary.py:99-142 | the matrix `_create_D_matrix` returns is `L^2` by `L^2` |
| `SlepianArbitrary.SlepianArbitrary.FillChunks` | src/sleplet/slepian/slepian_region/slepian_arbitrary.py:127-134 | after all chunks, every column of every chunk is filled and every other column is unchanged, whatever the order of the chunks |
| `SlepianArbitrary.SlepianArbitrary.CreateDMatrix` | src/sleplet/slepian/slepian_region/slepian_arbitrary.py:99-142 | a fresh `L^2` by `L^2` matrix whose columns `[L_min^2, L_max^2)` are filled by the helper and whose other entries are 0, for any number of workers |
| `SlepianArbitrary.SlepianArbitrary.MatrixLocation` | src/sleplet/slepian/slepian_region/slepian_arbitrary.py:61-64 | the location names the mask after `/eigensolutions/D_` and ends with the Shannon number |
| `SlepianArbitrary.SlepianArbitrary.LargeJob` | src/sleplet/slepian/slepian_region/slepian_arbitrary.py:80-83 | never a large job without saving matrices, nor over the whole range of columns; always one when saving with an upper bound below `L` |
| `SlepianArbitrary.SlepianArbitrary.IntermediateLocation` | src/sleplet/slepian/slepian_region/slepian_arbitrary.py:85 | the intermediate matrix is a `.npy` file under the matrix location whose name starts with `D_min` |
| `SlepianArbitrary.SlepianArbitrary.SolveDMatrix` | src/sleplet/slepian/slepian_region/slepian_arbitrary.py:77-97 | a partial run saves the uncompleted matrix and fails with `RuntimeError`; otherwise the completed matrix is decomposed, and with saving on all eigenvalues and the first N eigenvectors are stored |
| `SlepianArbitrary.SlepianArbitrary.SolveEigenproblem` | src/sleplet/slepian/slepian_region/slepian_arbitrary.py:66-75 | both cached files present: they are returned unchecked and nothing is written; otherwise a partial run saves the uncompleted matrix at `D_min<L_min>_max<L_max>.npy` and fails with `RuntimeError`, and a full run returns the decomposition of the completed matrix, saving all eigenvalues and the first N eigenvectors at the two cache paths when matrices are saved |
| `SlepianArbitrary.SlepianArbitrary.ShortcutIsExact` | src/sleplet/slepian/slepian_region/slepian_arbitrary.py:162-170 | for harmonics with `Y(ell, -m) = (-1)^m conj(Y(ell, m))`, every entry the helper writes is the region integral of that pair |
| `SlepianArbitrary.SlepianArbitrary.CompletedIsConcentrationMatrix` | src/sleplet/slepian/slepian_region/slepian_arbitrary.py:78-93 | over the full range of columns the completed matrix handed to the eigen-solver has entry (r, c) equal to the region integral of `Y_r conj(Y_c)` |
| `SlepianArbitrary.CheckLMax` | src/sleplet/slepian/slepian_region/slepian_arbitrary.py:192-198 | above L is `ValueError` (checked before the type), a non-integer is `TypeError`, the default becomes L, and any other value is kept |
| `SlepianArbitrary.CheckLMin` | src/sleplet/slepian/slepian_region/slepian_arbitrary.py:200-206 | negative is `ValueError` (checked first), a non-integer is `TypeError`, anything else is kept |
| `WaveletScales.CheckJ` | src/sleplet/functions/directional_spin_wavelets.py:72-81 | a scale is accepted exactly when it is absent or in `[0, j_max - j_min]`, and is then kept; otherwise `ValueError` |
| `WaveletScales.SelectedScaleInRange` | src/sleplet/functions/directional_spin_wavelets.py:36 | a validated scale selects a row in `[1, j_max - j_min + 1]`, row 0 exactly when there is no scale, and distinct scales distinct rows |
| `WaveletScales.SelectScale` | src/sleplet/functions/directional_spin_wavelets.py:36-37 | `wavelets[jth]` succeeds exactly when `jth` is a valid Python index (negative ones count from the end); otherwise `IndexError` |
| `WaveletScales.ValidScaleSelects` | src/sleplet/functions/fp/slepian_wavelets.py:31-32 | with one row per scale plus the scaling row, every validated `j` selects its own row: row 0 without a scale, row `j + 1` otherwise |
| `WaveletScales.CheckArgCount` | src/sleplet/functions/fp/slepian_wavelets.py:49-53 | extra arguments given as a list are accepted exactly when they number `count`; otherwise `ValueError` |
| `WaveletScales.SetupScaleArgs` | src/sleplet/functions/fp/slepian_wavelets.py:49-54 | no list: nothing changes; a list of the wrong length: `ValueError` and nothing changes; otherwise `B` and `j_min` are taken and `j` is taken exactly when the validator accepts it against the new `B`, `j_min`; a valid state stays valid |
| `WaveletScales.SelectsKappaOfScale` | src/sleplet/functions/fp/slepian_wavelets.py:27-32 | a validated `j` selects from `create_kappas` the scaling function, or the wavelet column of scale `j` |
| `DirectionalSpinWavelets.SetRow` | src/sleplet/functions/directional_spin_wavelets.py:69 | row `r` of the array becomes the given row; the others are unchanged |
| `DirectionalSpinWavelets.ScalingRow` | src/sleplet/functions/directional_spin_wavelets.py:65-68 | from zeros, `phi_l[ell]` lands at `ind(ell, 0)` of row 0 for every degree below L, and every other entry stays 0 |
| `DirectionalSpinWavelets.ScalingDegree` | src/sleplet/functions/directional_spin_wavelets.py:67-68 | one pass writes `phi_l[ell]` at `ind(ell, 0)` of row 0 and nothing else |
| `DirectionalSpinWavelets.CreateWavelets` | src/sleplet/functions/directional_spin_wavelets.py:62-70 | a fresh array of `psi_lm.shape[1] + 1` rows of `L^2`: row 0 is `phi_l` on the order-0 coefficients and zero elsewhere, row `r > 0` is column `r - 1` of `psi_lm` |
| `DirectionalSpinWavelets.ScalingRowIsReal` | src/sleplet/functions/directional_spin_wavelets.py:49-50 | the scaling function row has no imaginary part, as `_set_reality` says for `j is None` |
| `DirectionalSpinWavelets.DirectionalSpinWavelets.constructor` | src/sleplet/functions/directional_spin_wavelets.py:18-27 | the keyword fields `B`, `j_min`, `N` and `spin` as given (the defaults 3, 2, 2 and 0 are `DefaultB`, `DefaultJMin`, `DefaultN`, `DefaultSpin`), no scale and no wavelets yet |
| `DirectionalSpinWavelets.DirectionalSpinWavelets.New` | src/sleplet/functions/directional_spin_wavelets.py:18-81 | with every keyword, `j` included: built exactly when `j` passes its validator on the given `B`, `L` and `j_min`, otherwise `ValueError`; the fields are as given |
| `DirectionalSpinWavelets.DirectionalSpinWavelets.SetupArgs` | src/sleplet/functions/directional_spin_wavelets.py:55-60 | the five extra arguments assign `B, j_min, spin, N, j` in that order, `j` validated on assignment; a wrong count is `ValueError`; a valid `j` stays valid |
| `DirectionalSpinWavelets.DirectionalSpinWavelets.CreateCoefficients` | src/sleplet/functions/directional_spin_wavelets.py:32-37 | `wavelets` are the array `_create_wavelets` builds, and the coefficients its row `0` or `j + 1` |
| `SlepianWavelets.SlepianWavelets.constructor` | src/sleplet/functions/fp/slepian_wavelets.py:20-22 | the fields `B` and `j_min` as given, no scale and no wavelets yet |
| `SlepianWavelets.SlepianWavelets.New` | src/sleplet/functions/fp/slepian_wavelets.py:20-70 | with `j` given too: built exactly when `j` passes its validator on the given `B`, `L^2` and `j_min`, otherwise `ValueError`; the fields are as given |
| `SlepianWavelets.SlepianWavelets.SetupArgs` | src/sleplet/functions/fp/slepian_wavelets.py:49-54 | three extra arguments assign `B, j_min, j`, `j` validated against `pys2let_j_max(B, L^2, j_min)`; a wrong count is `ValueError`; a valid `j` stays valid |
| `SlepianWavelets.SlepianWavelets.CreateCoefficients` | src/sleplet/functions/fp/slepian_wavelets.py:27-32 | `wavelets` are `create_kappas(L^2, B, j_min)` and the coefficients their row `0` or `j + 1` |
| `WaveletMethods.ScalingsCancel` | src/sleplet/wavelet_methods.py:86-134 | the factor `sqrt(4 pi / (2 ell + 1))` of the transforms and the factor `sqrt((2 ell + 1) / (4 pi))` of the wavelets multiply to one |
| `WaveletMethods.ZeroOrder` | src/sleplet/wavelet_methods.py:87 | `ind_m0` has the degree of `ind` and order 0 |
| `WaveletMethods.ForwardMatrix` | src/sleplet/wavelet_methods.py:85-92 | the forward coefficients have the wavelets' shape; below `L^2` each is the coefficient times the scaled conjugate of the order-0 wavelet entry of its degree, beyond it 0 |
| `WaveletMethods.TransformsReadOnlyOrderZero` | src/sleplet/wavelet_methods.py:85-120 | both transforms give the same result for any two wavelet matrices that agree in their order-0 columns |
| `WaveletMethods.SetColumn` | src/sleplet/wavelet_methods.py:91 | column `c` of the array becomes the given column; the others are unchanged |
| `WaveletMethods.ForwardColumn` | src/sleplet/wavelet_methods.py:90-91 | `w[:, ind] = wav_0 * flm[ind]` writes column `ind` with its forward entries and leaves the other columns as they were |
| `WaveletMethods.ForwardDegree` | src/sleplet/wavelet_methods.py:87-91 | the columns of degree `ell`, order by order, get their forward entries; the columns visited so far are exactly `[0, (ell + 1)^2)`, in order |
| `WaveletMethods.AxisymmetricWaveletForward` | src/sleplet/wavelet_methods.py:67-92 | a fresh array of the wavelets' shape holding the forward entries, every column below `L^2` visited once, in order |
| `WaveletMethods.InverseCoefficient` | src/sleplet/wavelet_methods.py:118-119 | `flm[ind]` becomes the sum over scales of the coefficient times the scaled order-0 wavelet entry; the coefficients before it are kept |
| `WaveletMethods.InverseDegree` | src/sleplet/wavelet_methods.py:115-119 | the coefficients of degree `ell` get their inverse values; the indices visited so far are exactly `[0, (ell + 1)^2)`, in order |
| `WaveletMethods.AxisymmetricWaveletInverse` | src/sleplet/wavelet_methods.py:95-120 | a fresh array of `L^2` coefficients, each the sum over scales of the coefficient times the scaled order-0 wavelet entry, every index visited once, in order |
| `WaveletMethods.CreateKappas` | src/sleplet/wavelet_methods.py:138-153 | row 0 is the scaling function `kappa0` and row `j + 1` the wavelet function of scale `j`, each over `xlim` points |
| `WaveletMethods.Created` | src/sleplet/wavelet_methods.py:130-134 | one row per kappa, each of `L^2` entries, given entry by entry |
| `WaveletMethods.CreateDegree` | src/sleplet/wavelet_methods.py:132-134 | one pass writes the scaled kappa of degree `ell` into column `ind(ell, 0)` of every row and nothing else |
| `WaveletMethods.CreateAxisymmetricWavelets` | src/sleplet/wavelet_methods.py:123-135 | a fresh array, one row per kappa, equal entry by entry to the created wavelets |
| `WaveletMethods.CreatedSupport` | src/sleplet/wavelet_methods.py:130-134 | the created wavelets are zero outside the order-0 columns and hold `sqrt((2 ell + 1) / (4 pi)) * kappa[j][ell]` in them |
| `WaveletMethods.TermOfRoundTrip` | src/sleplet/wavelet_methods.py:86-119 | one scale of forward then inverse multiplies the coefficient by the square of that scale's kappa |
| `WaveletMethods.RoundTrip` | src/sleplet/wavelet_methods.py:67-135 | for created wavelets, the inverse of the forward transform multiplies every coefficient by the sum over scales of the squared kappas of its degree |
| `WaveletMethods.TightFrameRoundTrip` | src/sleplet/wavelet_methods.py:67-135 | when the squared kappas sum to one at every degree, the inverse undoes the forward transform |
| `WaveletMethods.KeptRowsExactly` | src/sleplet/wavelet_methods.py:156-173 | the kept row indices are strictly increasing, and a row is kept exactly when it has a non-zero entry |
| `WaveletMethods.FindNonZeroWaveletCoefficients` | src/sleplet/wavelet_methods.py:156-173 | the result is the rows at the kept indices, in order |
| `WaveletMethods.FindNonZeroKeepsNonZero` | src/sleplet/wavelet_methods.py:173 | every row returned holds a non-zero entry |
| `WaveletMethods.SlepianWaveletForward` | src/sleplet/wavelet_methods.py:11-36 | the rows of the sifting convolution that have a non-zero entry, in order, and only those |
| `WaveletMethods.Transpose` | src/sleplet/wavelet_methods.py:61 | `wav_coeffs.T` swaps rows and columns |
| `WaveletMethods.ColumnSums` | src/sleplet/wavelet_methods.py:64 | `.sum(axis=0)` holds the sum of each column |
| `WaveletMethods.SlepianWaveletInverse` | src/sleplet/wavelet_methods.py:39-64 | entry `k` is the sum over scales of column `k` of the sifting convolution of the leading `len(wav_coeffs)` wavelets with the transposed coefficients |
| `WaveletMethods.InverseUsesLeadingWavelets` | src/sleplet/wavelet_methods.py:57-58 | the inverse gives the same result for any two wavelet lists that agree on their first `len(wav_coeffs)` rows |
| `Ridgelets.RidgeletSupport` | sleplet/functions/flm/ridgelets.py:69-80 | a ridgelet is zero outside the order-0 coefficients of the degrees from `abs(spin)` up |
| `Ridgelets.EntryAtZeroOrder` | sleplet/functions/flm/ridgelets.py:70-73 | at `ind(ell, 0)` row 0 holds `kappas[0, ell]` times the ring and the other rows `kappas[j, ell]` times the ring over `sqrt(2 pi)` |
| `Ridgelets.ZeroOrderIndex` | sleplet/functions/flm/ridgelets.py:71 | `ind(ell, 0)` is the only index of degree `ell` and order 0 |
| `Ridgelets.WriteRingDegree` | sleplet/functions/flm/ridgelets.py:88-98 | one pass writes the ring's value of degree `ell` at `ind(ell, 0)` and nothing else |
| `Ridgelets.WriteDegree` | sleplet/functions/flm/ridgelets.py:71-73 | one pass writes the weighted ring value of degree `ell` into column `ind(ell, 0)` of every row and nothing else |
| `Ridgelets.Ridgelets.constructor` | sleplet/functions/flm/ridgelets.py:25-29 | the private defaults `B = 2`, `j_min = 3`, spin 2, no scale |
| `Ridgelets.Ridgelets.SetB` | sleplet/functions/flm/ridgelets.py:105-111 | the `B` setter takes its argument, or the default 2 when none was given |
| `Ridgelets.Ridgelets.SetJMin` | sleplet/functions/flm/ridgelets.py:136-142 | the `j_min` setter takes its argument, or the default 3 |
| `Ridgelets.Ridgelets.SetSpin` | sleplet/functions/flm/ridgelets.py:148-154 | the `spin` setter takes its argument, or the default 2 |
| `Ridgelets.Ridgelets.SetJ` | sleplet/functions/flm/ridgelets.py:117-130 | the `j` setter accepts exactly the scales the validator accepts against the current `B`, `j_min` (default: no scale); a refused scale is `ValueError` and leaves `j` as it was |
| `Ridgelets.Ridgelets.New` | sleplet/functions/flm/ridgelets.py:19-32 | construction runs the setters in field order and succeeds exactly when `j` is valid against the new `B` and `j_min` |
| `Ridgelets.Ridgelets.SetupArgs` | sleplet/functions/flm/ridgelets.py:56-61 | four extra arguments go through the setters `B, j_min, spin, j` in that order; a wrong count is `ValueError`; a valid `j` stays valid |
| `Ridgelets.Ridgelets.ComputeRing` | sleplet/functions/flm/ridgelets.py:75-99 | a fresh array of `L^2`, holding the ring's value at `ind(ell, 0)` for each degree from `abs(spin)` below L and zero elsewhere |
| `Ridgelets.Ridgelets.CreateWavelets` | sleplet/functions/flm/ridgelets.py:63-73 | one row per kappa of `create_kappas(L, B, j_min)`, the weighted ring in the order-0 columns and zero in the others |
| `Ridgelets.Ridgelets.CreateCoefficients` | sleplet/functions/flm/ridgelets.py:34-39 | the wavelets as `_create_wavelets` builds them, and the coefficients their row `0` or `j + 1` |
| `MeshSlepianWavelets.MeshSlepianWavelets.constructor` | src/sleplet/meshes/mesh_slepian_wavelets.py:20-28 | the given `B` and `j_min`, no scale, no wavelets yet |
| `MeshSlepianWavelets.MeshSlepianWavelets.SetupArgs` | src/sleplet/meshes/mesh_slepian_wavelets.py:45-50 | three extra arguments assign `B, j_min, j`, `j` validated against `pys2let_j_max(B, n, j_min)` over the mesh's `n` eigenvalues; a wrong count is `ValueError`; a valid `j` stays valid |
| `MeshSlepianWavelets.MeshSlepianWavelets.CreateCoefficients` | src/sleplet/meshes/mesh_slepian_wavelets.py:30-58 | `wavelets` are `create_kappas(n, B, j_min)` and the coefficients their row `0` or `j + 1` |
| `MeshSlepianWaveletCoefficients.CreateName` | src/sleplet/meshes/slepian_coefficients/mesh_slepian_wavelet_coefficients.py:36-42 | the name starts with `slepian_wavelet_coefficients_` and the mesh's name, followed by the `B`, `jmin` and scale parts |
| `MeshSlepianWaveletCoefficients.MeshSlepianWaveletCoefficients.constructor` | src/sleplet/meshes/slepian_coefficients/mesh_slepian_wavelet_coefficients.py:22-24 | the fields `B` and `j_min` as given, no scale, no wavelets and no wavelet coefficients yet |
| `MeshSlepianWaveletCoefficients.MeshSlepianWaveletCoefficients.New` | src/sleplet/meshes/slepian_coefficients/mesh_slepian_wavelet_coefficients.py:22-78 | with `j` given too: built exactly when `j` passes its validator on the given `B`, the mesh eigenvalue count and `j_min`, otherwise `ValueError`; the fields are as given |
| `MeshSlepianWaveletCoefficients.MeshSlepianWaveletCoefficients.SetupArgs` | src/sleplet/meshes/slepian_coefficients/mesh_slepian_wavelet_coefficients.py:44-49 | three extra arguments assign `B, j_min, j`, `j` validated on assignment; a wrong count is `ValueError`; a valid `j` stays valid |
| `MeshSlepianWaveletCoefficients.MeshSlepianWaveletCoefficients.CreateCoefficients` | src/sleplet/meshes/slepian_coefficients/mesh_slepian_wavelet_coefficients.py:29-65 | the wavelets are the mesh kappas, the wavelet coefficients the Slepian forward transform of the field with them, and the coefficients that transform's row `0` or `j + 1` |
| `MeshSlepianWaveletCoefficients.SelectsAmongKeptScales` | src/sleplet/meshes/slepian_coefficients/mesh_slepian_wavelet_coefficients.py:33-34 | row `jth` of the transform is the `jth` row with a non-zero entry; it exists exactly when that many rows were kept |
| `MeshSlepianWaveletCoefficients.DroppedScaleShiftsSelection` | src/sleplet/meshes/slepian_coefficients/mesh_slepian_wavelet_coefficients.py:33-34 | once the row of scale 0 is dropped as all zero, `j = 0` selects the row of scale 1 |
| `AxisymmetricWaveletCoefficientsEarth.CheckJClassLevel` | sleplet/functions/flm/axisymmetric_wavelet_coefficients_earth.py:68-77 | `check_j` bounds `j` by the class attributes `B = 3` and `j_min = 2`, whatever the instance's values; a refused scale is `ValueError` |
| `AxisymmetricWaveletCoefficientsEarth.FinalArgs` | sleplet/functions/flm/axisymmetric_wavelet_coefficients_earth.py:51-56 | three extra arguments replace `B, j_min, j` in that order; without extra arguments the given fields stay |
| `AxisymmetricWaveletCoefficientsEarth.WaveletRows` | sleplet/functions/flm/axisymmetric_wavelet_coefficients_earth.py:62 | the wavelets of `create_axisymmetric_wavelets(L, B, j_min)`, one row per kappa |
| `AxisymmetricWaveletCoefficientsEarth.ForwardRows` | sleplet/functions/flm/axisymmetric_wavelet_coefficients_earth.py:64-66 | the forward transform of the coefficients with the wavelets |
| `AxisymmetricWaveletCoefficientsEarth.AxisymmetricWaveletCoefficientsEarth.New` | sleplet/functions/flm/axisymmetric_wavelet_coefficients_earth.py:21-77 | the hooks run before validation: a wrong extra-argument count is `ValueError`, then a row `0` or `j + 1` the forward transform lacks is `IndexError`, and only then is the FINAL `j` (the one the extra arguments set) checked by `check_j`; on success the fields are the final ones and the coefficients the selected row of the forward transform of the Earth |
| `AxisymmetricWaveletCoefficientsEarth.AxisymmetricWaveletCoefficientsEarth.Init` | sleplet/functions/flm/axisymmetric_wavelet_coefficients_earth.py:21-28 | the dataclass fields hold the given band-limit and scale arguments, and nothing is computed yet |
| `AxisymmetricWaveletCoefficientsEarth.AxisymmetricWaveletCoefficientsEarth.SetupArgs` | sleplet/functions/flm/axisymmetric_wavelet_coefficients_earth.py:51-56 | three extra arguments assign `B, j_min, j` without validation; a wrong count is `ValueError` and changes nothing |
| `AxisymmetricWaveletCoefficientsEarth.AxisymmetricWaveletCoefficientsEarth.CreateCoefficients` | sleplet/functions/flm/axisymmetric_wavelet_coefficients_earth.py:30-35 | wavelets, Earth and the forward transform as computed; the coefficients are its row `0` or `j + 1`, and an out-of-range row is `IndexError` that leaves the coefficients as they were |
| `DiracDelta.CreateCoefficients` | src/sleplet/functions/dirac_delta.py:20-25 | a fresh array of `L^2`: `sqrt((2 ell + 1) / (4 pi))` at `ind(ell, 0)` and zero elsewhere |
| `DiracDelta.DeltaValuesIncrease` | src/sleplet/functions/dirac_delta.py:24 | the values are positive and strictly increase with the degree |
| `DiracDelta.DeltaSupport` | src/sleplet/functions/dirac_delta.py:21-24 | the delta is non-zero exactly in the order-0 coefficients |
| `DiracDelta.SetupArgs` | src/sleplet/functions/dirac_delta.py:38-41 | extra arguments given as a list are refused with `AttributeError` |
| `Coefficients.Tokens` | src/sleplet/functions/coefficients.py:102 | every `_`-separated token of the name is in `set(name.split("_"))` |
| `Coefficients.RegionPartOfDetails` | src/sleplet/functions/coefficients.py:96-111 | the region adds `_` and its ending, first, exactly when there is a region and no token of the name is an excluded word; the rest of the suffix does not depend on it |
| `Coefficients.DetailsEndWithBandlimit` | src/sleplet/functions/coefficients.py:111 | the name always ends with `_L` and the bandlimit, which parses back to L |
| `Coefficients.ExcludedFirstTokenIgnoresRegion` | src/sleplet/functions/coefficients.py:100-104 | a name whose first token is `slepian`, `south` or `america` never gets the region ending |
| `Coefficients.MaskedIffNamed` | src/sleplet/functions/coefficients.py:100-126 | the validator masks the coefficients exactly when the name gains the region ending |
| `Coefficients.CheckCoefficients` | src/sleplet/functions/coefficients.py:113-126 | without a region, or when a token of the name is one of `COEFFICIENTS_TO_NOT_MASK`, the coefficients are unchanged; otherwise they are masked to the region |
| `Coefficients.Coefficients.constructor` | src/sleplet/functions/coefficients.py:34-41 | the hooks run in the order setup, name, spin, reality, coefficients, details, noise; the name gains its details; the coefficients `_create_coefficients` leaves pass the validator, and without noise they are the final coefficients |
| `Coefficients.Coefficients.AddDetails` | src/sleplet/functions/coefficients.py:96-111 | the name gains the details of its old value; spin, reality and coefficients are unchanged |
| `Coefficients.Coefficients.Convolve` | src/sleplet/functions/coefficients.py:69-94 | the result of the sifting convolution, and the function is no longer real; nothing else changes |
| `Coefficients.Coefficients.Translate` | src/sleplet/functions/coefficients.py:43-67 | a name containing `dirac_delta` returns the translated basis function and keeps the reality flag; any other convolves the coefficients with it and clears the flag |
| `MeshCoefficients.DetailsParts` | src/sleplet/meshes/mesh_coefficients.py:39-46 | the region adds exactly `_region`, first, and nothing on a mesh whose name contains `slepian`; zooming adds `_zoom` last |
| `MeshCoefficients.MetaclassNameHasNoSlepian` | src/sleplet/meshes/mesh_coefficients.py:52 | neither metaclass name the validator can see, `type` or pydantic's `ModelMetaclass`, contains `slepian` |
| `MeshCoefficients.SlepianMaskedAsWritten` | src/sleplet/meshes/mesh_coefficients.py:48-58 | as written, a Slepian function on a region is masked although its class name contains `slepian` |
| `MeshCoefficients.SlepianInClassName` | src/sleplet/meshes/mesh_coefficients.py:52 | the lower-cased class name `meshslepiancoefficients` contains `slepian` |
| `MeshCoefficients.CheckCoefficientsSkipsSlepian` | pys2sleplet/meshes/mesh_coefficients.py:50-57 | testing the class's own name, a Slepian function is never masked, any other function on a region is masked, and without a region nothing is; for non-Slepian classes it agrees with the code as written |
| `MeshCoefficients.CheckCoefficientsAsWritten` | src/sleplet/meshes/mesh_coefficients.py:48-58 | as written, the coefficients are masked whenever there is a region, whatever the class, and unchanged otherwise |
| `MeshCoefficients.CheckCoefficients` | pys2sleplet/meshes/mesh_coefficients.py:50-57 | corrected: a class whose lower-cased name contains `slepian`, or a function without a region, keeps its coefficients |
| `MeshCoefficients.MeshCoefficients.constructor` | src/sleplet/meshes/mesh_coefficients.py:32-58 | the hooks run in the order setup, name, coefficients, details, noise; the name gains its details; the coefficients `_create_coefficients` leaves pass the validator as written, so on a region they are masked whatever the class, which agrees with the intended validator for every class whose name lacks `slepian`; without noise they are the final coefficients |
| `MeshCoefficients.MeshCoefficients.AddDetails` | src/sleplet/meshes/mesh_coefficients.py:39-46 | the name gains `_region`, the noise part and `_zoom` as they apply; the coefficients are unchanged |
| `BoolMethods.LimitedLatLonMeaning` | pys2sleplet/utils/bool_methods.py:25-36 | as Python parses the test, a region is limited exactly when one of `phi_min`, `phi_max`, `theta_min` is not its default, which already rules out a polar cap; `theta_max` alone never makes one |
| `BoolMethods.Classification` | pys2sleplet/utils/bool_methods.py:11-36 | a polar cap is never a limited region, and neither holds exactly when all four angles are their defaults |
| `Region.CheckPhi` | sleplet/utils/region.py:60-78 | a `phi` below the minimum or above the maximum default is `ValueError`; any other value is kept |
| `Region.CheckTheta` | sleplet/utils/region.py:80-98 | a `theta` below the minimum or above the maximum default is `ValueError`; any other value is kept |
| `Region.PolarEnding` | sleplet/utils/region.py:34-37 | the ending starts with `polar`, then `_gap` when the gap is set, then the degrees of `theta_max` |
| `Region.Region.Unidentified` | sleplet/utils/region.py:17-23 | the angles, mask name and gap as given |
| `Region.Region.IdentifyRegion` | sleplet/utils/region.py:28-58 | a polar cap first, then a limited latitude-longitude region, then a truthy mask name used verbatim, each with its type and ending; `AttributeError` exactly when none applies |
| `Region.NewRegion` | sleplet/utils/region.py:16-98 | `ValueError` exactly when an angle is out of range; `AttributeError` exactly when all are in range and no kind of region applies; otherwise the region, with the type and the name ending its angles select: `PolarEnding` of `theta_max` for a cap, `theta<min>-<max>_phi<min>-<max>` for a limited region, the mask name verbatim otherwise |
| `MaskMethods.LoadMask` | sleplet/utils/mask_methods.py:55-65 | the stored mask exactly when the file exists, otherwise `FileNotFoundError` |
| `MaskMethods.MaskFileName` | sleplet/utils/mask_methods.py:30 | the mask file starts with the mask name and ends in `.npy` |
| `MaskMethods.MaskFilePerBandlimit` | sleplet/utils/mask_methods.py:30 | two bandlimits never share a mask file |
| `MaskMethods.CreateMaskRegion` | sleplet/utils/mask_methods.py:17-52 | an arbitrary region loads `<mask>_L<L>.npy`, missing is `FileNotFoundError` and a shape unlike the grid's `AssertionError`; a limited region marks exactly the samples inside the closed box; a polar cap the samples with `theta <= theta_max`, and also `theta >= pi - theta_max` with the gap |
| `MaskMethods.GapCapContainsCap` | sleplet/utils/mask_methods.py:48-51 | the gap only adds samples: exactly those with `theta > theta_max` and `theta >= pi - theta_max` |
| `MaskMethods.CreateMeshRegion` | sleplet/utils/mask_methods.py:94-105 | one flag per vertex, set exactly when the vertex lies in the closed box of the mesh configuration |
| `MaskMethods.ConvertRegionOnVerticesToFaces` | sleplet/utils/mask_methods.py:117-125 | one value per face: 1 exactly when all its vertices are in the region, 0 otherwise |
| `MaskMethods.FacesMonotone` | sleplet/utils/mask_methods.py:121-124 | growing the region never unmarks a face; the whole mesh marks every face, and the empty region no face with a vertex |
| `MeshMethods.CreateMeshRegion` | src/sleplet/utils/mesh_methods.py:40-53 | one flag per vertex, set exactly when each coordinate lies within its `[MIN, MAX]`, bounds included |
| `MeshMethods.StrictRegionWithinInclusive` | src/sleplet/utils/mesh_methods.py:40-53 | the strict region of the earlier package lies within this one, and they differ exactly at vertices on a face of the box |
| `MeshMethods.AverageFunctionsOnVerticesToFaces` | src/sleplet/utils/mesh_methods.py:16-37 | a vector gives a vector and a matrix a matrix of as many rows; each row is the face average of the matching input row |
| `MeshMethods.Squares` | src/sleplet/utils/mesh_methods.py:138 | the pointwise squares of `phi_i`, as `phi_i * phi_i` multiplies it |
| `MeshMethods.SquareNorm` | src/sleplet/utils/mesh_methods.py:138 | `integrate_whole_mesh(vertices, faces, phi_i, phi_i)` of a real function is the sum of its squares |
| `MeshMethods.Normalised` | src/sleplet/utils/mesh_methods.py:139-140 | one normalised function per basis function, each of its length |
| `MeshMethods.NormalisedHasUnitNorm` | src/sleplet/utils/mesh_methods.py:127-140 | after normalisation every basis function has norm 1 |
| `MeshMethods.QuotientHasUnitNorm` | src/sleplet/utils/mesh_methods.py:139-140 | dividing a function by the square root of its sum of squares leaves a sum of squares of 1 |
| `MeshMethods.OrthonormaliseBasisFunctions` | src/sleplet/utils/mesh_methods.py:127-140 | the loop over the norms followed by the division gives the normalised basis functions |
| `MeshMethods.MeshLaplacian` | src/sleplet/utils/mesh_methods.py:118-124 | every entry is minus the cotangent matrix's |
| `MeshMethods.Transpose` | src/sleplet/utils/mesh_methods.py:100 | `eigenvectors.T` has one row per column of the solver's result |
| `MeshMethods.NumberBasisFunctions` | src/sleplet/utils/mesh_methods.py:75-77 | without a count, a quarter of the vertices rounded down; otherwise the count given |
| `MeshMethods.LastDot` | src/sleplet/utils/mesh_methods.py:88 | the position of the last `.`, or -1 exactly when there is none |
| `MeshMethods.Stem` | src/sleplet/utils/mesh_methods.py:88-89 | `PurePath.stem` is a prefix of the name, the whole name when it has no `.` |
| `MeshMethods.LastDotAfter` | src/sleplet/utils/mesh_methods.py:88 | in `p.t` with no `.` in `t`, the last `.` is right after `p` |
| `MeshMethods.NoDotInNumber` | src/sleplet/utils/mesh_methods.py:86 | a number written out has no `.` |
| `MeshMethods.EvalLocationAsWritten` | src/sleplet/utils/mesh_methods.py:84-88 | as written, the eigenvalue file lies in the data directory and ends in `_eigenvalues.npy` |
| `MeshMethods.EvalLocation` | src/sleplet/utils/mesh_methods.py:84-89 | corrected: the eigenvalue file lies in the data directory, ends in `_eigenvalues.npy` and is never the eigenvector file |
| `MeshMethods.DottedNameSharesCacheFile` | src/sleplet/utils/mesh_methods.py:84-89 | as written, a mesh named `a.b` gets the same eigenvalue cache file for every number of basis functions |
| `MeshMethods.StemOfDotted` | src/sleplet/utils/mesh_methods.py:84-88 | the stem of `..._a.b_b<n>` is `..._a` |
| `MeshMethods.AsWrittenAgreesWithoutDot` | src/sleplet/utils/mesh_methods.py:84-89 | without a `.` in the mesh name the file names as written and as intended agree |
| `MeshMethods.LocationsDistinct` | src/sleplet/utils/mesh_methods.py:84-89 | with the intended names, different numbers of basis functions never share a file, and eigenvalues and eigenvectors never share one |
| `MeshMethods.EvalLocationParts` | src/sleplet/utils/mesh_methods.py:84-88 | the eigenvalue file is the directory, the mesh name, `_b`, the count and `_eigenvalues.npy` |
| `MeshMethods.MeshEigendecomposition` | src/sleplet/utils/mesh_methods.py:64-105 | the cache files are named from `eigd_loc.stem` as written (the intended names when the mesh name has no `.`); both present: they are loaded and nothing is written; otherwise the solver's eigenvalues and the normalised eigenvectors, saved only under `SAVE_MATRICES`; the count used is returned |
| `MeshConfig.StrictIsInclusiveOffTheFaces` | src/sleplet/utils/mesh_methods.py:46-53 | a vertex strictly inside the box is inside the closed box, and the converse fails exactly on its faces |
| `IntegrationMethods.RealField` | src/sleplet/_integration_methods.py:42-49 | real samples as complex ones with no imaginary part |
| `IntegrationMethods.ConjField` | src/sleplet/_integration_methods.py:36 | the pointwise conjugate |
| `IntegrationMethods.ScaledConjField` | src/sleplet/_integration_methods.py:36 | the pointwise conjugate scaled by a real |
| `IntegrationMethods.Times` | src/sleplet/_integration_methods.py:65 | `x * y` multiplies pointwise |
| `IntegrationMethods.MultiplyArgs` | src/sleplet/_integration_methods.py:63-65 | the left fold of pointwise products has the functions' length, and is the function itself when there is one |
| `IntegrationMethods.Weighted` | src/sleplet/_integration_methods.py:29 | `x * weight` scales each sample by its weight |
| `IntegrationMethods.Masked` | src/sleplet/_integration_methods.py:39 | `x * mask` keeps the samples in the region and zeroes the others |
| `IntegrationMethods.Indicator` | src/sleplet/_integration_methods.py:39 | the mask as a function: 1 inside, 0 outside |
| `IntegrationMethods.IntegrateWholeSphere` | src/sleplet/_integration_methods.py:23-29 | integrating the constant 1 gives the sum of the quadrature weights; real functions with real weights integrate to a real number |
| `IntegrationMethods.IntegrateRegionSphere` | src/sleplet/_integration_methods.py:32-39 | with every sample in the region it is the whole-sphere integral, with none it is 0 |
| `IntegrationMethods.IntegrateWholeMesh` | src/sleplet/_integration_methods.py:42-49 | real functions integrate to a real number over the whole mesh |
| `IntegrationMethods.IntegrateRegionMesh` | src/sleplet/_integration_methods.py:52-60 | real functions integrate to a real number over any region |
| `IntegrationMethods.MultiplyArgsReal` | src/sleplet/_integration_methods.py:63-65 | the pointwise product of real functions is real |
| `IntegrationMethods.RegionSphereIsMaskedWholeSphere` | src/sleplet/_integration_methods.py:23-39 | a region integral on the sphere is the whole-sphere integral with the mask as one more factor |
| `IntegrationMethods.RegionMeshExtremes` | src/sleplet/_integration_methods.py:42-60 | with every vertex in the region the region integral is the whole one; with none it is 0 |
| `IntegrationMethods.MeshIgnoresGeometry` | src/sleplet/_integration_methods.py:42-60 | the mesh integrals do not depend on the vertices and faces |
| `IntegrationMethods.MultiplyTwoCommutes` | src/sleplet/_integration_methods.py:63-65 | the product of two functions does not depend on their order |
| `IntegrationMethods.IntegralsSymmetric` | src/sleplet/_integration_methods.py:32-60 | every region integral of two functions is symmetric in them |
| `IntegrationMethods.RealMeshIntegral` | src/sleplet/_integration_methods.py:52-60 | the region integral of two real functions on a mesh is real, the sum of their products over the region |
| `IntegrationMethods.RegionSphereOfScaledConj` | src/sleplet/_integration_methods.py:32-39 | integrating a scaled conjugate against a conjugated real function gives the scaled conjugate of the integral |
| `IntegrationMethods.RegionSphereConjSwap` | src/sleplet/_integration_methods.py:32-39 | swapping the two harmonics of `integral(f conj(g))` conjugates it |
| `LegacyMeshMethods.CreateMeshRegion` | pys2sleplet/utils/mesh_methods.py:35-47 | one flag per vertex, set exactly when each coordinate lies strictly between its `MIN` and `MAX` |
| `LegacyMeshMethods.GraphLaplacian` | pys2sleplet/utils/mesh_methods.py:50-58 | `A - D`: off the diagonal the adjacency entries, on it the adjacency entry minus the row sum |
| `LegacyMeshMethods.LaplacianRowsSumToZero` | pys2sleplet/utils/mesh_methods.py:50-58 | every row of the Laplacian sums to zero |
| `LegacyMeshMethods.LaplacianSymmetric` | pys2sleplet/utils/mesh_methods.py:50-58 | the Laplacian is symmetric exactly when the adjacency matrix is |
| `LegacyMeshMethods.LaplacianDiagonalIsMinusDegree` | pys2sleplet/utils/mesh_methods.py:56-58 | with no self-loop the diagonal holds minus the vertex degree |
| `LegacyMeshMethods.MeshEigendecomposition` | pys2sleplet/utils/mesh_methods.py:61-69 | the eigenvalues of the graph Laplacian from the largest down, and the conjugated, transposed, sign-fixed eigenvectors in that order |
| `LegacyMeshMethods.MassDot` | pys2sleplet/utils/mesh_methods.py:81 | `mass.dot(f)` holds the dot product of each mass row with `f` |
| `LegacyMeshMethods.IntegrateWholeMesh` | pys2sleplet/utils/mesh_methods.py:72-81 | the zero function integrates to 0 whatever the mass matrix |
| `LegacyMeshMethods.MassDotOfZero` | pys2sleplet/utils/mesh_methods.py:81 | the mass matrix applied to the zero function sums to 0 |
| `LegacyMeshMethods.Masked` | pys2sleplet/utils/mesh_methods.py:91 | `function * mask` keeps the values in the region and zeroes the others |
| `LegacyMeshMethods.IntegrateRegionMesh` | pys2sleplet/utils/mesh_methods.py:84-91 | the region integral is the whole-mesh integral of the masked function |
| `LegacyMeshMethods.Complement` | pys2sleplet/utils/mesh_methods.py:91 | the vertices outside the region |
| `LegacyMeshMethods.RegionAndComplementMakeWhole` | pys2sleplet/utils/mesh_methods.py:72-91 | the integrals over a region and over the rest add up to the whole-mesh integral; the full mask gives the whole integral and the empty mask 0 |
| `LegacyMeshCoefficients.SetterMatchesIntendedValidator` | pys2sleplet/meshes/mesh_coefficients.py:50-57 | the earlier setter tests the class's own name: it masks exactly as the corrected validator does, and never a Slepian function |
| `LegacyMeshCoefficients.MeshCoefficients.constructor` | pys2sleplet/meshes/mesh_coefficients.py:28-33 | the setters give the defaults for arguments not passed; the hooks run setup, name, coefficients, details, noise; the coefficients go through their setter |
| `LegacyMeshCoefficients.MeshCoefficients.SetCoefficients` | pys2sleplet/meshes/mesh_coefficients.py:50-57 | masks the value when there is a region and the class name lacks `slepian`; nothing else changes |
| `LegacyMeshCoefficients.MeshCoefficients.SetExtraArgs` | pys2sleplet/meshes/mesh_coefficients.py:63-69 | the argument, or no extra arguments by default; nothing else changes |
| `LegacyMeshCoefficients.MeshCoefficients.SetNoise` | pys2sleplet/meshes/mesh_coefficients.py:91-97 | the argument, or no noise by default; nothing else changes |
| `LegacyMeshCoefficients.MeshCoefficients.SetRegion` | pys2sleplet/meshes/mesh_coefficients.py:103-109 | the argument, or no region by default; nothing else changes |
| `LegacyMeshCoefficients.MeshCoefficients.AddDetails` | pys2sleplet/meshes/mesh_coefficients.py:35-44 | the name gains `_region` unless the mesh is a Slepian one, the noise part and `_zoom`; nothing else changes |
| `MeshBasisFunctions.ValidateRankAsWritten` | src/sleplet/meshes/harmonic_coefficients/_mesh_basis_functions.py:52-59 | as written, extra arguments pass exactly when their first entry is at most the number of eigenvalues; a larger one is `ValueError`, an empty list `IndexError` |
| `MeshBasisFunctions.InitialiseAsWritten` | src/sleplet/meshes/harmonic_coefficients/_mesh_basis_functions.py:18-59 | as written, construction succeeds exactly when the initial rank passes and the final rank (the single extra argument, or the initial rank) indexes an eigenvalue, and then gives the name of that rank; a rank equal to the number of eigenvalues ends in `IndexError` |
| `MeshBasisFunctions.RankEqualToLimitPasses` | src/sleplet/meshes/harmonic_coefficients/_mesh_basis_functions.py:52-59 | as written, a rank equal to the number of eigenvalues passes `_validate_rank` and fails later with `IndexError` when the name reads its eigenvalue |
| `MeshBasisFunctions.Initialise` | src/sleplet/meshes/harmonic_coefficients/_mesh_basis_functions.py:18-59 | corrected: succeeds under the same condition and gives the same name, but a rank from the extra arguments that is not below the number of eigenvalues is refused with `ValueError` |
| `MeshBasisFunctions.IntendedCheckNeverIndexesOutOfRange` | src/sleplet/meshes/harmonic_coefficients/_mesh_basis_functions.py:18-59 | with the corrected check a rank from the extra arguments is refused with `ValueError` or names an existing eigenvalue, never reaching `IndexError` |
| `MeshBasisFunctions.CreateName` | src/sleplet/meshes/harmonic_coefficients/_mesh_basis_functions.py:33-41 | the cleaned name contains no `.` and no `+` |
| `MeshBasisFunctions.NameShowsRank` | src/sleplet/meshes/harmonic_coefficients/_mesh_basis_functions.py:33-41 | the rank appears verbatim after the cleaned mesh name and `_rank` |
| `MeshDMatrix.Integral` | src/sleplet/meshes/mesh_slepian.py:125-135 | `_integral(i, j)` is the sum over the region's vertices of the product of the two basis functions |
| `MeshDMatrix.IntegralSymmetric` | src/sleplet/meshes/mesh_slepian.py:125-135 | `_integral(i, j) == _integral(j, i)`, which is why one triangle is enough |
| `MeshDMatrix.FillDElements` | src/sleplet/meshes/mesh_slepian.py:117-123 | column `i` gets the integrals on the diagonal and below it; every other entry is unchanged |
| `MeshDMatrix.FillChunk` | src/sleplet/meshes/mesh_slepian.py:85-98 | every column of the chunk is filled; the other columns are unchanged |
| `MeshDMatrix.FillChunks` | src/sleplet/meshes/mesh_slepian.py:100-107 | every column of every chunk is filled; the others are unchanged |
| `MeshDMatrix.Lower` | src/sleplet/meshes/mesh_slepian.py:75-123 | the lower triangle and diagonal of the integrals, zeros above |
| `MeshDMatrix.CreateDMatrix` | src/sleplet/meshes/mesh_slepian.py:75-115 | a fresh square matrix holding the lower triangle of the integrals, whatever the number of workers |
| `MeshDMatrix.CompletedIsIntegrals` | src/sleplet/meshes/mesh_slepian.py:64-65 | after completing the upper triangle every entry is the integral of its two basis functions, so the matrix is symmetric |
| `MeshDMatrix.Solved` | src/sleplet/meshes/mesh_slepian.py:137-151 | as many eigenvectors as eigenvalues |
| `MeshDMatrix.SolveFromScratch` | src/sleplet/meshes/mesh_slepian.py:56-71 | build, complete, solve and clean give the cleaned decomposition of the matrix of region integrals |
| `MeshDMatrix.SolvedIsSortedEigenbasis` | src/sleplet/meshes/mesh_slepian.py:137-151 | the Slepian eigenvalues come from the largest down, and every eigen-pair of the solver is among them |
| `MeshSlepian.EigdLocation` | src/sleplet/meshes/mesh_slepian.py:39-42 | the cache name starts with `meshes_laplacians_slepian_functions_` |
| `MeshSlepian.EvalLocation` | src/sleplet/meshes/mesh_slepian.py:43-44 | the eigenvalue file is named after the stem, ends in `.npy` and is never the eigenvector file |
| `MeshSlepian.MeshSlepian.constructor` | src/sleplet/meshes/mesh_slepian.py:28-30 | the mesh and Shannon number kept, and the Slepian functions computed as `_compute_slepian_functions` leaves them: looked up in the published data set and then in the user data directory, computed and saved in the package data directory otherwise |
| `MeshSlepian.MeshSlepian.ComputeSlepianFunctions` | src/sleplet/meshes/mesh_slepian.py:32-54 | both files found by `find_on_pooch_then_local`: they are loaded and nothing is written; a file not found (the lookup gives `None`, loading it a `TypeError`) falls back to the computation from scratch, which saves under the package data directory |
| `MeshSlepian.MeshSlepian.ComputeSlepianFunctionsFromScratch` | src/sleplet/meshes/mesh_slepian.py:56-73 | the cleaned solution is kept in full; the eigenvalues and the leading `N` eigenvectors are saved at the two given paths and nothing else is written |
| `MeshSlepian.Saved` | src/sleplet/meshes/mesh_slepian.py:72-73 | a computation from scratch adds exactly the eigenvalue and the eigenvector file under the directory it saves to |
| `MeshSlepian.SamePathSameDirectory` | src/sleplet/meshes/mesh_slepian.py:72-73 | `d / x` and `e / x` are the same path only when `d` and `e` are the same directory |
| `MeshSlepian.EvalNeverEvecPath` | src/sleplet/meshes/mesh_slepian.py:43-44 | whatever the two directories, an eigenvalue path is never an eigenvector path |
| `MeshSlepian.SavedFilesNotFoundAsWritten` | src/sleplet/meshes/mesh_slepian.py:21-73 | as written, a file saved in the package data directory is not found by a later lookup in a different user data directory unless the published data set has it |
| `MeshSlepian.SecondRunLoadsCache` | src/sleplet/meshes/mesh_slepian.py:32-73 | corrected: saved in the directory the lookup searches, the files are found again by a second object (unless the published data set has them), the eigenvalue file with all the eigenvalues and the eigenvector file with the leading `N` eigenvectors |
| `MeshSlepianLegacy.EigdLocation` | src/sleplet/meshes/classes/mesh_slepian.py:43-48 | the cache directory lies under `laplacians/slepian_functions/` and starts with the mesh name and `_b` |
| `MeshSlepianLegacy.EvalLocation` | src/sleplet/meshes/classes/mesh_slepian.py:49-50 | the eigenvalue binary is a `.npy` file inside the cache directory and never the eigenvector binary |
| `MeshSlepianLegacy.MeshSlepian.constructor` | src/sleplet/meshes/classes/mesh_slepian.py:32-34 | the mesh and Shannon number kept, and the Slepian functions computed |
| `MeshSlepianLegacy.MeshSlepian.ComputeSlepianFunctions` | src/sleplet/meshes/classes/mesh_slepian.py:36-74 | both binaries exist: loaded and nothing written; otherwise the fresh solution, saved only under `SAVE_MATRICES` |
| `EigenMethods.InsertIndexMultiset` | src/sleplet/meshes/mesh_slepian.py:148 | inserting an index into a partial argsort adds exactly that index and keeps every other one |
| `EigenMethods.InsertKeepsAscending` | src/sleplet/meshes/mesh_slepian.py:148 | inserting an index into an ascending argsort keeps it ascending |
| `EigenMethods.ArgsortUpToPermutation` | src/sleplet/meshes/mesh_slepian.py:148 | the argsort of the first `n` eigenvalues lists each of the indices `0 .. n-1` exactly once |
| `EigenMethods.PermutationGrows` | src/sleplet/meshes/mesh_slepian.py:148 | adding index `n` to a permutation of `range(n)` gives a permutation of `range(n + 1)` |
| `EigenMethods.ArgsortUpToAscending` | src/sleplet/meshes/mesh_slepian.py:148 | the argsort orders the eigenvalues from the smallest up |
| `EigenMethods.Reverse` | src/sleplet/meshes/mesh_slepian.py:148 | `[::-1]`: entry `p` is entry `n - 1 - p` of the input, and the entries are the same multiset |
| `EigenMethods.DescendingOrderSorts` | src/sleplet/meshes/mesh_slepian.py:148 | `argsort()[::-1]` orders the eigenvalues from the largest down and lists every index exactly once |
| `EigenMethods.PermutationCovers` | src/sleplet/meshes/mesh_slepian.py:148 | a permutation of `range(n)` contains every index below `n` |
| `EigenMethods.Reorder` | src/sleplet/meshes/mesh_slepian.py:149 | `eigenvalues[idx]`: entry `p` is the eigenvalue at `idx[p]` |
| `EigenMethods.Column` | src/sleplet/meshes/mesh_slepian.py:150 | `m[:, c]`: entry `k` is row `k`'s entry `c` |
| `EigenMethods.ColumnsAsRows` | src/sleplet/meshes/mesh_slepian.py:150 | `eigenvectors[:, idx].T`: row `p` is column `idx[p]` |
| `EigenMethods.CleanEvalsAndEvecs` | src/sleplet/meshes/mesh_slepian.py:138-151 | the cleaned pair `p` is the eigenvalue at the `p`-th position of the descending order together with its own eigenvector column |
| `EigenMethods.CleanKeepsPairs` | src/sleplet/meshes/classes/mesh_slepian.py:137-150 | the cleaned eigenvalues never increase, and every eigenvalue with its eigenvector appears among the cleaned pairs: sorting loses no eigen-pair |
| `EigenMethods.ConjColumnsAsRows` | pys2sleplet/utils/mesh_methods.py:105 | `eigenvectors[:, idx].conj().T`: row `p` entry `k` is the conjugate of entry `k` of column `idx[p]` |
| `EigenMethods.SignFixed` | pys2sleplet/utils/mesh_methods.py:108-109 | a row whose first entry is negative (numpy's lexicographic complex order) is negated, any other row is kept |
| `EigenMethods.SignFixedFirstEntry` | pys2sleplet/utils/mesh_methods.py:108-109 | after the fix the first entry of each eigenvector is not negative, and the row is the old row times 1 or -1 |
| `EigenMethods.FixSigns` | pys2sleplet/utils/mesh_methods.py:109 | the in-place multiplication: each array row whose first entry was negative is negated, every other row is unchanged |
| `EigenMethods.LegacyRows` | pys2sleplet/utils/mesh_methods.py:103-105 | the sorted conjugated eigenvector rows have one row per eigenvalue and one entry per vertex |
| `EigenMethods.CleanEvalsAndEvecsLegacy` | pys2sleplet/utils/mesh_methods.py:94-110 | the eigenvalues come back from the largest down, and array row `p` is the sign-fixed conjugate of the eigenvector of eigenvalue `p` |
| `EigenMethods.ToArray` | pys2sleplet/utils/mesh_methods.py:105 | a fresh array holding exactly the given rows |
| `HarmonicIndex.Ind` | src/sleplet/wavelet_methods.py:133 | `elm2ind(ell, m)` lies in the block `[ell^2, (ell + 1)^2)` of its degree |
| `HarmonicIndex.Ell` | src/sleplet/slepian/slepian_region/slepian_arbitrary.py:157 | the degree of `ind2elm(i)` is the one whose block contains `i` |
| `HarmonicIndex.M` | src/sleplet/slepian/slepian_region/slepian_arbitrary.py:157 | the order of `ind2elm(i)` lies in `[-ell, ell]` and maps back to `i` |
| `HarmonicIndex.DegreeUnique` | src/sleplet/slepian/slepian_region/slepian_arbitrary.py:157 | only one degree's block contains a given index |
| `HarmonicIndex.IndRoundTrip` | src/sleplet/slepian/slepian_region/slepian_arbitrary.py:157-168 | `ind2elm(elm2ind(ell, m)) == (ell, m)` |
| `HarmonicIndex.BelowBandlimit` | src/sleplet/slepian/slepian_region/slepian_arbitrary.py:157-168 | an index lies below `L^2` exactly when its degree lies below `L` |
| `HarmonicIndex.Mirror` | src/sleplet/slepian/slepian_region/slepian_arbitrary.py:168 | `elm2ind(ell, -m)` for the index of `(ell, m)`: same degree, negated order |
| `HarmonicIndex.MirrorInvolutive` | src/sleplet/slepian/slepian_region/slepian_arbitrary.py:168 | mirroring twice gives back the index |
| `HarmonicIndex.IndexOrder` | src/sleplet/slepian/slepian_region/slepian_arbitrary.py:157-168 | indices are ordered by degree first, then by order within a degree, in both directions |
| `LegacyFunctions.SiftingConvolution` | pys2sleplet/flm/functions.py:106-114 | the sifting convolution keeps the number of coefficients |
| `LegacyFunctions.ConvolveWithOnes` | pys2sleplet/flm/functions.py:114 | convolving with a kernel of real ones gives the function back |
| `LegacyFunctions.ConvolveRealSymmetric` | pys2sleplet/flm/functions.py:114 | for real coefficients the sifting convolution is symmetric in its two arguments |
| `LegacyFunctions.MaskingAndNaming` | pys2sleplet/flm/functions.py:116-121 | every multipole the setter masks belongs to a function named after its region, while a `south_america` function gets the region in its name and is never masked |
| `LegacyFunctions.Functions.constructor` | pys2sleplet/flm/functions.py:35-44 | the setters run on the initial fields, then the hooks in the order resolution, arguments, name, annotations, spin, reality, coefficients, region suffix, noise; the multipole is masked unless the name holds `slepian` or `south_america`, and a noisy multipole is masked again after the noise is added |
| `LegacyFunctions.Functions.SetExtraArgs` | pys2sleplet/flm/functions.py:143-149 | a value left as the property object becomes the default `None`; any other value is stored, and nothing else changes |
| `LegacyFunctions.Functions.SetNoise` | pys2sleplet/flm/functions.py:185-191 | a value left as the property object becomes the default `False`; any other value is stored, and nothing else changes |
| `LegacyFunctions.Functions.SetRegion` | pys2sleplet/flm/functions.py:205-211 | a value left as the property object becomes the default `None`; any other value is stored, and nothing else changes |
| `LegacyFunctions.Functions.SetMultipole` | pys2sleplet/flm/functions.py:163-171 | the stored multipole is the masked value when a region is set and the name contains neither `slepian` nor `south_america`, the value itself otherwise |
| `LegacyFunctions.Functions.AddRegion` | pys2sleplet/flm/functions.py:116-121 | the name gains `_` and the region's name ending exactly when a region is set and the name does not contain `slepian` |
| `LegacyFunctions.Functions.AddNoise` | pys2sleplet/flm/functions.py:123-129 | with noise on, the multipole becomes the sum with the noise field, passed through the multipole setter again; without noise nothing changes |
| `LegacyFunctions.Functions.Convolve` | pys2sleplet/flm/functions.py:106-114 | the result is the sifting convolution, and the reality flag is switched off |
| `LegacyFunctions.Functions.Translate` | pys2sleplet/flm/functions.py:99-104 | a function named exactly `dirac_delta` returns the translated delta itself and keeps its reality; any other convolves its multipole with it and is no longer real |
| `LegacyFunctions.Masked` | pys2sleplet/flm/functions.py:165-171 | the multipole setter's result keeps the number of coefficients |
| `LegacyFunctions.AddNoiseField` | pys2sleplet/flm/functions.py:129 | `multipole += nlm`: entry `k` is the sum of the two entries `k` |
| `LegacySlepianKernel.Slepian.constructor` | pys2sleplet/flm/kernels/slepian.py:10-15 | the Slepian object and its eigenvectors are set, and the rank starts at its default 0 |
| `LegacySlepianKernel.Slepian.SetRank` | pys2sleplet/flm/kernels/slepian.py:59-70 | a value left as the property object becomes 0; a non-integer fails with `TypeError`, a negative one with `ValueError`, and a refused value leaves the rank as it was |
| `LegacySlepianKernel.Slepian.SetupArgs` | pys2sleplet/flm/kernels/slepian.py:37-44 | without extra arguments nothing changes; a list of any other length than 1 fails with `ValueError`; a single value goes through the rank setter |
| `LegacySlepianKernel.Slepian.Multipole` | pys2sleplet/flm/kernels/slepian.py:30-31 | the coefficients are the eigenvector of that rank, and a rank with no eigenvector is `IndexError` |
| `LegacySlepianKernel.NewSlepian` | pys2sleplet/flm/kernels/slepian.py:17-53 | construction succeeds exactly when the initial rank passes the setter and the final rank (the single extra argument, or the rank given) indexes an eigenvector; the object then holds that rank and its eigenvector as multipole; a rank given directly with no eigenvector passes `_validate_rank` and fails with `IndexError` in `_create_flm` |
| `LegacySlepianKernel.AcceptedRankSelects` | pys2sleplet/flm/kernels/slepian.py:27-31 | an accepted rank selects its eigenvector, and the name is the Slepian name, `_rank` and that rank, which reads back as the rank |
| `SlepianRank.CheckRank` | src/sleplet/functions/fp/slepian.py:66-72 | accepts exactly the integers that are not negative and returns them; a non-integer fails with `TypeError`, a negative one with `ValueError` |
| `SlepianRank.ValidateRank` | src/sleplet/functions/fp/slepian.py:57-64 | only a list of extra arguments is checked, and it passes exactly when its first element is below the limit; an empty list fails on the index, a too-large value with `ValueError`. The limit is `L^2` here; the same check serves the earlier package with the number of eigenvectors (pys2sleplet/flm/kernels/slepian.py:46-53, within `NewSlepian`) and the corrected mesh check with the number of eigenvalues (within `MeshBasisFunctions.Initialise`) |
| `SlepianRank.SetupArgs` | src/sleplet/functions/fp/slepian.py:48-55 | without extra arguments the rank is kept; a list of any other length than 1 fails with `ValueError`; a single value becomes the rank through `check_rank` |
| `SlepianRank.RankFromArgumentsInRange` | src/sleplet/functions/fp/slepian.py:16-18 | with a valid initial rank, a list of extra arguments is accepted exactly when it holds one value in `[0, L^2)`, and that value becomes the rank |
| `SlepianRank.RangeCheckedBeforeCount` | src/sleplet/functions/fp/slepian.py:16-18 | the range check runs before the count check: an over-long list with a too-large first value fails for its value, and an empty list fails on the index |
| `SlepianRank.InitialiseRank` | src/sleplet/functions/fp/slepian.py:16-18 | the rank stage of construction succeeds exactly when the initial rank passes `check_rank` and any extra arguments are one value in `[0, L^2)`; the rank is then that value or the initial one, never negative; a failing initial rank gives its own error. A rank given directly is not compared with `L^2` |
| `SlepianRank.Initialise` | src/sleplet/functions/fp/slepian.py:16-40 | construction succeeds exactly when the rank stage does and the final rank indexes the orders, the eigenvalues and the eigenvectors; the function is then named after and made from that rank; a valid rank given directly with no eigenvalue ends in `IndexError`, and a failing rank stage gives its own error |
| `SlepianRank.DirectRankReachesIndexError` | src/sleplet/functions/fp/slepian.py:16-40 | with `L^2` eigenvalues and eigenvectors, the rank `L^2` given directly passes the rank stage and construction fails with `IndexError` |
| `SlepianRank.CreateName` | src/sleplet/functions/fp/slepian.py:20-33 | a name exists exactly when the rank indexes the orders (when there are any) and the eigenvalues, otherwise `IndexError`; the name holds no `.` and no `+` |
| `SlepianRank.NameShowsRank` | src/sleplet/functions/fp/slepian.py:20-33 | the cleaned name is the cleaned prefix (with the order when there is one), then `_rank` and the rank verbatim, then the cleaned eigenvalue part |
| `SlepianRank.RawNameParts` | src/sleplet/functions/fp/slepian.py:26-30 | the raw name is the prefix, then the rank part, then the eigenvalue part |
| `SlepianRank.RankSurvivesCleaning` | src/sleplet/functions/fp/slepian.py:31-32 | the rank part passes through the `.` and `+` replacements unchanged |
| `SlepianRank.Concrete` | src/sleplet/functions/fp/slepian.py:20-46 | succeeds exactly when the rank has a name and an eigenvector, otherwise `IndexError`; the function then has spin 0, is not real, carries the cleaned name and the Slepian forward transform of the eigenvector of its rank |
| `SlepianSpecific.Rad2Deg` | pys2sleplet/slepian/slepian_region/slepian_specific.py:34 | `pi` radians are 180 degrees, converting back multiplies by `pi / 180`, and the sign is kept |
| `SlepianSpecific.CheckDegrees` | pys2sleplet/slepian/slepian_region/slepian_specific.py:32-38 | an angle passes exactly when its value in degrees lies in the default range, and is stored unchanged; otherwise `ValueError` |
| `SlepianSpecific.CheckOrder` | pys2sleplet/slepian/slepian_region/slepian_specific.py:80-87 | a non-integer order fails with `TypeError`, an integer of magnitude `L` or more with `ValueError`; exactly the integers in `(-L, L)` pass |
| `SlepianSpecific.SlepianSpecific.constructor` | pys2sleplet/slepian/slepian_region/slepian_specific.py:17-23 | the order starts at 0 and the four angles at their defaults |
| `SlepianSpecific.SlepianSpecific.SetPhiMin` | pys2sleplet/slepian/slepian_region/slepian_specific.py:32-38 | the value is stored exactly when it lies in the longitude range in degrees, otherwise `ValueError` and nothing changes; the other fields never change |
| `SlepianSpecific.SlepianSpecific.SetPhiMax` | pys2sleplet/slepian/slepian_region/slepian_specific.py:44-50 | the value is stored exactly when it lies in the longitude range in degrees, otherwise `ValueError` and nothing changes; the other fields never change |
| `SlepianSpecific.SlepianSpecific.SetThetaMin` | pys2sleplet/slepian/slepian_region/slepian_specific.py:56-62 | the value is stored exactly when it lies in the colatitude range in degrees, otherwise `ValueError` and nothing changes; the other fields never change |
| `SlepianSpecific.SlepianSpecific.SetThetaMax` | pys2sleplet/slepian/slepian_region/slepian_specific.py:68-74 | the value is stored exactly when it lies in the colatitude range in degrees, otherwise `ValueError` and nothing changes; the other fields never change |
| `SlepianSpecific.SlepianSpecific.SetOrder` | pys2sleplet/slepian/slepian_region/slepian_specific.py:80-87 | the order is stored exactly when `CheckOrder` accepts it, and the error is the one it gives; the angles never change |
| `SlepianSpecific.NoCrossCheck` | pys2sleplet/slepian/slepian_region/slepian_specific.py:32-50 | the setters are independent: a minimum above its maximum passes when each lies in the range |
| `SlepianSpecific.TypeCheckedFirst` | pys2sleplet/slepian/slepian_region/slepian_specific.py:82-86 | a non-integer order fails with `TypeError` even when its magnitude is out of range too |
| `SlepianFunctionsLegacy.AppendTag` | slepian_functions.py:123-137 | one step of `filename_angle()`: `_key-value` is appended exactly when the angle is not at its default |
| `SlepianFunctionsLegacy.FilenameAngleAsWritten` | slepian_functions.py:116-138 | as written, building the name fails with `AttributeError` exactly when the longitude maximum is not 360; when it succeeds it is the intended name |
| `SlepianFunctionsLegacy.WesternHemisphereHasNoName` | slepian_functions.py:127-129 | for the region from 0 to 180 degrees of longitude and 0 to 90 degrees of colatitude, the name as written raises `AttributeError`, while the intended name is `_pmax-180_tmax-90` |
| `SlepianFunctionsLegacy.AngleSuffixEmptyIffWholeSphere` | slepian_functions.py:116-138 | the angle part of the name is empty exactly for the whole sphere |
| `SlepianFunctionsLegacy.PrefixedAppend` | slepian_functions.py:116-138 | prefixing every token with `_` distributes over concatenation |
| `SlepianFunctionsLegacy.TagIsPrefixedToken` | slepian_functions.py:123-137 | each appended part is its token with an underscore before it |
| `SlepianFunctionsLegacy.SuffixIsPrefixedTokens` | slepian_functions.py:116-138 | the name is the underscore-prefixed tokens of the non-default angles |
| `SlepianFunctionsLegacy.SplitWithoutSeparator` | slepian_functions.py:116-138 | a text without the separator splits into itself alone |
| `SlepianFunctionsLegacy.SplitPrefixed` | slepian_functions.py:116-138 | splitting a text followed by underscore-prefixed tokens on `_` gives back the text and the tokens |
| `SlepianFunctionsLegacy.ReadTokensAppend` | slepian_functions.py:116-138 | reading two token lists in a row reads the first, then the second from where the first left off |
| `SlepianFunctionsLegacy.ReadOneToken` | slepian_functions.py:123-137 | the token of one angle reads back as that angle |
| `SlepianFunctionsLegacy.TokensHaveNoUnderscore` | slepian_functions.py:116-138 | no token contains the separator |
| `SlepianFunctionsLegacy.AngleSuffixRoundTrip` | slepian_functions.py:116-138 | the four angles read back from the angle part of the name: it records every non-default angle under its own key |
| `SlepianFunctionsLegacy.AngleSuffixInjective` | slepian_functions.py:62-69 | two different regions never share the cached concentration matrix file |
| `SlepianFunctionsLegacy.PermuteColumns` | slepian_functions.py:82 | `eigen_vectors[:, idx]`: entry `(k, p)` is entry `(k, idx[p])` |
| `SlepianFunctionsLegacy.SortEigenpairs` | slepian_functions.py:79-83 | fails with `ValueError` exactly when there are no eigenvalues; otherwise the eigenvalues come from the largest down, divided by the largest, and the eigenvector columns follow the same order |
| `SlepianFunctionsLegacy.LeadingEigenvalueIsOne` | slepian_functions.py:80-81 | with a positive largest eigenvalue, the first scaled eigenvalue is exactly 1 |
| `SlepianFunctionsLegacy.ScaledEigenvaluesOrdered` | slepian_functions.py:80-81 | the scaled eigenvalues never increase, and lie in `[0, 1]` when the eigenvalues are not negative |
| `SlepianFunctionsLegacy.PyIndex` | slepian_functions.py:90 | Python indexing: a negative index counts from the end, and anything outside `[-n, n)` raises `IndexError` |
| `SlepianFunctionsLegacy.PlotCoefficientsAsWritten` | slepian_functions.py:90 | as written, `plot(rank)` takes a row of the eigenvector matrix, and succeeds exactly for `rank` in `(-n, n]` |
| `SlepianFunctionsLegacy.PlotCoefficients` | slepian_functions.py:90 | as intended, `plot(rank)` takes a column, and succeeds exactly for `rank` in `(-n, n]` of the number of eigenvectors |
| `SlepianFunctionsLegacy.RowIsNotTheEigenvector` | slepian_functions.py:90 | for one 2 by 2 eigenvector matrix, the row taken as written differs from the eigenvector of the largest eigenvalue |
| `SlepianFunctionsLegacy.PlotDrawsRankedEigenvector` | slepian_functions.py:79-90 | as intended, `plot(rank)` for `1 <= rank <= n` draws the eigenvector of the `rank`-th largest eigenvalue |
| `SlepianFunctionsLegacy.SortedColumn` | slepian_functions.py:82 | column `p` of the sorted eigenvectors is the column the descending order puts at `p` |
| `SlepianFunctionsLegacy.SlepianFunctions.DEntries` | slepian_functions.py:51-60 | the concentration matrix is square of side `L^2` with the integral on and above the diagonal and its conjugate below |
| `SlepianFunctionsLegacy.SlepianFunctions.EntriesHermitian` | slepian_functions.py:56-59 | the concentration matrix is Hermitian: each off-diagonal entry is the conjugate of its mirror |
| `SlepianFunctionsLegacy.SlepianFunctions.constructor` | slepian_functions.py:13-36 | the band-limit, the angles and the quadrature are set, before the eigen-problem is solved |
| `SlepianFunctionsLegacy.SlepianFunctions.DIntegral` | slepian_functions.py:46-49 | the pair is stored, and the result is the quadrature of that pair |
| `SlepianFunctionsLegacy.SlepianFunctions.DMatrix` | slepian_functions.py:51-60 | a fresh `L^2` by `L^2` array holding the Hermitian concentration matrix; the last pair integrated is the final diagonal entry |
| `SlepianFunctionsLegacy.SlepianFunctions.FillRow` | slepian_functions.py:53-59 | one pass of the outer loop fills row `a` from the diagonal on and its mirror in column `a`, and nothing else |
| `SlepianFunctionsLegacy.SlepianFunctions.EigenProblem` | slepian_functions.py:62-83 | off the default longitude bound the file name fails with `AttributeError` and nothing is written; otherwise the matrix comes from its cache file when there is one and is otherwise computed and saved there, and the result is the sorted, scaled decomposition of it |
| `SlepianFunctionsLegacy.SlepianFunctions.FilenameAngle` | slepian_functions.py:116-138 | as written: `AttributeError` exactly when `phi_max != 360`, otherwise the tags built one after another, which are then the intended angle part of the name |
| `SlepianFunctionsLegacy.NewSlepianFunctions` | slepian_functions.py:13-37 | construction fails exactly when `L == 0` (no eigenvalues for `np.max`) or `phi_max != 360` (`AttributeError`, nothing written); otherwise the cache file exists afterwards, and the object holds the sorted, scaled decomposition of the cached matrix |
| `PlotMethods.ResolutionCases` | src/sleplet/plot_methods.py:24-37 | the first table entry whose `2 ** log_bandlimit` exceeds `L` decides: `L` below 2 is multiplied by 64, below 4 by 32, below 8 by 16, below 128 by 8, below 512 by 4, below 1024 by 2, and from 1024 on `L` is kept |
| `PlotMethods.CalcPlotResolution` | src/sleplet/plot_methods.py:24-37 | the resolution is the bandlimit times a power of two up to `2 ** 6`, and the bandlimit itself from 1024 on |
| `PlotMethods.FirstResolutionScales` | src/sleplet/plot_methods.py:28-36 | whichever table entry applies, the bandlimit is multiplied by `2 ** e` with `e` at most 6 |
| `PlotMethods.LargeBandlimitUnscaled` | src/sleplet/plot_methods.py:28-37 | from 1024 on no entry of the table applies and the bandlimit is returned |
| `PlotMethods.Pow2Monotone` | src/sleplet/plot_methods.py:32 | `2 ** a <= 2 ** b` for `a <= b` |
| `PlotMethods.ResolutionBounds` | src/sleplet/plot_methods.py:24-37 | a bandlimit of 1024 or more is not upsampled; any other positive bandlimit is multiplied by a power of two, at least doubled, and gives at least 64 |
| `PlotMethods.ResolutionNotMonotone` | src/sleplet/plot_methods.py:28-37 | the resolution is not monotone in the bandlimit: `L = 3` is plotted at 96 but `L = 4` at 64 |
| `PlotMethods.CreatePlotType` | src/sleplet/plot_methods.py:124-137 | the four keys `abs`, `imag`, `real`, `sum` give the modulus, the imaginary part, the real part and their sum entry by entry; any other key raises `KeyError` |
| `PlotMethods.SumOfRealFieldIsReal` | src/sleplet/plot_methods.py:131-136 | on a real field the `sum` plot equals the `real` plot |
| `PlotMethods.CloseMask` | src/sleplet/plot_methods.py:151-152 | every row of the mask gains a copy of its first entry at its end, the rest of the row kept |
| `PlotMethods.SetOutsideRegionToMinimum` | src/sleplet/plot_methods.py:140-155 | inside the region the plotted value is kept, outside it is the unseen value, and the closing column follows the mask's first column |
| `PlotMethods.ClosedPlotWraps` | src/sleplet/plot_methods.py:150-155 | where the plotted function closes in longitude, the blanked plot closes too |
| `PlotMethods.Max` | src/sleplet/plot_methods.py:169-171 | `f.max()` is an entry of `f` and no entry exceeds it |
| `PlotMethods.Min` | src/sleplet/plot_methods.py:174 | `f.min()` is an entry of `f` and no entry is below it |
| `PlotMethods.NormaliseFunction` | src/sleplet/plot_methods.py:158-174 | the result has as many values as the input, and without normalisation it is the input itself |
| `PlotMethods.NormaliseAllZero` | src/sleplet/plot_methods.py:166-168 | an all-zero function becomes 0.5 everywhere |
| `PlotMethods.NormaliseConstant` | src/sleplet/plot_methods.py:169-171 | a constant nonzero function becomes 1 everywhere |
| `PlotMethods.NormaliseScaled` | src/sleplet/plot_methods.py:172-174 | outside those two cases the minimum lies strictly below the maximum and the result is `(f - min) / (max - min)` |
| `PlotMethods.RescaleBounds` | src/sleplet/plot_methods.py:174 | values within `[lo, hi]` rescale into `[0, 1]`, the ends onto the ends |
| `PlotMethods.NormaliseRange` | src/sleplet/plot_methods.py:172-174 | a non-constant function is mapped into `[0, 1]`, reaching both 0 and 1 |
| `PlotMethods.RescaleMonotone` | src/sleplet/plot_methods.py:174 | the rescaling keeps the order of any two values |
| `PlotMethods.NormaliseMonotone` | src/sleplet/plot_methods.py:158-174 | normalisation keeps the order of any two values |
| `Storage.Take` | src/sleplet/meshes/mesh_slepian.py:73 | `x[:n]` has `n` entries (all of them when there are fewer) and is a prefix of `x` |
| `Storage.Disk.constructor` | src/sleplet/meshes/mesh_slepian.py:56-73 | the disk starts with the given files |
| `Storage.Disk.Find` | src/sleplet/_data/setup_pooch.py:19-28 | `np.load(find_on_pooch_then_local(filename))` over the disk's files: the lookup below |
| `Storage.FindOnPoochThenLocal` | src/sleplet/_data/setup_pooch.py:19-28 | a file of the published registry is taken from it first; otherwise the file of that name in the user data directory; `None` exactly when neither holds it |
| `Storage.Disk.Save` | src/sleplet/meshes/mesh_slepian.py:72-73 | after saving, the path holds exactly the saved value, every other file is unchanged, and the path exists |
| `Strings.NatToStringRoundTrip` | src/sleplet/functions/fp/slepian.py:28 | the decimal digits of a natural number read back as that number |
| `Strings.IntToStringRoundTrip` | src/sleplet/functions/fp/slepian.py:28 | `f"{i}"` reads back as `i`: an optional minus sign followed by digits |
| `Strings.IntToStringInjective` | src/sleplet/functions/fp/slepian.py:28 | two integers never print the same |
| `Strings.Split` | src/sleplet/functions/coefficients.py:102 | `s.split(sep)` gives at least one part, and no part contains the separator |
| `Strings.SplitJoinRoundTrip` | src/sleplet/functions/coefficients.py:102 | joining the parts of a split with the separator gives back the name |
| `Strings.SplitAfterPrefix` | src/sleplet/functions/coefficients.py:102 | a prefix free of the separator is the first part of the split, and the rest splits on its own |
| `Strings.Lower` | src/sleplet/meshes/mesh_coefficients.py:52 | `str.lower` maps each character and leaves no upper-case ASCII letter |
| `Strings.ReplaceChar` | src/sleplet/functions/fp/slepian.py:31 | `s.replace(a, b)` for one character replaces every `a` by `b` and keeps every other character in place |
| `Strings.RemoveChar` | src/sleplet/functions/fp/slepian.py:32 | `s.replace(a, "")` leaves no `a`, keeps every other character, and is no longer than `s` |
| `Strings.SafeName` | src/sleplet/meshes/harmonic_coefficients/_mesh_basis_functions.py:39-40 | the cleaned name holds no `.` and no `+`, and every other character except `-` occurs in it exactly when it occurs in the raw name |
| `Strings.SafeNameIdempotent` | src/sleplet/functions/fp/slepian.py:31-32 | cleaning a name twice changes nothing more |
| `Strings.SafeNameAppend` | src/sleplet/functions/fp/slepian.py:31-32 | the cleaning distributes over concatenation |
| `Strings.SafeNameNoOp` | src/sleplet/functions/fp/slepian.py:31-32 | a name without `.` and `+` is already clean |
| `Strings.IntToStringIsClean` | src/sleplet/functions/fp/slepian.py:28-32 | a printed integer contains neither `.` nor `+` |

## Left out

- Spherical-harmonic transforms, rotation, `create_ylm`, `sample_positions`, `mesh_forward`/`mesh_inverse` and the `igl` mass and adjacency matrices: external numerics, taken as function parameters or left out. `Functions.rotate` and `find_max_amplitude`, `_boost_field`, `compute_amplitude_for_noisy_*` and `_coefficients_to_field_*` only wrap these transforms and are not modelled.
- `numpy.linalg.eigh` and `scipy`'s `eigsh`: their eigen-pairs are inputs to the sorting and cleaning, which are modelled.
- Thread pools and shared-memory buffers: the chunks of `_create_D_matrix` are filled one after another. Each call writes only its own column, which stands in for the write-disjointness of the parallel fill.
- `SlepianArbitrary.SlepianArbitrary.Integral`: the memo proves each harmonic is synthesised at most once for the sequential fill only; concurrent workers racing on the memo are not modelled.
- Floating point: reals are exact, `np.pi` is the rational `3.141592653589793`, and `np.rad2deg`, `sqrt`, `sin`, `gammaln` and the quadrature weights are exact or parameters.
- `PlotMethods.NormaliseFunction`: reads `np.allclose(f, f.max())` as exact equality with the maximum, because tolerances are floating-point behaviour.
- `SlepianFunctionsLegacy.SortEigenpairs`: requires a nonzero largest eigenvalue, because the division by zero that numpy turns into `inf`/`nan` is floating-point behaviour.
- Logging, `save_plot`, colour scales, plotting scripts and interactive display: output only.
- Noise, SNR, smoothing and denoising: random and threshold-based. The noise field is a parameter of the hooks that add it, and the noisy-plot amplitude helpers are left out.
- Cache files: `np.load`/`np.save` work on a map from paths to stored arrays, with existence meaning presence in the map. The published data set of the pooch lookup is a second map, given as a parameter; downloading from it is not modelled. File contents are not validated on load, as in the source.
- Configuration: `settings`, `SAVE_MATRICES`, `NCPU` and the `_vars` defaults are parameters.
- `split_arr_into_chunks` and `fill_upper_triangle_of_hermitian_matrix` are not part of this model. They are specified from the behaviour their tests check: chunk lengths differing by at most one, and the Hermitian completion of the lower triangle.
- `parallel_methods` shared-memory helpers, the `Mesh` classes' file reading, Earth, Africa and WMAP data loading, `SlepianIdentity`, the Gaussian kernels and `SlepianAfrica`: I/O, data-backed or trivial constructors outside this core.
- The abstract hooks of `Functions` and `Coefficients` (`_create_annotations`, the plot annotations): annotations are plot decoration and are not modelled. The other hooks' results come in as a `Concrete` value.
- `_convert_colourscale` and `_calc_nearest_grid_point`: colour conversion and a grid search over the sample positions, both outside this core.
- Python's dynamic typing: a `property` object left as an initial value is the `Default` case of a setter argument, and a non-integer rank or order is the `Float` case of a number.
- `Coefficients.Coefficients.constructor`: assumes that the `coefficients` validator, declared with `check_fields=False` on a name that is not a dataclass field, runs when `_create_coefficients`' result is assigned. If pydantic does not run it then, nothing is masked, and the masking clause of this contract and `Coefficients.MaskedIffNamed` do not apply.
- `MeshCoefficients.MeshCoefficients.constructor`: makes the same assumption about the mesh `coefficients` validator. Without it the coefficients are never masked, and the as-written masking finding below has no effect.
- `Coefficients.Coefficients.constructor`, `MeshCoefficients.MeshCoefficients.constructor`: with noise, the subclasses' `_add_noise_to_signal` replaces the coefficients; those subclasses are not part of this model, so the final coefficients are promised only without noise, and the masked ones `_create_coefficients` leaves are kept in a ghost field in either case.
- `EigenMethods.ArgsortUpTo`, `EigenMethods.DescendingOrder`: numpy's default `argsort` does not promise an order for tied eigenvalues; the model keeps tied indices in index order. So the exact row order that `CleanEvalsAndEvecs`, `CleanEvalsAndEvecsLegacy` and both `MeshEigendecomposition`s state is one admissible order when eigenvalues tie; sortedness and the permutation hold for any.
- `AxisymmetricWaveletCoefficientsEarth.AxisymmetricWaveletCoefficientsEarth.New`: the name, spin, reality and noise hooks of the base class are not modelled for this class; only the argument, coefficient and scale steps are.

## Findings

| source | as written | input that shows it | evidently intended | confidence | as-written member | corrected member |
|---|---|---|---|---|---|---|
| src/sleplet/utils/mesh_methods.py:84-89 | the cache file names are built from `eigd_loc.stem`, which drops everything after the last `.` of the name | a mesh named `a.b`: every number of basis functions maps to the same eigenvalue file | the full name, so each number of basis functions has its own files | medium, not executed | `MeshMethods.DottedNameSharesCacheFile` | `MeshMethods.LocationsDistinct` |
| src/sleplet/meshes/harmonic_coefficients/_mesh_basis_functions.py:52-59 | `_validate_rank` refuses only a rank above the number of eigenvalues | a rank equal to the number of eigenvalues passes and then fails with `IndexError` when the name reads that eigenvalue | refuse any rank that is not a valid index, as the sphere version does with `>=` | high, not executed | `MeshBasisFunctions.RankEqualToLimitPasses` | `MeshBasisFunctions.IntendedCheckNeverIndexesOutOfRange` |
| src/sleplet/meshes/mesh_coefficients.py:48-58 | the masking validator looks for `slepian` in `cls.__class__.__name__`, a metaclass name (`type` or `ModelMetaclass`), which never contains it | a `MeshSlepianCoefficients` function on a region is masked | look in the class's own name, as the earlier package does at pys2sleplet/meshes/mesh_coefficients.py:54 | high, not executed | `MeshCoefficients.SlepianMaskedAsWritten` | `MeshCoefficients.CheckCoefficientsSkipsSlepian` |
| slepian_functions.py:127-129 | `filename_angle` reads `self.phi_max_`, an attribute that is never assigned | the region from 0 to 180 degrees of longitude raises `AttributeError`, so no region with `phi_max != 360` can be built | read `self.phi_max` | high, not executed | `SlepianFunctionsLegacy.WesternHemisphereHasNoName` | `SlepianFunctionsLegacy.AngleSuffixRoundTrip` |
| slepian_functions.py:82-90 | `plot(rank)` draws row `rank - 1` of the eigenvector matrix, whose eigenvectors are its columns | the 2 by 2 eigenvector matrix with columns `(1, -1)` and `(1, 1)`: row 0 is `(1, 1)`, not the first eigenvector | draw column `rank - 1` | medium, not executed | `SlepianFunctionsLegacy.RowIsNotTheEigenvector` | `SlepianFunctionsLegacy.PlotDrawsRankedEigenvector` |
| src/sleplet/meshes/mesh_slepian.py:21-73 | the Slepian functions of a mesh are saved in the package data directory `_data_path`, but looked up by `find_on_pooch_then_local` in the published data set and then in the user data directory | any mesh whose binaries are not published: a second `MeshSlepian` over it does not find the saved files and computes them again | save where the lookup searches, the user data directory | medium, not executed | `MeshSlepian.SavedFilesNotFoundAsWritten` | `MeshSlepian.SecondRunLoadsCache` |
