# cmepy CME matrix assembly, in Dafny

This project models the core of cmepy, a Python package that solves the
chemical master equation (CME). A CME describes how a probability
distribution over the states of a truncated domain changes over time.
The model covers two source files:

* `cmepy/cme_matrix.py`. It builds one sparse matrix per reaction. Each
  matrix carries the flux of probability out of every source state and
  into its destination state, or into the optional sink state when the
  destination lies outside the domain. It also assembles these matrices
  into the right-hand side `diff_eqs(t, p)` of `dp/dt`, with optional
  time-dependent coefficients `phi` on subsets of the reactions.
* `cmepy/domain.py`. It converts between collections of states and
  d x n state arrays, whose j-th column is the j-th state.

The model is split into six modules:

* `Results` holds the `Result` and `Option` values.
* `Arrays` holds the numpy array value that both source files use: a
  shape and its elements in row-major order, with `Product` giving the
  element count of a shape.
* `Sparse` represents a sparse matrix as a list of (row, column, value)
  triplets. `Weigh(ts, w)` is the one linear functional: the sum of
  `val * w(row, col)`. A single entry, a column sum and a row of a
  matrix-vector product are all instances of it. The scipy storage
  steps `sum_duplicates`, `eliminate_zeros` and `sort_indices` are
  in-place methods of the class `CsrMatrix`. Each one is specified by a
  function on the entry list.
* `CmeMatrix` models `compute_propensity` and `non_neg_states`. It
  models the body of `gen_reaction_matrices`, one reaction at a time, as
  imperative methods that accumulate coordinate data. Each method is
  proved against the function `ReactionMatrix`. The generator itself is
  a method, specified by the recursive function `Yields` over the outcome
  of each reaction (`Built`).
* `CmeDiffEqs` models `create_diff_eqs`: its validation,
  `sum_reaction_matrices`, the term table and `diff_eqs`. The returned
  closure is represented by its data, `DiffEqs`, and `Apply` evaluates it.
* `Domain` models `from_iter`, `from_mapping`, `to_iter`, and the
  reshape that `from_rect` applies to the result of `indices_ext`.

Reals stand for floats. Dafny's `int` and `nat` stand for numpy integer
arrays.

## Model

| member | source | states |
|---|---|---|
| CmeMatrix.ComputePropensity | cmepy/cme_matrix.py:10-24 | The call succeeds exactly when the propensity returns one value per state or a scalar. A full-length result is returned unchanged. A scalar is broadcast to every state. Any other shape is rejected, and the error reports that shape. |
| CmeMatrix.NonNegativeMeaning | cmepy/cme_matrix.py:44 | The recursive per-state test holds exactly when every coordinate is >= 0. |
| CmeMatrix.NonNegStates | cmepy/cme_matrix.py:37-44 | There is one flag per state, and flag j is true exactly when state j has no negative coordinate. |
| CmeMatrix.NonNegStatesMeaning | cmepy/cme_matrix.py:37-44 | Each state's flag is equivalent to all of its coordinates being non-negative. |
| CmeMatrix.IndexOf | cmepy/cme_matrix.py:125 | `domain_enum.indices` of a state in the domain is its position in the enumeration. |
| CmeMatrix.IndexOfPosition | cmepy/cme_matrix.py:85 | In an enumeration of distinct states, the index of the j-th state is j, so the position range taken for `src_indices` gives the states' own indices. |
| CmeMatrix.Shift | cmepy/cme_matrix.py:97-98 | The destination state is the source plus the offset, broadcast the way numpy broadcasts a (k,1) column against a (d,n) array: coordinate by coordinate when k = d, the one offset added to every coordinate when k = 1, and a one-coordinate state added to each offset when d = 1. |
| CmeMatrix.InteriorSources | cmepy/cme_matrix.py:105-108 | The interior sources are, in increasing order, exactly the states whose destination is in the domain. |
| CmeMatrix.ExteriorSources | cmepy/cme_matrix.py:106-109 | The exterior sources are, in increasing order, exactly the states whose destination is outside the domain. |
| CmeMatrix.SinkSources | cmepy/cme_matrix.py:142-147 | The exterior sources that pass the validity test, in increasing order. |
| CmeMatrix.DestIndices | cmepy/cme_matrix.py:124-125 | For each interior source, the enumeration index of its destination state: the state stored there is the destination. |
| CmeMatrix.AppendFlux | cmepy/cme_matrix.py:129-136 | Appends -a on the diagonals of the sources and +a in the rows of their destinations, all in the source columns. |
| CmeMatrix.InteriorCoordinates | cmepy/cme_matrix.py:121-136 | The accumulated coordinate data is the interior flux of the reaction. A failure of the propensity is returned as that error. |
| CmeMatrix.AppendSinkCoordinates | cmepy/cme_matrix.py:141-165 | Appends the flux of the valid exterior sources into the sink, and nothing when there is no sink, no exterior state or no valid state. A failure of the propensity is returned as that error. |
| CmeMatrix.ReactionCoordinates | cmepy/cme_matrix.py:111-165 | The coordinate data of one reaction is its interior flux followed by its sink flux. |
| CmeMatrix.BuildReactionMatrix | cmepy/cme_matrix.py:87-186 | One loop iteration has these outcomes. An offset that is not 1-D, is empty, or cannot be broadcast against the states raises. Empty data gives an empty matrix of size N, where N is the domain size plus one if there is a sink. Otherwise the result is the optimised CSR matrix of the coordinate data. |
| CmeMatrix.YieldsMeaning | cmepy/cme_matrix.py:87-188 | The i-th yielded matrix is the outcome of step i. The generator stops early only at a step that raises, and it raises that error. |
| CmeMatrix.YieldsOfOutcomes | cmepy/cme_matrix.py:87-188 | The converse: any list of matrices that matches the first steps' outcomes, and that ends at the last step or at a step that raises, is exactly what the generator yields. |
| CmeMatrix.YieldAll | cmepy/cme_matrix.py:87-188 | The loop over the reactions yields exactly what the generator specification gives for the reactions' outcomes. |
| CmeMatrix.GeneratedMeaning | cmepy/cme_matrix.py:71-188 | A non-zero domain offset raises before the first matrix is yielded, and so do unequal numbers of propensities and offset vectors. Otherwise matrix i is the matrix of reaction i, and the generator stops early only at a reaction whose matrix raises, with that error. |
| CmeMatrix.GenReactionMatrices | cmepy/cme_matrix.py:46-189 | Running the generator to the end gives exactly the yielded matrices and the error that ends it. |
| CmeMatrix.ReactionMatrixParts | cmepy/cme_matrix.py:172-186 | A built matrix is square of size N and holds the normalised concatenation of the interior flux and the sink flux. |
| CmeMatrix.FluxPairsColSum | cmepy/cme_matrix.py:129-136 | In every column of a flux list, what leaves the source arrives at its destination, so the column sums to zero. |
| CmeMatrix.ReactionColumnsSumToZero | cmepy/cme_matrix.py:118-165 | Probability is conserved: every column of every reaction matrix sums to zero, with or without the sink. |
| CmeMatrix.InteriorColumn | cmepy/cme_matrix.py:121-136 | The column of the p-th interior source holds -a[p] on the diagonal and +a[p] in its destination's row, where a is that source's propensity, and nothing else. |
| CmeMatrix.SinkColumn | cmepy/cme_matrix.py:141-165 | With a sink, the column of the q-th valid exterior source holds -b[q] on the diagonal and +b[q] in the sink row, and nothing else. |
| CmeMatrix.DroppedColumn | cmepy/cme_matrix.py:138-170 | Every other column is empty. These are the sink's own column, and exterior sources whose flux is dropped because there is no sink or the destination fails the validity test. |
| CmeMatrix.ReactionMatrixShape | cmepy/cme_matrix.py:167-186 | A reaction matrix has shape (N, N), is in canonical CSR storage, and stores nothing outside that shape. |
| Sparse.WeighAppend | cmepy/cme_matrix.py:176-178 | Concatenating coordinate data adds the represented matrices. |
| Sparse.SummedWeigh | cmepy/cme_matrix.py:33 | Summing duplicates leaves the represented matrix unchanged. |
| Sparse.SummedStrictlySorted | cmepy/cme_matrix.py:33 | After summing duplicates, every position is stored at most once. |
| Sparse.NonZeroWeigh | cmepy/cme_matrix.py:34 | Removing explicit zeros leaves the represented matrix unchanged. |
| Sparse.NonZeroProperties | cmepy/cme_matrix.py:34 | After removing zeros, no zero is stored, and the entries that remain keep their order. |
| Sparse.SortedByKeySorts | cmepy/cme_matrix.py:35 | Sorting the indices orders the entries by (row, column). |
| Sparse.SortedByKeyMultiset | cmepy/cme_matrix.py:35 | Sorting the indices permutes the entries. |
| Sparse.NormalisedCanonical | cmepy/cme_matrix.py:33-35 | After the three steps the storage is canonical: strictly sorted by (row, column), with no stored zero. |
| Sparse.NormalisedWeigh | cmepy/cme_matrix.py:26-35 | Optimising never changes the represented matrix. |
| Sparse.NormalisedInShape | cmepy/cme_matrix.py:26-35 | Optimising stores nothing outside the matrix's shape. |
| Sparse.NormalisedIdempotent | cmepy/cme_matrix.py:26-35 | Optimising twice is the same as optimising once. |
| Sparse.CsrMatrix.constructor | cmepy/cme_matrix.py:180-185 | Converting coordinate data keeps the shape and stores the entries as given. |
| Sparse.CsrMatrix.SumDuplicates | cmepy/cme_matrix.py:33 | Works in place: the entries become their summed form, strictly sorted, and the represented matrix and the shape are unchanged. |
| Sparse.CsrMatrix.EliminateZeros | cmepy/cme_matrix.py:34 | Works in place: zeros are dropped, strict order is kept, and the represented matrix and the shape are unchanged. |
| Sparse.CsrMatrix.SortIndices | cmepy/cme_matrix.py:35 | Works in place: the entries are permuted into (row, column) order, and already sorted storage is left alone. |
| Sparse.OptimiseCsrMatrix | cmepy/cme_matrix.py:26-35 | Normalises in place, leaving canonical storage with the same shape and the same represented matrix. |
| CmeDiffEqs.FirstInvalidMeaning | cmepy/cme_matrix.py:223-225 | A subset passes exactly when all of its indices lie in [0, n). Otherwise the error names one of its bad indices. |
| CmeDiffEqs.PhiErrorMeaning | cmepy/cme_matrix.py:218-225 | `phi` passes exactly when every subset is non-empty with valid indices. Otherwise the error is EmptySubset, or InvalidIndex naming a bad index. |
| CmeDiffEqs.ValidateMeaning | cmepy/cme_matrix.py:204-225 | The inputs are accepted exactly when there is at least one matrix, all shapes agree, the shape is 2-D and square, and `phi` passes. |
| CmeDiffEqs.CheckPhi | cmepy/cme_matrix.py:218-225 | The loop over `phi` raises exactly the error of the first failing check. |
| CmeDiffEqs.ConcatWeigh | cmepy/cme_matrix.py:231-232 | Concatenating the chosen matrices represents the sum of the chosen matrices. |
| CmeDiffEqs.SumMatrixMeaning | cmepy/cme_matrix.py:227-234 | The summed matrix has the common shape, is canonical, and every linear functional of it equals the sum of that functional over the chosen matrices. |
| CmeDiffEqs.SumReactionMatrices | cmepy/cme_matrix.py:227-234 | Builds exactly the summed, optimised matrix. |
| CmeDiffEqs.IndexSet | cmepy/cme_matrix.py:237 | `set(xrange(n))` holds exactly 0..n-1. |
| CmeDiffEqs.NamedMeaning | cmepy/cme_matrix.py:238-239 | An index is removed from the constant set exactly when some subset of `phi` names it. |
| CmeDiffEqs.ConstIndicesMeaning | cmepy/cme_matrix.py:237-241 | The constant indices are exactly the reactions in [0, n) that no subset of `phi` names. |
| CmeDiffEqs.Ascending | cmepy/cme_matrix.py:242-243 | Lists exactly the constant indices in [0, n), in strictly increasing order, so each appears once. |
| CmeDiffEqs.DiffEqsOf | cmepy/cme_matrix.py:204-243 | Construction succeeds exactly when validation passes. The resulting closure has the side of the square matrices. |
| CmeDiffEqs.CreateDiffEqs | cmepy/cme_matrix.py:191-256 | The method produces exactly the closure data, or the validation error. |
| CmeDiffEqs.PhiSumValues | cmepy/cme_matrix.py:254 | The time-dependent part of a row is the sum, over the subsets of `phi`, of the summed matrix's row times p, scaled by the coefficient at t. |
| CmeDiffEqs.SumPhiTermsRow | cmepy/cme_matrix.py:254 | Summing the terms keyed by the subsets of `phi` gives that time-dependent part of each row. |
| CmeDiffEqs.RowOfTerms | cmepy/cme_matrix.py:236-254 | A row of the sum over all terms is the time-dependent part plus the constant reactions' rows times p. |
| CmeDiffEqs.ApplyMeaning | cmepy/cme_matrix.py:245-254 | `diff_eqs(t, p)` rejects a p of the wrong length. Otherwise, each row r is the sum, over each subset in `phi`, of its matrices' row r times p, scaled by its coefficient at t, plus the row r times p of the unscaled constant reactions. |
| CmeDiffEqs.ApplyWithoutPhi | cmepy/cme_matrix.py:218-219 | Without `phi`, `diff_eqs(t, p)` is the sum of all reaction matrices times p. |
| CmeDiffEqs.ApplyTimeIndependent | cmepy/cme_matrix.py:199-201 | Without `phi`, `diff_eqs` does not depend on t. |
| Domain.AsArray | cmepy/domain.py:31 | Whatever `numpy.asarray` builds from a list of states is rectangular: every row has the declared width. |
| Domain.Transpose | cmepy/domain.py:31 | Transposing swaps the dimensions of a grid and leaves a vector unchanged: entry (i, j) becomes entry (j, i). |
| Domain.TransposeInvolution | cmepy/domain.py:31 | Transposing twice gives back the original array. |
| Domain.FromIterColumns | cmepy/domain.py:24-36 | Tuples of one common length d give a d x n array whose column j is state j. |
| Domain.FromIterScalars | cmepy/domain.py:35-40 | As written, n scalar states give an n x 1 array. |
| Domain.FromIterIntendedScalars | cmepy/domain.py:35-40 | Corrected, n scalar states give a 1 x n array. |
| Domain.FromIterEmpty | cmepy/domain.py:35-40 | An empty collection is rejected by `numpy.vstack`. |
| Domain.FromIterRejects | cmepy/domain.py:30-33 | An object without `keys` raises AttributeError. A mixed or ragged collection is rejected. |
| Domain.FromIterMappingKeys | cmepy/domain.py:32-33 | On a mapping, only the keys count. |
| Domain.ToIter | cmepy/domain.py:62-70 | Yields one tuple per column, in column order, so tuple j holds the coordinates of column j. A non-empty vector fails on its first state. |
| Domain.ToIterFromIter | cmepy/domain.py:62-69 | `to_iter(from_iter(states))` lists the original tuple states in order. |
| Domain.ToIterFromIterIntended | cmepy/domain.py:62-69 | With the corrected `from_iter`, the round trip also holds for scalar states, which come back as 1-tuples. |
| Domain.FromIterToIter | cmepy/domain.py:24-36 | `from_iter(tuple(to_iter(a)))` gives back every state array with at least one state. |
| Domain.ScalarRoundTripFails | cmepy/domain.py:35-40 | The round trip fails on scalar states: (1, 2) comes back as the single state (1, 2) instead of (1,) and (2,). |
| Domain.FromMappingPairs | cmepy/domain.py:42-60 | `from_mapping` succeeds exactly when the keys form an array. Value i is the i-th value of the mapping and belongs to state i: column i for tuple keys, entry i for integer keys. |
| Domain.FromMappingAgreesWithFromIter | cmepy/domain.py:52-59 | For tuple keys, the state array equals `from_iter` of the mapping. |
| Domain.OffsetInRange | cmepy/domain.py:20-22 | A multi-index within bounds names a stored element. |
| Domain.FromRectShape | cmepy/domain.py:8-22 | The reshape succeeds exactly when the first axis is non-empty. It keeps that axis, flattens the rest into one axis, and keeps the element count. |
| Domain.FromRectElement | cmepy/domain.py:20-22 | The element at (i, k1..km) ends up in row i, at the column numbering (k1..km) in row-major order. |

## Left out

- `validate.model` (cmepy/cme_matrix.py:69) is not part of this model. The model's `Model` value already holds the propensities and offset vectors as sequences.
- `StateEnum` is not part of this model. It is represented by its ordered states, its dimension and its offset, and `contains`/`indices` become membership and position in that sequence. `CmeMatrix.WellFormed` states what the enumeration is assumed to guarantee: distinct states, each of dimension `dim`. Only under it is position the same as index (`CmeMatrix.IndexOfPosition`).
- Propensity functions are opaque functions passed as parameters. Any shape they return is allowed, so the error path of `compute_propensity` is reachable.
- CmeMatrix.ReactionMatrix: the validity test is modelled per state, as `valid: State -> bool`, which always answers. The source calls `validity_test` once on the whole array of exterior destination states and uses its result as a boolean mask (cmepy/cme_matrix.py:142-147). A mask of the wrong length or type, a mask where one state's answer depends on other states, and the indexing error such a mask raises are not modelled.
- Floating point is modelled by exact reals. Rounding in sums and products, NaN and infinity are left out.
- scipy's storage internals (index pointer arrays, dtype) are not modelled. A matrix is its shape plus its list of stored entries, and the scipy methods are specified by what they promise about that list.
- CmeDiffEqs.Apply: `diff_eqs` returns a closure; it is modelled as data (`DiffEqs`) plus an evaluation function, and the ODE integration that calls it is left out.
- CmeDiffEqs.PhiTerms: the returned `diff_eqs` closure reads the caller's `phi` dictionary each time it is called (`s in phi` and `phi[s](t)`, cmepy/cme_matrix.py:254). The model captures the coefficient functions in `phi` once, when `create_diff_eqs` runs, so mutating `phi` afterwards does not change the model's results, while it changes the source's.
- CmeDiffEqs.DiffEqsOf: Python dict and set iteration order is taken as given. `phi` is a sequence in its iteration order, and the constant subset is listed in ascending order. The sum in `diff_eqs` does not depend on that order over the reals.
- Generator laziness is not modelled. `GenReactionMatrices` runs the generator to the end, and a consumer that stops early sees a prefix of its result.
- Integer width: numpy's fixed-width integers are unbounded here, and overflow in `src_states + offset_vector` is left out.
- Domain.FromRect: `cmepy.util.indices_ext` is not part of this model. `FromRect` takes its result as an abstract n-dimensional array, and models only the reshape.
- Domain.AsArray: ragged or mixed input is rejected. The source is Python 2 code (`itertools.izip`, `xrange`) and uses `numpy.int`, so it runs only against old numpy releases, where ragged keys become an object array and `from_mapping` returns that array without an error. The model does not return such an array; it reports an error instead.
- Domain.FromIter: the argument is one of the kinds it distinguishes (tuple, set, object with `keys`, anything else). Duck-typed objects whose `keys` returns other shapes are left out.
- `rank_approx.py`, the tests and the example models are context, and are not modelled.

## Findings

| source | as written | input that shows it | evidently intended | confidence | as-written member | corrected member |
|---|---|---|---|---|---|---|
| cmepy/domain.py:35-40 | For scalar states, `numpy.vstack` of the 1-D transposed array gives an n x 1 array, that is one state of n coordinates, so `to_iter` gives back a single n-tuple. | `from_iter((1, 2))` gives `[[1], [2]]`, and `to_iter` of that yields `(1, 2)` instead of `(1,)` and `(2,)`. | Inferred, not evident: a 1 x n array of n one-dimensional states. That is the d x n layout used everywhere else (the number of states is read from the second axis at cmepy/cme_matrix.py:15 and `to_iter` takes one state per column at cmepy/domain.py:68). It goes against the comment at cmepy/domain.py:38-39, which asks for a column vector for the downstream code, and nothing in the files modelled calls `from_iter`. | low, not executed | Domain.ScalarRoundTripFails | Domain.ToIterFromIterIntended |
