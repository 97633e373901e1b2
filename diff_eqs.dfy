/**
 * The right-hand side dp/dt of the Chemical Master Equation assembled from
 * the reaction matrices: `create_diff_eqs` with its inner
 * `sum_reaction_matrices` and the returned `diff_eqs` closure.
 */
module CmeDiffEqs {
  import opened Results
  import opened Sparse
  import CmeMatrix

  /** The exceptions raised, all of them Python `ValueError`s. */
  datatype Error =
    | NoMatrices
    | ShapesDisagree
    | NotTwoDimensional
    | NotSquare
    | EmptySubset
    | InvalidIndex(index: int)
    | DimensionMismatch  // raised by scipy when p does not match the matrices

  /**
   * One key of `phi` with its value: a subset of reaction indices and the
   * time-dependent coefficient that scales their summed matrix.
   */
  datatype PhiEntry = PhiEntry(subset: seq<int>, coeff: real -> real)

  /** One entry of the `term` dictionary; `scale` is present when its key is a key of `phi`. */
  datatype Term = Term(matrix: Matrix, scale: Option<real -> real>)

  /** The returned `diff_eqs` closure: the side of the square matrices and the terms it sums. */
  datatype DiffEqs = DiffEqs(size: nat, terms: seq<Term>)

  // ---------------------------------------------------------------------------
  // Validation

  /** The first failing check on the reaction matrices themselves, if any. */
  function ShapeError(mats: seq<Matrix>): Option<Error> {
    if |mats| == 0 then Some(NoMatrices)
    else if exists i :: 0 <= i < |mats| && mats[i].shape != mats[0].shape then Some(ShapesDisagree)
    else if |mats[0].shape| != 2 then Some(NotTwoDimensional)
    else if mats[0].shape[0] != mats[0].shape[1] then Some(NotSquare)
    else None
  }

  /** The first index of `subset` outside [0, n), reported as an error. */
  function FirstInvalid(subset: seq<int>, n: nat): Option<Error> {
    if subset == [] then None
    else if !(0 <= subset[0] < n) then Some(InvalidIndex(subset[0]))
    else FirstInvalid(subset[1..], n)
  }

  /** The first failing check on the subsets of `phi`, in iteration order. */
  function PhiError(phi: seq<PhiEntry>, n: nat): Option<Error> {
    if phi == [] then None
    else if |phi[0].subset| == 0 then Some(EmptySubset)
    else if FirstInvalid(phi[0].subset, n).Some? then FirstInvalid(phi[0].subset, n)
    else PhiError(phi[1..], n)
  }

  function Validate(mats: seq<Matrix>, phi: seq<PhiEntry>): Option<Error> {
    if ShapeError(mats).Some? then ShapeError(mats) else PhiError(phi, |mats|)
  }

  /** Every index of every subset of `phi` names one of n reaction matrices. */
  predicate IndicesValid(phi: seq<PhiEntry>, n: nat) {
    forall k, q :: 0 <= k < |phi| && 0 <= q < |phi[k].subset| ==> 0 <= phi[k].subset[q] < n
  }

  lemma {:induction false} FirstInvalidMeaning(subset: seq<int>, n: nat)
    ensures FirstInvalid(subset, n).None? <==> forall i :: i in subset ==> 0 <= i < n
    ensures FirstInvalid(subset, n).Some? ==>
      exists i :: i in subset && !(0 <= i < n) && FirstInvalid(subset, n) == Some(InvalidIndex(i))
  {
    if subset != [] {
      FirstInvalidMeaning(subset[1..], n);
      assert subset[0] in subset;
      assert forall i :: i in subset <==> i == subset[0] || i in subset[1..];
    }
  }

  lemma {:induction false} PhiErrorMeaning(phi: seq<PhiEntry>, n: nat)
    ensures PhiError(phi, n).None? <==> (forall k :: 0 <= k < |phi| ==> |phi[k].subset| > 0) && IndicesValid(phi, n)
    ensures PhiError(phi, n).Some? ==>
      PhiError(phi, n) == Some(EmptySubset) ||
      exists k, i :: 0 <= k < |phi| && i in phi[k].subset && !(0 <= i < n) && PhiError(phi, n) == Some(InvalidIndex(i))
  {
    if phi != [] {
      PhiErrorMeaning(phi[1..], n);
      FirstInvalidMeaning(phi[0].subset, n);
      assert forall k :: 1 <= k < |phi| ==> phi[k] == phi[1..][k - 1];
      assert forall q :: 0 <= q < |phi[0].subset| ==> phi[0].subset[q] in phi[0].subset;
      if PhiError(phi, n).Some? && PhiError(phi, n) != Some(EmptySubset) && FirstInvalid(phi[0].subset, n).None? {
        var k, i :| 0 <= k < |phi[1..]| && i in phi[1..][k].subset && !(0 <= i < n)
          && PhiError(phi[1..], n) == Some(InvalidIndex(i));
        assert i in phi[k + 1].subset;
      }
    }
  }

  /** `create_diff_eqs` accepts exactly the well-formed inputs, and names a bad index it rejects. */
  lemma ValidateMeaning(mats: seq<Matrix>, phi: seq<PhiEntry>)
    ensures Validate(mats, phi).None? <==>
      && |mats| > 0
      && (forall i :: 0 <= i < |mats| ==> mats[i].shape == mats[0].shape)
      && |mats[0].shape| == 2 && mats[0].shape[0] == mats[0].shape[1]
      && (forall k :: 0 <= k < |phi| ==> |phi[k].subset| > 0)
      && IndicesValid(phi, |mats|)
    ensures (exists i :: Validate(mats, phi) == Some(InvalidIndex(i))) ==>
      exists k, i :: 0 <= k < |phi| && i in phi[k].subset && !(0 <= i < |mats|)
  {
    PhiErrorMeaning(phi, |mats|);
  }

  // ---------------------------------------------------------------------------
  // sum_reaction_matrices

  /** The stored entries of the chosen matrices, one after the other. */
  function Concat(mats: seq<Matrix>, idx: seq<int>): seq<Triplet>
    requires forall k :: 0 <= k < |idx| ==> 0 <= idx[k] < |mats|
  {
    if idx == [] then [] else Concat(mats, idx[..|idx| - 1]) + mats[idx[|idx| - 1]].entries
  }

  /** The sum, over the chosen matrices, of what `w` weighs in each. */
  function TotalWeigh(mats: seq<Matrix>, idx: seq<int>, w: (nat, nat) -> real): real
    requires forall k :: 0 <= k < |idx| ==> 0 <= idx[k] < |mats|
  {
    if idx == [] then 0.0 else TotalWeigh(mats, idx[..|idx| - 1], w) + Weigh(mats[idx[|idx| - 1]].entries, w)
  }

  lemma {:induction false} ConcatWeigh(mats: seq<Matrix>, idx: seq<int>, w: (nat, nat) -> real)
    requires forall k :: 0 <= k < |idx| ==> 0 <= idx[k] < |mats|
    ensures Weigh(Concat(mats, idx), w) == TotalWeigh(mats, idx, w)
  {
    if idx != [] {
      ConcatWeigh(mats, idx[..|idx| - 1], w);
      WeighAppend(Concat(mats, idx[..|idx| - 1]), mats[idx[|idx| - 1]].entries, w);
    }
  }

  /** The optimised sum of the chosen matrices, starting from the zero matrix of `shape`. */
  function SumMatrix(mats: seq<Matrix>, idx: seq<int>, shape: seq<nat>): Matrix
    requires forall k :: 0 <= k < |idx| ==> 0 <= idx[k] < |mats|
  {
    Matrix(shape, Normalised(Concat(mats, idx)))
  }

  /**
   * The summed matrix is canonical and represents the sum of the chosen
   * matrices: every linear functional of it (an entry, a column sum, a row of
   * a matrix-vector product) is the sum of its values on the summands.
   */
  lemma SumMatrixMeaning(mats: seq<Matrix>, idx: seq<int>, shape: seq<nat>, w: (nat, nat) -> real)
    requires forall k :: 0 <= k < |idx| ==> 0 <= idx[k] < |mats|
    ensures SumMatrix(mats, idx, shape).shape == shape
    ensures Canonical(SumMatrix(mats, idx, shape).entries)
    ensures Weigh(SumMatrix(mats, idx, shape).entries, w) == TotalWeigh(mats, idx, w)
  {
    NormalisedCanonical(Concat(mats, idx));
    SumMatrixWeigh(mats, idx, shape, w);
  }

  lemma SumMatrixWeigh(mats: seq<Matrix>, idx: seq<int>, shape: seq<nat>, w: (nat, nat) -> real)
    requires forall k :: 0 <= k < |idx| ==> 0 <= idx[k] < |mats|
    ensures Weigh(SumMatrix(mats, idx, shape).entries, w) == TotalWeigh(mats, idx, w)
  {
    NormalisedWeigh(Concat(mats, idx), w);
    ConcatWeigh(mats, idx, w);
  }

  /**
   * `sum_reaction_matrices`: adds the chosen matrices onto the zero matrix,
   * then optimises the sum in place.
   */
  method SumReactionMatrices(mats: seq<Matrix>, idx: seq<int>, shape: seq<nat>) returns (m: Matrix)
    requires forall k :: 0 <= k < |idx| ==> 0 <= idx[k] < |mats|
    ensures m == SumMatrix(mats, idx, shape)
  {
    var acc: seq<Triplet> := [];
    var k := 0;
    while k < |idx|
      invariant 0 <= k <= |idx| && acc == Concat(mats, idx[..k])
    {
      assert idx[..k + 1][..k] == idx[..k];
      acc := acc + mats[idx[k]].entries;
      k := k + 1;
    }
    assert idx[..k] == idx;
    var sum := new CsrMatrix(shape, acc);
    OptimiseCsrMatrix(sum);
    return sum.Value();
  }

  // ---------------------------------------------------------------------------
  // The terms of dp/dt

  /** The reaction indices 0, ..., n - 1: `set(xrange(n))`. */
  function IndexSet(n: nat): (s: set<int>)
    ensures forall i :: i in s <==> 0 <= i < n
  {
    set i: int | i in CmeMatrix.Range(n)
  }

  /** The indices a subset names: `set(subset)`. */
  function Elements(subset: seq<int>): set<int> {
    set i | i in subset
  }

  /** Every index that some subset of `phi` names. */
  function Named(phi: seq<PhiEntry>): set<int> {
    if phi == [] then {} else Named(phi[..|phi| - 1]) + Elements(phi[|phi| - 1].subset)
  }

  lemma {:induction false} NamedMeaning(phi: seq<PhiEntry>)
    ensures forall i :: i in Named(phi) <==> exists k :: 0 <= k < |phi| && i in phi[k].subset
  {
    if phi != [] {
      var init := phi[..|phi| - 1];
      NamedMeaning(init);
      assert forall k :: 0 <= k < |init| ==> init[k] == phi[k];
    }
  }

  /** The constant term's key: the reaction indices that no subset of `phi` names. */
  function ConstIndices(n: nat, phi: seq<PhiEntry>): set<int> {
    IndexSet(n) - Named(phi)
  }

  /** A reaction index is constant exactly when it is in range and in no subset of `phi`. */
  lemma ConstIndicesMeaning(n: nat, phi: seq<PhiEntry>)
    ensures forall i :: i in ConstIndices(n, phi) <==>
      0 <= i < n && forall k :: 0 <= k < |phi| ==> i !in phi[k].subset
  {
    NamedMeaning(phi);
  }

  /** A set of reaction indices below n, in ascending order. */
  function Ascending(n: nat, s: set<int>): (r: seq<int>)
    ensures forall i :: i in r <==> 0 <= i < n && i in s
    ensures forall k :: 0 <= k < |r| ==> 0 <= r[k] < n
    ensures forall j, k :: 0 <= j < k < |r| ==> r[j] < r[k]
  {
    var r := CmeMatrix.Filter(CmeMatrix.Range(n), (i: nat) => i in s);
    assert forall k :: 0 <= k < |r| ==> r[k] in r;
    r
  }

  /** One term per subset of `phi`, in iteration order, each scaled by its coefficient. */
  function PhiTerms(mats: seq<Matrix>, phi: seq<PhiEntry>, shape: seq<nat>): seq<Term>
    requires IndicesValid(phi, |mats|)
  {
    seq(|phi|, k requires 0 <= k < |phi| =>
      Term(SumMatrix(mats, phi[k].subset, shape), Some(phi[k].coeff)))
  }

  /** The constant term, present only when some reaction index is in no subset of `phi`. */
  function ConstTerms(mats: seq<Matrix>, phi: seq<PhiEntry>, shape: seq<nat>): seq<Term> {
    var c := ConstIndices(|mats|, phi);
    if c == {} then [] else [Term(SumMatrix(mats, Ascending(|mats|, c), shape), None)]
  }

  /** What `create_diff_eqs` returns for the given matrices and `phi`, or the exception it raises. */
  function DiffEqsOf(mats: seq<Matrix>, phi: seq<PhiEntry>): (r: Result<DiffEqs, Error>)
    ensures r.Ok? <==> Validate(mats, phi).None?
    ensures r.Ok? ==>
      && |mats| > 0 && |mats[0].shape| == 2
      && r.value.size == mats[0].shape[0] == mats[0].shape[1]
      && IndicesValid(phi, |mats|)
  {
    ValidateMeaning(mats, phi);
    match Validate(mats, phi)
    case Some(x) => Err(x)
    case None =>
      var shape := mats[0].shape;
      Ok(DiffEqs(shape[0], PhiTerms(mats, phi, shape) + ConstTerms(mats, phi, shape)))
  }

  /** Checks the subsets of `phi` in order, and each subset's indices in order. */
  method CheckPhi(phi: seq<PhiEntry>, n: nat) returns (err: Option<Error>)
    ensures err == PhiError(phi, n)
  {
    var j := 0;
    while j < |phi|
      invariant 0 <= j <= |phi| && PhiError(phi, n) == PhiError(phi[j..], n)
    {
      assert phi[j..][1..] == phi[j + 1..];
      var subset := phi[j].subset;
      if |subset| == 0 {
        return Some(EmptySubset);
      }
      var q := 0;
      while q < |subset|
        invariant 0 <= q <= |subset| && FirstInvalid(subset, n) == FirstInvalid(subset[q..], n)
      {
        assert subset[q..][1..] == subset[q + 1..];
        if !(0 <= subset[q] < n) {
          return Some(InvalidIndex(subset[q]));
        }
        q := q + 1;
      }
      assert subset[q..] == [];
      j := j + 1;
    }
    assert phi[j..] == [];
    return None;
  }

  /**
   * `create_diff_eqs`: validates the matrices and `phi`, then builds one term
   * per subset of `phi`, removing its indices from the constant indices, and
   * finally the constant term if any index is left.
   */
  method CreateDiffEqs(mats: seq<Matrix>, phi: seq<PhiEntry>) returns (result: Result<DiffEqs, Error>)
    ensures result == DiffEqsOf(mats, phi)
  {
    var n := |mats|;
    if n == 0 {
      return Err(NoMatrices);
    }
    var shape := mats[0].shape;
    var k := 0;
    while k < n
      invariant 0 <= k <= n && forall i :: 0 <= i < k ==> mats[i].shape == shape
    {
      if mats[k].shape != shape {
        return Err(ShapesDisagree);
      }
      k := k + 1;
    }
    if |shape| != 2 {
      return Err(NotTwoDimensional);
    }
    if shape[0] != shape[1] {
      return Err(NotSquare);
    }
    var err := CheckPhi(phi, n);
    if err.Some? {
      return Err(err.value);
    }
    ValidateMeaning(mats, phi);
    assert Validate(mats, phi) == None;
    var terms: seq<Term> := [];
    var constIndices := IndexSet(n);
    var j := 0;
    while j < |phi|
      invariant 0 <= j <= |phi|
      invariant terms == PhiTerms(mats, phi[..j], shape)
      invariant constIndices == ConstIndices(n, phi[..j])
    {
      assert phi[..j + 1][..j] == phi[..j];
      constIndices := constIndices - Elements(phi[j].subset);
      var m := SumReactionMatrices(mats, phi[j].subset, shape);
      terms := terms + [Term(m, Some(phi[j].coeff))];
      j := j + 1;
    }
    assert phi[..j] == phi;
    assert terms == PhiTerms(mats, phi, shape);
    assert constIndices == ConstIndices(n, phi);
    ghost var spec := DiffEqs(shape[0], PhiTerms(mats, phi, shape) + ConstTerms(mats, phi, shape));
    assert DiffEqsOf(mats, phi) == Ok(spec);
    if constIndices != {} {
      var m := SumReactionMatrices(mats, Ascending(n, constIndices), shape);
      terms := terms + [Term(m, None)];
    }
    assert terms == spec.terms;
    return Ok(DiffEqs(shape[0], terms));
  }

  // ---------------------------------------------------------------------------
  // diff_eqs(t, p)

  /** Weighs the entries of row r by the matching coordinates of p. */
  function RowWeight(r: nat, p: seq<real>): (nat, nat) -> real {
    (i: nat, j: nat) => if i == r && j < |p| then p[j] else 0.0
  }

  /** The product of an n-row sparse matrix and the vector p. */
  function MatVec(m: Matrix, n: nat, p: seq<real>): (q: seq<real>)
    ensures |q| == n
  {
    seq(n, r requires 0 <= r < n => Weigh(m.entries, RowWeight(r, p)))
  }

  function Scale(q: seq<real>, x: real): (r: seq<real>)
    ensures |r| == |q| && forall i :: 0 <= i < |q| ==> r[i] == q[i] * x
  {
    seq(|q|, i requires 0 <= i < |q| => q[i] * x)
  }

  function Add(a: seq<real>, b: seq<real>): (r: seq<real>)
    requires |a| == |b|
    ensures |r| == |a| && forall i :: 0 <= i < |a| ==> r[i] == a[i] + b[i]
  {
    seq(|a|, i requires 0 <= i < |a| => a[i] + b[i])
  }

  /** One term's contribution at time t: its matrix times p, times phi[s](t) when scaled. */
  function TermValue(term: Term, n: nat, t: real, p: seq<real>): (q: seq<real>)
    ensures |q| == n
  {
    match term.scale
    case None => MatVec(term.matrix, n, p)
    case Some(f) => Scale(MatVec(term.matrix, n, p), f(t))
  }

  /** The zero vector of length n. */
  function Zeros(n: nat): (z: seq<real>)
    ensures |z| == n && forall i :: 0 <= i < n ==> z[i] == 0.0
  {
    if n == 0 then [] else Zeros(n - 1) + [0.0]
  }

  function SumTerms(terms: seq<Term>, n: nat, t: real, p: seq<real>): (q: seq<real>)
    ensures |q| == n
  {
    if terms == [] then Zeros(n)
    else Add(SumTerms(terms[..|terms| - 1], n, t, p), TermValue(terms[|terms| - 1], n, t, p))
  }

  /** `diff_eqs(t, p)`: dp/dt, or scipy's error when p does not fit the matrices. */
  function Apply(d: DiffEqs, t: real, p: seq<real>): Result<seq<real>, Error> {
    if |p| != d.size then Err(DimensionMismatch) else Ok(SumTerms(d.terms, d.size, t, p))
  }

  // ---------------------------------------------------------------------------
  // What diff_eqs computes

  /** The time-dependent part of row r of dp/dt: each subset's summed row, times its coefficient at t. */
  function PhiSum(mats: seq<Matrix>, phi: seq<PhiEntry>, t: real, w: (nat, nat) -> real): real
    requires IndicesValid(phi, |mats|)
  {
    if phi == [] then 0.0
    else
      var last := phi[|phi| - 1];
      PhiSum(mats, phi[..|phi| - 1], t, w) + TotalWeigh(mats, last.subset, w) * last.coeff(t)
  }

  /** A scaled term's value in row r is its matrix's row r times p, times its coefficient at t. */
  lemma ScaledTermRow(term: Term, f: real -> real, n: nat, t: real, p: seq<real>, r: nat, x: real)
    requires r < n && term.scale == Some(f) && Weigh(term.matrix.entries, RowWeight(r, p)) == x
    ensures TermValue(term, n, t, p)[r] == x * f(t)
  {
  }

  /** An unscaled term's value in row r is its matrix's row r times p. */
  lemma PlainTermRow(term: Term, n: nat, t: real, p: seq<real>, r: nat, x: real)
    requires r < n && term.scale == None && Weigh(term.matrix.entries, RowWeight(r, p)) == x
    ensures TermValue(term, n, t, p)[r] == x
  {
  }

  lemma SumTermsLast(terms: seq<Term>, n: nat, t: real, p: seq<real>, r: nat)
    requires terms != [] && r < n
    ensures SumTerms(terms, n, t, p)[r] ==
      SumTerms(terms[..|terms| - 1], n, t, p)[r] + TermValue(terms[|terms| - 1], n, t, p)[r]
  {
  }

  /** The term of phi[k] is scaled by its coefficient and weighs what its subset's matrices weigh. */
  lemma PhiTermWeigh(mats: seq<Matrix>, phi: seq<PhiEntry>, shape: seq<nat>, k: nat, w: (nat, nat) -> real)
    requires IndicesValid(phi, |mats|) && k < |phi|
    ensures PhiTerms(mats, phi, shape)[k].scale == Some(phi[k].coeff)
    ensures Weigh(PhiTerms(mats, phi, shape)[k].matrix.entries, w) == TotalWeigh(mats, phi[k].subset, w)
  {
    assert PhiTerms(mats, phi, shape)[k].matrix == SumMatrix(mats, phi[k].subset, shape);
    SumMatrixWeigh(mats, phi[k].subset, shape, w);
  }

  /** Row r of the term of phi[k] is the k-th of the phi values of row r. */
  lemma PhiTermValue(mats: seq<Matrix>, phi: seq<PhiEntry>, shape: seq<nat>, k: nat,
                     n: nat, t: real, p: seq<real>, r: nat)
    requires IndicesValid(phi, |mats|) && k < |phi| && r < n
    ensures TermValue(PhiTerms(mats, phi, shape)[k], n, t, p)[r] == PhiValues(mats, phi, t, RowWeight(r, p))[k]
  {
    var term := PhiTerms(mats, phi, shape)[k];
    var x := TotalWeigh(mats, phi[k].subset, RowWeight(r, p));
    PhiTermWeigh(mats, phi, shape, k, RowWeight(r, p));
    ScaledTermRow(term, phi[k].coeff, n, t, p, r, x);
    assert PhiValues(mats, phi, t, RowWeight(r, p))[k] == x * phi[k].coeff(t);
  }

  function SumReals(xs: seq<real>): real {
    if xs == [] then 0.0 else SumReals(xs[..|xs| - 1]) + xs[|xs| - 1]
  }

  /** Each subset's summed rows weighed by w, times its coefficient at t. */
  function PhiValues(mats: seq<Matrix>, phi: seq<PhiEntry>, t: real, w: (nat, nat) -> real): (v: seq<real>)
    requires IndicesValid(phi, |mats|)
    ensures |v| == |phi|
  {
    seq(|phi|, k requires 0 <= k < |phi| => TotalWeigh(mats, phi[k].subset, w) * phi[k].coeff(t))
  }

  lemma {:induction false} PhiSumValues(mats: seq<Matrix>, phi: seq<PhiEntry>, t: real, w: (nat, nat) -> real)
    requires IndicesValid(phi, |mats|)
    ensures PhiSum(mats, phi, t, w) == SumReals(PhiValues(mats, phi, t, w))
  {
    if phi != [] {
      var init := phi[..|phi| - 1];
      var v := PhiValues(mats, phi, t, w);
      assert forall k :: 0 <= k < |init| ==> init[k] == phi[k];
      assert forall k :: 0 <= k < |init| ==> v[..|phi| - 1][k] == PhiValues(mats, init, t, w)[k];
      assert v[..|phi| - 1] == PhiValues(mats, init, t, w);
      PhiSumValues(mats, init, t, w);
    }
  }

  /** Row r of a sum of terms is the sum of the terms' rows. */
  lemma {:induction false} SumTermsRow(terms: seq<Term>, n: nat, t: real, p: seq<real>, r: nat, v: seq<real>)
    requires r < n && |v| == |terms|
    requires forall k :: 0 <= k < |terms| ==> TermValue(terms[k], n, t, p)[r] == v[k]
    ensures SumTerms(terms, n, t, p)[r] == SumReals(v)
  {
    if terms != [] {
      SumTermsRow(terms[..|terms| - 1], n, t, p, r, v[..|v| - 1]);
      SumTermsLast(terms, n, t, p, r);
    }
  }

  /** Row r of the time-dependent terms is PhiSum of row r. */
  lemma SumPhiTermsRow(mats: seq<Matrix>, phi: seq<PhiEntry>, shape: seq<nat>,
                       n: nat, t: real, p: seq<real>, r: nat)
    requires IndicesValid(phi, |mats|) && r < n
    ensures SumTerms(PhiTerms(mats, phi, shape), n, t, p)[r] == PhiSum(mats, phi, t, RowWeight(r, p))
  {
    var v := PhiValues(mats, phi, t, RowWeight(r, p));
    forall k | 0 <= k < |phi|
      ensures TermValue(PhiTerms(mats, phi, shape)[k], n, t, p)[r] == v[k]
    {
      PhiTermValue(mats, phi, shape, k, n, t, p, r);
    }
    SumTermsRow(PhiTerms(mats, phi, shape), n, t, p, r, v);
    PhiSumValues(mats, phi, t, RowWeight(r, p));
  }

  /**
   * Row r of `diff_eqs(t, p)`: the sum over the subsets of `phi` of their
   * summed rows times p scaled by their coefficient at t, plus the summed rows
   * of the constant reactions times p; p of the wrong length is an error.
   */
  lemma ApplyMeaning(mats: seq<Matrix>, phi: seq<PhiEntry>, d: DiffEqs, t: real, p: seq<real>)
    requires DiffEqsOf(mats, phi) == Ok(d)
    ensures d.size == mats[0].shape[0] == mats[0].shape[1]
    ensures |p| != d.size ==> Apply(d, t, p) == Err(DimensionMismatch)
    ensures |p| == d.size ==>
      && Apply(d, t, p).Ok? && |Apply(d, t, p).value| == d.size
      && forall r :: 0 <= r < d.size ==>
           Apply(d, t, p).value[r] ==
             PhiSum(mats, phi, t, RowWeight(r, p))
             + TotalWeigh(mats, Ascending(|mats|, ConstIndices(|mats|, phi)), RowWeight(r, p))
  {
    var shape := mats[0].shape;
    var n := d.size;
    if |p| == n {
      var c := ConstIndices(|mats|, phi);
      var pt := PhiTerms(mats, phi, shape);
      var ct := ConstTerms(mats, phi, shape);
      assert d.terms == pt + ct;
      forall r | 0 <= r < n
        ensures SumTerms(d.terms, n, t, p)[r] ==
          PhiSum(mats, phi, t, RowWeight(r, p)) + TotalWeigh(mats, Ascending(|mats|, c), RowWeight(r, p))
      {
        RowOfTerms(mats, phi, shape, n, t, p, r);
      }
    }
  }

  /** The row of the phi terms followed by the constant term. */
  lemma RowOfTerms(mats: seq<Matrix>, phi: seq<PhiEntry>, shape: seq<nat>, n: nat, t: real, p: seq<real>, r: nat)
    requires IndicesValid(phi, |mats|) && r < n
    ensures SumTerms(PhiTerms(mats, phi, shape) + ConstTerms(mats, phi, shape), n, t, p)[r] ==
      PhiSum(mats, phi, t, RowWeight(r, p))
      + TotalWeigh(mats, Ascending(|mats|, ConstIndices(|mats|, phi)), RowWeight(r, p))
  {
    var c := ConstIndices(|mats|, phi);
    var pt := PhiTerms(mats, phi, shape);
    var ct := ConstTerms(mats, phi, shape);
    SumPhiTermsRow(mats, phi, shape, n, t, p, r);
    if c == {} {
      assert pt + ct == pt;
      var none := Ascending(|mats|, c);
      assert forall k :: 0 <= k < |none| ==> none[k] in none;
    } else {
      var all := pt + ct;
      assert all[..|all| - 1] == pt;
      SumTermsLast(all, n, t, p, r);
      SumMatrixWeigh(mats, Ascending(|mats|, c), shape, RowWeight(r, p));
      PlainTermRow(ct[0], n, t, p, r, TotalWeigh(mats, Ascending(|mats|, c), RowWeight(r, p)));
    }
  }

  /** Boolean-mask selection that keeps everything is the identity. */
  lemma {:induction false} FilterKeepsAll(xs: seq<nat>, keep: nat -> bool)
    requires forall x :: x in xs ==> keep(x)
    ensures CmeMatrix.Filter(xs, keep) == xs
  {
    if xs != [] {
      assert xs[0] in xs;
      FilterKeepsAll(xs[1..], keep);
      assert [xs[0]] + xs[1..] == xs;
    }
  }

  /**
   * Without `phi`, `diff_eqs(t, p)` is the sum of all reaction matrices
   * times p, whatever t is.
   */
  lemma ApplyWithoutPhi(mats: seq<Matrix>, d: DiffEqs, t: real, p: seq<real>)
    requires DiffEqsOf(mats, []) == Ok(d) && |p| == d.size
    ensures Apply(d, t, p).Ok? && |Apply(d, t, p).value| == d.size
    ensures forall r :: 0 <= r < d.size ==>
      Apply(d, t, p).value[r] == TotalWeigh(mats, CmeMatrix.Range(|mats|), RowWeight(r, p))
  {
    ApplyMeaning(mats, [], d, t, p);
    var n := |mats|;
    assert ConstIndices(n, []) == IndexSet(n);
    FilterKeepsAll(CmeMatrix.Range(n), (i: nat) => i in IndexSet(n));
    assert Ascending(n, IndexSet(n)) == CmeMatrix.Range(n);
  }

  /** Without `phi` the returned equations are time independent. */
  lemma ApplyTimeIndependent(mats: seq<Matrix>, d: DiffEqs, t1: real, t2: real, p: seq<real>)
    requires DiffEqsOf(mats, []) == Ok(d)
    ensures Apply(d, t1, p) == Apply(d, t2, p)
  {
    if |p| == d.size {
      ApplyWithoutPhi(mats, d, t1, p);
      ApplyWithoutPhi(mats, d, t2, p);
      var a, b := Apply(d, t1, p).value, Apply(d, t2, p).value;
      assert forall r :: 0 <= r < |a| ==> a[r] == b[r];
      assert a == b;
    }
  }
}
