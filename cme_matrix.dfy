/**
 * The per-reaction generator matrices of the Chemical Master Equation over a
 * truncated state domain: `compute_propensity`, `non_neg_states` and
 * `gen_reaction_matrices` of cmepy's matrix builder.
 */
module CmeMatrix {
  import opened Results
  import opened Sparse
  import opened Arrays

  /** A state of the reaction network: one copy number per species. */
  type State = seq<int>

  /** A numpy array of reals whose element count agrees with its shape. */
  type NumArray = a: NdArray<real> | Sized(a) witness NdArray([], [0.0])

  /** A propensity function, evaluated once over a whole array of states (vectorised). */
  type Propensity = seq<State> -> NumArray

  /** An offset vector argument: a 1-D integer vector, or an array of any other rank. */
  datatype OffsetArg = Vector(coords: seq<int>) | NotOneDimensional

  /** The two fields of a reaction model that the builder reads. */
  datatype Model = Model(propensities: seq<Propensity>, offsetVectors: seq<OffsetArg>)

  /** The exceptions the builder raises, with the Python class named in each comment. */
  datatype Error =
    | BadPropensityShape(shape: seq<nat>)  // ValueError
    | DomainOffsetUnsupported              // NotImplementedError
    | ReactionCountMismatch                // ValueError
    | OffsetNotOneDimensional              // TypeError
    | OffsetEmpty                          // ValueError
    | OffsetNotBroadcastable               // ValueError, raised by numpy's broadcasting

  /**
   * Evaluates `prop` over `states`: a result of one value per state is kept,
   * a scalar is broadcast to every state, any other shape is an error.
   */
  function ComputePropensity(prop: Propensity, states: seq<State>): (r: Result<seq<real>, Error>)
    ensures r.Ok? <==> prop(states).shape == [|states|] || prop(states).shape == []
    ensures r.Ok? ==> |r.value| == |states|
    ensures prop(states).shape == [|states|] ==> r == Ok(prop(states).flat)
    ensures prop(states).shape == [] ==> forall k :: 0 <= k < |states| ==> r.value[k] == prop(states).flat[0]
    ensures r.Err? ==> r.error == BadPropensityShape(prop(states).shape)
  {
    var nu := prop(states);
    assert nu.shape == [|states|] ==> Product(nu.shape) == |states| by {
      if nu.shape == [|states|] { assert nu.shape[1..] == []; }
    }
    if nu.shape == [|states|] then Ok(nu.flat)
    else if nu.shape == [] then Ok(seq(|states|, _ => nu.flat[0]))
    else Err(BadPropensityShape(nu.shape))
  }

  /** Every coordinate of `s` is non-negative. */
  predicate NonNegative(s: State) {
    s == [] || (s[0] >= 0 && NonNegative(s[1..]))
  }

  lemma {:induction false} NonNegativeMeaning(s: State)
    ensures NonNegative(s) <==> forall i :: 0 <= i < |s| ==> s[i] >= 0
  {
    if s != [] {
      NonNegativeMeaning(s[1..]);
      assert forall i :: 1 <= i < |s| ==> s[i] == s[1..][i - 1];
    }
  }

  /** One flag per state: true exactly when the state has no negative coordinate. */
  function NonNegStates(states: seq<State>): (flags: seq<bool>)
    ensures |flags| == |states|
    ensures forall j :: 0 <= j < |states| ==>
      (flags[j] <==> forall i :: 0 <= i < |states[j]| ==> states[j][i] >= 0)
  {
    NonNegStatesMeaning(states);
    seq(|states|, j requires 0 <= j < |states| => NonNegative(states[j]))
  }

  lemma NonNegStatesMeaning(states: seq<State>)
    ensures forall j :: 0 <= j < |states| ==>
      (NonNegative(states[j]) <==> forall i :: 0 <= i < |states[j]| ==> states[j][i] >= 0)
  {
    forall j | 0 <= j < |states| {
      NonNegativeMeaning(states[j]);
    }
  }

  // ---------------------------------------------------------------------------
  // The enumerated truncated domain

  /**
   * A StateEnum: the states of the truncated domain in their enumeration
   * order, all of dimension `dim`, and the enumeration's index offset. The
   * index of a state is its position in `states`.
   */
  datatype StateEnum = StateEnum(dim: nat, states: seq<State>, offset: int)

  /** What a `StateEnum` guarantees: its states are distinct and all of dimension `dim`. */
  predicate WellFormed(e: StateEnum) {
    && (forall k :: 0 <= k < |e.states| ==> |e.states[k]| == e.dim)
    && (forall j, k :: 0 <= j < k < |e.states| ==> e.states[j] != e.states[k])
  }

  /** `domain_enum.indices` for one state: its position in the enumeration. */
  function IndexOf(states: seq<State>, s: State): (k: nat)
    requires s in states
    ensures k < |states| && states[k] == s
    ensures forall j :: 0 <= j < k ==> states[j] != s
  {
    if states[0] == s then 0 else 1 + IndexOf(states[1..], s)
  }

  /**
   * In a well-formed enumeration the index of the j-th state is j, so the
   * positions used for `src_indices` are the enumeration's own indices.
   */
  lemma IndexOfPosition(e: StateEnum, j: nat)
    requires WellFormed(e) && j < |e.states|
    ensures IndexOf(e.states, e.states[j]) == j
  {
  }

  /** numpy can add a (k, 1) column to a (d, n) array when k == d, k == 1 or d == 1. */
  predicate Broadcastable(dim: nat, k: nat) {
    k == dim || k == 1 || dim == 1
  }

  /** The destination of state `s` under offset `off`, with numpy's broadcasting. */
  function Shift(s: State, off: seq<int>): (d: State)
    requires Broadcastable(|s|, |off|)
    ensures |d| == if |off| == 1 then |s| else |off|
    ensures |off| == |s| ==> forall i :: 0 <= i < |d| ==> d[i] == s[i] + off[i]
    ensures |off| == 1 ==> forall i :: 0 <= i < |d| ==> d[i] == s[i] + off[0]
    ensures |s| == 1 ==> forall i :: 0 <= i < |d| ==> d[i] == s[0] + off[i]
  {
    var m := if |off| == 1 then |s| else |off|;
    seq(m, i requires 0 <= i < m =>
      (if |s| == 1 then s[0] else s[i]) + (if |off| == 1 then off[0] else off[i]))
  }

  /** The destination state of the j-th source state. */
  function Dest(e: StateEnum, off: seq<int>, j: nat): State
    requires j < |e.states| && Broadcastable(|e.states[j]|, |off|)
  {
    Shift(e.states[j], off)
  }

  /** The j-th source is interior: its destination lies inside the truncated domain. */
  predicate IsInterior(e: StateEnum, off: seq<int>, j: nat) {
    j < |e.states| && Broadcastable(|e.states[j]|, |off|) && Dest(e, off, j) in e.states
  }

  /** The j-th source's destination passes the validity test. */
  predicate ValidDest(e: StateEnum, off: seq<int>, valid: State -> bool, j: nat) {
    j < |e.states| && Broadcastable(|e.states[j]|, |off|) && valid(Dest(e, off, j))
  }

  function Range(n: nat): (r: seq<nat>)
    ensures |r| == n && Increasing(r)
    ensures forall j :: 0 <= j < n ==> r[j] == j
    ensures forall x: nat :: x in r <==> x < n
  {
    var r := seq(n, j requires 0 <= j < n => j);
    forall x: nat | x < n ensures x in r {
      assert r[x] == x;
    }
    assert forall x: nat :: x in r ==> x < n by {
      forall x: nat | x in r ensures x < n {
        var j :| 0 <= j < n && r[j] == x;
      }
    }
    r
  }

  /** Boolean-mask selection: the elements of `xs` that `keep` accepts, in order. */
  function Filter(xs: seq<nat>, keep: nat -> bool): (r: seq<nat>)
    ensures |r| <= |xs|
    ensures forall x :: x in r <==> x in xs && keep(x)
    ensures Increasing(xs) ==> Increasing(r)
  {
    if xs == [] then []
    else
      var tail := Filter(xs[1..], keep);
      var r := (if keep(xs[0]) then [xs[0]] else []) + tail;
      assert Increasing(xs) ==> Increasing(r) by {
        if Increasing(xs) {
          IncreasingTail(xs);
          if keep(xs[0]) { IncreasingCons(xs[0], tail); }
        }
      }
      r
  }

  lemma IncreasingTail(xs: seq<nat>)
    requires xs != [] && Increasing(xs)
    ensures Increasing(xs[1..]) && forall x :: x in xs[1..] ==> xs[0] < x
  {
    forall x | x in xs[1..] ensures xs[0] < x {
      var k :| 0 <= k < |xs[1..]| && xs[1..][k] == x;
      assert xs[k + 1] == x;
    }
  }

  lemma IncreasingCons(x: nat, tail: seq<nat>)
    requires Increasing(tail) && forall y :: y in tail ==> x < y
    ensures Increasing([x] + tail)
  {
    var r := [x] + tail;
    forall i, j | 0 <= i < j < |r| ensures r[i] < r[j] {
      assert r[j] == tail[j - 1] && r[j] in tail;
      if i > 0 { assert r[i] == tail[i - 1]; }
    }
  }

  /** The indices of the interior sources, in enumeration order. */
  function InteriorSources(e: StateEnum, off: seq<int>): (r: seq<nat>)
    ensures Increasing(r)
    ensures forall p :: 0 <= p < |r| ==> IsInterior(e, off, r[p])
    ensures forall j: nat :: j in r <==> IsInterior(e, off, j)
  {
    var r := Filter(Range(|e.states|), (j: nat) => IsInterior(e, off, j));
    assert forall p :: 0 <= p < |r| ==> r[p] in r;
    r
  }

  /** The indices of the exterior sources, in enumeration order. */
  function ExteriorSources(e: StateEnum, off: seq<int>): (r: seq<nat>)
    ensures Increasing(r)
    ensures forall p :: 0 <= p < |r| ==> r[p] < |e.states| && !IsInterior(e, off, r[p])
    ensures forall j: nat :: j in r <==> j < |e.states| && !IsInterior(e, off, j)
  {
    var r := Filter(Range(|e.states|), (j: nat) => !IsInterior(e, off, j));
    assert forall p :: 0 <= p < |r| ==> r[p] in r;
    r
  }

  /** The exterior sources whose destination is valid, in enumeration order. */
  function SinkSources(e: StateEnum, off: seq<int>, valid: State -> bool): (r: seq<nat>)
    ensures Increasing(r)
    ensures forall p :: 0 <= p < |r| ==> r[p] < |e.states| && !IsInterior(e, off, r[p]) && ValidDest(e, off, valid, r[p])
    ensures forall j: nat :: j in r <==> j < |e.states| && !IsInterior(e, off, j) && ValidDest(e, off, valid, j)
  {
    var r := Filter(ExteriorSources(e, off), (j: nat) => ValidDest(e, off, valid, j));
    assert forall p :: 0 <= p < |r| ==> r[p] in r;
    r
  }

  /** The enumeration indices of the destinations of interior sources. */
  function DestIndices(e: StateEnum, off: seq<int>, srcs: seq<nat>): (r: seq<nat>)
    requires forall p :: 0 <= p < |srcs| ==> IsInterior(e, off, srcs[p])
    ensures |r| == |srcs| && forall p :: 0 <= p < |r| ==> r[p] < |e.states|
    ensures forall p :: 0 <= p < |srcs| ==> IsInterior(e, off, srcs[p]) && e.states[r[p]] == Dest(e, off, srcs[p])
  {
    seq(|srcs|, p requires 0 <= p < |srcs| && IsInterior(e, off, srcs[p]) =>
      IndexOf(e.states, Dest(e, off, srcs[p])))
  }

  /** The sub-array of the states at the given indices. */
  function Gather(states: seq<State>, idx: seq<nat>): (r: seq<State>)
    requires forall p :: 0 <= p < |idx| ==> idx[p] < |states|
    ensures |r| == |idx|
  {
    seq(|idx|, p requires 0 <= p < |idx| => states[idx[p]])
  }

  function Repeat(x: nat, n: nat): (r: seq<nat>)
    ensures |r| == n && forall p :: 0 <= p < n ==> r[p] == x
  {
    seq(n, _ => x)
  }

  /** The flux of rate a[p] out of source srcs[p] (diagonal) and into row dsts[p]. */
  function FluxPairs(srcs: seq<nat>, dsts: seq<nat>, a: seq<real>): seq<Triplet>
    requires |srcs| == |dsts| == |a|
  {
    Zip(srcs, srcs, Negated(a)) + Zip(dsts, srcs, a)
  }

  /** The size of every reaction matrix: the domain, plus one row and column for the sink. */
  function MatrixSize(e: StateEnum, sink: bool): nat {
    |e.states| + if sink then 1 else 0
  }

  /** The triplets of the flux out of the interior sources and into their destinations. */
  function InteriorFlux(e: StateEnum, prop: Propensity, off: seq<int>): Result<seq<Triplet>, Error> {
    var ints := InteriorSources(e, off);
    if |ints| == 0 then Ok([])
    else match ComputePropensity(prop, Gather(e.states, ints))
      case Err(x) => Err(x)
      case Ok(a) => Ok(FluxPairs(ints, DestIndices(e, off, ints), a))
  }

  /** The triplets of the flux out of the valid exterior sources and into the sink state. */
  function SinkFlux(e: StateEnum, prop: Propensity, off: seq<int>, sink: bool, valid: State -> bool)
    : Result<seq<Triplet>, Error>
  {
    var ext := SinkSources(e, off, valid);
    if !sink || |ExteriorSources(e, off)| == 0 || |ext| == 0 then Ok([])
    else match ComputePropensity(prop, Gather(e.states, ext))
      case Err(x) => Err(x)
      case Ok(b) => Ok(FluxPairs(ext, Repeat(|e.states|, |ext|), b))
  }

  /** The coordinate triplets of one reaction: interior flux first, then flux into the sink. */
  function ReactionTriplets(e: StateEnum, prop: Propensity, off: seq<int>, sink: bool, valid: State -> bool)
    : Result<seq<Triplet>, Error>
  {
    match InteriorFlux(e, prop, off)
    case Err(x) => Err(x)
    case Ok(ti) =>
      match SinkFlux(e, prop, off, sink, valid)
      case Err(x) => Err(x)
      case Ok(ts) => Ok(ti + ts)
  }

  /** The optimised matrix of one reaction, or the exception raised while building it. */
  function ReactionMatrix(e: StateEnum, prop: Propensity, arg: OffsetArg, sink: bool, valid: State -> bool)
    : Result<Matrix, Error>
  {
    match arg
    case NotOneDimensional => Err(OffsetNotOneDimensional)
    case Vector(off) =>
      if |off| < 1 then Err(OffsetEmpty)
      else if !Broadcastable(e.dim, |off|) then Err(OffsetNotBroadcastable)
      else match ReactionTriplets(e, prop, off, sink, valid)
        case Err(x) => Err(x)
        case Ok(ts) => Ok(Matrix([MatrixSize(e, sink), MatrixSize(e, sink)], Normalised(ts)))
  }

  /**
   * Appends the flux of rate a[p] out of srcs[p] and into dsts[p] to the three
   * coordinate lists, as the builder's `data`, `rows` and `cols` appends do.
   */
  method AppendFlux(rows: seq<nat>, cols: seq<nat>, data: seq<real>, srcs: seq<nat>, dsts: seq<nat>, a: seq<real>)
    returns (rows': seq<nat>, cols': seq<nat>, data': seq<real>)
    requires |rows| == |cols| == |data| && |srcs| == |dsts| == |a|
    ensures |rows'| == |cols'| == |data'| == |rows| + 2 * |srcs|
    ensures Zip(rows', cols', data') == Zip(rows, cols, data) + FluxPairs(srcs, dsts, a)
  {
    // flux out of the sources
    data', cols', rows' := data + Negated(a), cols + srcs, rows + srcs;
    // flux into the destinations
    data', cols', rows' := data' + a, cols' + srcs, rows' + dsts;
    ZipAppend(rows, cols, data, srcs + dsts, srcs + srcs, Negated(a) + a);
    ZipAppend(srcs, srcs, Negated(a), dsts, srcs, a);
    assert rows' == rows + (srcs + dsts) && cols' == cols + (srcs + srcs) && data' == data + (Negated(a) + a);
  }

  /** The coordinate data of the flux out of the interior sources and into their destinations. */
  method InteriorCoordinates(e: StateEnum, prop: Propensity, off: seq<int>)
    returns (rows: seq<nat>, cols: seq<nat>, data: seq<real>, err: Option<Error>)
    ensures |rows| == |cols| == |data|
    ensures err.None? ==> InteriorFlux(e, prop, off) == Ok(Zip(rows, cols, data))
    ensures err.Some? ==> InteriorFlux(e, prop, off) == Err(err.value)
  {
    var interior := InteriorSources(e, off);
    rows, cols, data, err := [], [], [], None;
    if |interior| > 0 {
      var coeffs := ComputePropensity(prop, Gather(e.states, interior));
      if coeffs.Err? {
        return [], [], [], Some(coeffs.error);
      }
      var dst := DestIndices(e, off, interior);
      rows, cols, data := AppendFlux(rows, cols, data, interior, dst, coeffs.value);
      assert Zip(rows, cols, data) == FluxPairs(interior, dst, coeffs.value);
    }
  }

  /**
   * Appends the coordinate data of the flux out of the valid exterior sources
   * and into the sink state, when there is a sink.
   */
  method AppendSinkCoordinates(e: StateEnum, prop: Propensity, off: seq<int>, sink: bool, valid: State -> bool,
                               rows0: seq<nat>, cols0: seq<nat>, data0: seq<real>)
    returns (rows: seq<nat>, cols: seq<nat>, data: seq<real>, err: Option<Error>)
    requires |rows0| == |cols0| == |data0|
    ensures |rows| == |cols| == |data|
    ensures err.None? ==>
      && SinkFlux(e, prop, off, sink, valid).Ok?
      && Zip(rows, cols, data) == Zip(rows0, cols0, data0) + SinkFlux(e, prop, off, sink, valid).value
    ensures err.Some? ==> SinkFlux(e, prop, off, sink, valid) == Err(err.value)
  {
    rows, cols, data, err := rows0, cols0, data0, None;
    var exterior := ExteriorSources(e, off);
    if sink && |exterior| > 0 {
      var validSrc := SinkSources(e, off, valid);
      if |validSrc| > 0 {
        var coeffs := ComputePropensity(prop, Gather(e.states, validSrc));
        if coeffs.Err? {
          return [], [], [], Some(coeffs.error);
        }
        var sinkRows := Repeat(|e.states|, |validSrc|);
        rows, cols, data := AppendFlux(rows, cols, data, validSrc, sinkRows, coeffs.value);
        return;
      }
    }
    assert Zip(rows, cols, data) + [] == Zip(rows, cols, data);
  }

  /**
   * The coordinate data of one reaction's flux, accumulated as the body of
   * `gen_reaction_matrices` does: interior flux first, then flux into the sink.
   */
  method ReactionCoordinates(e: StateEnum, prop: Propensity, off: seq<int>, sink: bool, valid: State -> bool)
    returns (rows: seq<nat>, cols: seq<nat>, data: seq<real>, err: Option<Error>)
    ensures |rows| == |cols| == |data|
    ensures err.None? ==> ReactionTriplets(e, prop, off, sink, valid) == Ok(Zip(rows, cols, data))
    ensures err.Some? ==> ReactionTriplets(e, prop, off, sink, valid) == Err(err.value)
  {
    rows, cols, data, err := InteriorCoordinates(e, prop, off);
    if err.None? {
      rows, cols, data, err := AppendSinkCoordinates(e, prop, off, sink, valid, rows, cols, data);
    }
  }

  /**
   * One iteration of `gen_reaction_matrices`: checks the offset vector,
   * accumulates the coordinate data of the reaction's flux and builds the
   * optimised matrix from it.
   */
  method BuildReactionMatrix(e: StateEnum, prop: Propensity, arg: OffsetArg, sink: bool, valid: State -> bool)
    returns (result: Result<Matrix, Error>)
    ensures result == ReactionMatrix(e, prop, arg, sink, valid)
  {
    if arg.NotOneDimensional? {
      return Err(OffsetNotOneDimensional);
    }
    var off := arg.coords;
    if |off| < 1 {
      return Err(OffsetEmpty);
    }
    if !Broadcastable(e.dim, |off|) {
      return Err(OffsetNotBroadcastable);
    }
    var rows, cols, data, err := ReactionCoordinates(e, prop, off, sink, valid);
    if err.Some? {
      return Err(err.value);
    }
    var size := if sink then |e.states| + 1 else |e.states|;
    assert size == MatrixSize(e, sink);
    if |data| == 0 {
      assert Normalised(Zip(rows, cols, data)) == [];
      return Ok(Matrix([size, size], []));
    }
    var csr := new CsrMatrix([size, size], Zip(rows, cols, data));
    OptimiseCsrMatrix(csr);
    return Ok(csr.Value());
  }

  /** The outcome of building each reaction's matrix, in the order of the reactions. */
  function Built(e: StateEnum, props: seq<Propensity>, offs: seq<OffsetArg>, sink: bool, valid: State -> bool)
    : (rs: seq<Result<Matrix, Error>>)
    requires |props| == |offs|
    ensures |rs| == |props|
  {
    seq(|props|, i requires 0 <= i < |props| => ReactionMatrix(e, props[i], offs[i], sink, valid))
  }

  /**
   * What a generator produces from the outcomes `rs` of its steps, in order:
   * the matrices it yields, and the exception (if any) that ends it. A step
   * that raises ends the generator.
   */
  function Yields(rs: seq<Result<Matrix, Error>>): (seq<Matrix>, Option<Error>) {
    if rs == [] then ([], None)
    else match rs[0]
      case Err(x) => ([], Some(x))
      case Ok(m) => ([m] + Yields(rs[1..]).0, Yields(rs[1..]).1)
  }

  /** The whole generator, including the checks it makes before the first reaction. */
  function Generated(model: Model, e: StateEnum, sink: bool, valid: State -> bool): (seq<Matrix>, Option<Error>) {
    if e.offset != 0 then ([], Some(DomainOffsetUnsupported))
    else if |model.propensities| != |model.offsetVectors| then ([], Some(ReactionCountMismatch))
    else Yields(Built(e, model.propensities, model.offsetVectors, sink, valid))
  }

  /**
   * The i-th yielded matrix is the outcome of step i; the generator stops
   * early only at a step that raises, with that exception.
   */
  lemma {:induction false} YieldsMeaning(rs: seq<Result<Matrix, Error>>)
    ensures var (mats, err) := Yields(rs);
      && |mats| <= |rs|
      && (forall i :: 0 <= i < |mats| ==> rs[i] == Ok(mats[i]))
      && (err.None? <==> |mats| == |rs|)
      && (err.Some? ==> rs[|mats|] == Err(err.value))
    decreases |rs|
  {
    if rs != [] {
      YieldsMeaning(rs[1..]);
      if rs[0].Ok? {
        var (mats, err) := Yields(rs);
        forall i | 0 < i < |mats|
          ensures rs[i] == Ok(mats[i])
        {
          assert rs[i] == rs[1..][i - 1];
        }
        if err.Some? {
          assert rs[|mats|] == rs[1..][|mats| - 1];
        }
      }
    }
  }

  /** The generator's outcome, stated reaction by reaction. */
  lemma GeneratedMeaning(model: Model, e: StateEnum, sink: bool, valid: State -> bool)
    ensures var (mats, err) := Generated(model, e, sink, valid);
      && (e.offset != 0 ==> mats == [] && err == Some(DomainOffsetUnsupported))
      && (e.offset == 0 && |model.propensities| != |model.offsetVectors| ==>
            mats == [] && err == Some(ReactionCountMismatch))
      && (e.offset == 0 && |model.propensities| == |model.offsetVectors| ==>
            && |mats| <= |model.propensities|
            && (forall i :: 0 <= i < |mats| ==>
                  ReactionMatrix(e, model.propensities[i], model.offsetVectors[i], sink, valid) == Ok(mats[i]))
            && (err.None? <==> |mats| == |model.propensities|)
            && (err.Some? ==>
                  ReactionMatrix(e, model.propensities[|mats|], model.offsetVectors[|mats|], sink, valid)
                    == Err(err.value)))
  {
    if e.offset == 0 && |model.propensities| == |model.offsetVectors| {
      YieldsMeaning(Built(e, model.propensities, model.offsetVectors, sink, valid));
    }
  }

  /**
   * The converse of `YieldsMeaning`: yielding the outcomes of the first steps
   * and then stopping at the end or at a raising step is what `Yields` gives.
   */
  lemma {:induction false} YieldsOfOutcomes(rs: seq<Result<Matrix, Error>>, mats: seq<Matrix>, err: Option<Error>)
    requires |mats| <= |rs|
    requires forall i :: 0 <= i < |mats| ==> rs[i] == Ok(mats[i])
    requires err.None? ==> |mats| == |rs|
    requires err.Some? ==> |mats| < |rs| && rs[|mats|] == Err(err.value)
    ensures Yields(rs) == (mats, err)
    decreases |rs|
  {
    if rs != [] && mats != [] {
      assert forall i :: 0 <= i < |mats| - 1 ==> rs[1..][i] == rs[i + 1] && mats[1..][i] == mats[i + 1];
      YieldsOfOutcomes(rs[1..], mats[1..], err);
      assert rs[0] == Ok(mats[0]) && [mats[0]] + mats[1..] == mats;
    }
  }

  /** The loop of `gen_reaction_matrices` over the reactions, run to the end. */
  method YieldAll(e: StateEnum, props: seq<Propensity>, offs: seq<OffsetArg>, sink: bool, valid: State -> bool)
    returns (mats: seq<Matrix>, err: Option<Error>)
    requires |props| == |offs|
    ensures (mats, err) == Yields(Built(e, props, offs, sink, valid))
  {
    ghost var rs := Built(e, props, offs, sink, valid);
    mats, err := [], None;
    var r := 0;
    while r < |props|
      invariant r <= |props| && |mats| == r
      invariant forall i :: 0 <= i < r ==> rs[i] == Ok(mats[i])
    {
      var m := BuildReactionMatrix(e, props[r], offs[r], sink, valid);
      assert m == rs[r] by { assert rs[r] == ReactionMatrix(e, props[r], offs[r], sink, valid); }
      if m.Err? {
        YieldsOfOutcomes(rs, mats, Some(m.error));
        return mats, Some(m.error);
      }
      ghost var before := mats;
      mats := mats + [m.value];
      assert forall i :: 0 <= i < r ==> mats[i] == before[i];
      assert rs[r] == Ok(mats[r]);
      r := r + 1;
    }
    YieldsOfOutcomes(rs, mats, None);
  }

  /**
   * `gen_reaction_matrices`, run to the end: `mats` holds the matrices the
   * generator yields, `err` the exception (if any) that ends it.
   */
  method GenReactionMatrices(model: Model, e: StateEnum, sink: bool, valid: State -> bool)
    returns (mats: seq<Matrix>, err: Option<Error>)
    ensures (mats, err) == Generated(model, e, sink, valid)
  {
    if e.offset != 0 {
      return [], Some(DomainOffsetUnsupported);
    }
    var propensities, offsetVectors := model.propensities, model.offsetVectors;
    if |propensities| != |offsetVectors| {
      return [], Some(ReactionCountMismatch);
    }
    mats, err := YieldAll(e, propensities, offsetVectors, sink, valid);
  }

  // ---------------------------------------------------------------------------
  // What every reaction matrix is

  /** A built reaction matrix is the normalised interior flux followed by the sink flux. */
  lemma ReactionMatrixParts(e: StateEnum, prop: Propensity, off: seq<int>, sink: bool, valid: State -> bool, m: Matrix)
    requires ReactionMatrix(e, prop, Vector(off), sink, valid) == Ok(m)
    ensures InteriorFlux(e, prop, off).Ok? && SinkFlux(e, prop, off, sink, valid).Ok?
    ensures m == Matrix([MatrixSize(e, sink), MatrixSize(e, sink)],
      Normalised(InteriorFlux(e, prop, off).value + SinkFlux(e, prop, off, sink, valid).value))
  {
  }

  lemma FluxPairsAt(srcs: seq<nat>, dsts: seq<nat>, a: seq<real>, r: nat, c: nat)
    requires |srcs| == |dsts| == |a|
    ensures At(FluxPairs(srcs, dsts, a), r, c) == At(Zip(srcs, srcs, Negated(a)), r, c) + At(Zip(dsts, srcs, a), r, c)
  {
    WeighAppend(Zip(srcs, srcs, Negated(a)), Zip(dsts, srcs, a), EntryWeight(r, c));
  }

  /** Every column of a flux list sums to zero: what leaves a state arrives elsewhere. */
  lemma FluxPairsColSum(srcs: seq<nat>, dsts: seq<nat>, a: seq<real>, c: nat)
    requires |srcs| == |dsts| == |a|
    ensures ColSum(FluxPairs(srcs, dsts, a), c) == 0.0
  {
    WeighAppend(Zip(srcs, srcs, Negated(a)), Zip(dsts, srcs, a), ColumnWeight(c));
    ZipColumnsCancel(srcs, dsts, srcs, a, c);
  }

  /** No column outside `srcs` holds anything in a flux list. */
  lemma FluxPairsAbsent(srcs: seq<nat>, dsts: seq<nat>, a: seq<real>, r: nat, c: nat)
    requires |srcs| == |dsts| == |a| && c !in srcs
    ensures At(FluxPairs(srcs, dsts, a), r, c) == 0.0
  {
    FluxPairsAt(srcs, dsts, a, r, c);
    AtZipAbsent(srcs, srcs, Negated(a), r, c);
    AtZipAbsent(dsts, srcs, a, r, c);
  }

  /** Column srcs[p] of a flux list: -a[p] on the diagonal and a[p] in row dsts[p]. */
  lemma FluxPairsColumn(srcs: seq<nat>, dsts: seq<nat>, a: seq<real>, p: nat, r: nat)
    requires |srcs| == |dsts| == |a| && Increasing(srcs) && p < |srcs|
    ensures At(FluxPairs(srcs, dsts, a), r, srcs[p]) ==
      (if r == srcs[p] then -a[p] else 0.0) + (if r == dsts[p] then a[p] else 0.0)
  {
    FluxPairsAt(srcs, dsts, a, r, srcs[p]);
    AtZipDistinct(srcs, srcs, Negated(a), p, r);
    AtZipDistinct(dsts, srcs, a, p, r);
  }

  lemma InteriorFluxColSum(e: StateEnum, prop: Propensity, off: seq<int>, c: nat)
    requires InteriorFlux(e, prop, off).Ok?
    ensures ColSum(InteriorFlux(e, prop, off).value, c) == 0.0
  {
    var ints := InteriorSources(e, off);
    if |ints| > 0 {
      var a := ComputePropensity(prop, Gather(e.states, ints)).value;
      FluxPairsColSum(ints, DestIndices(e, off, ints), a, c);
    }
  }

  lemma SinkFluxColSum(e: StateEnum, prop: Propensity, off: seq<int>, sink: bool, valid: State -> bool, c: nat)
    requires SinkFlux(e, prop, off, sink, valid).Ok?
    ensures ColSum(SinkFlux(e, prop, off, sink, valid).value, c) == 0.0
  {
    var ext := SinkSources(e, off, valid);
    if sink && |ExteriorSources(e, off)| > 0 && |ext| > 0 {
      var b := ComputePropensity(prop, Gather(e.states, ext)).value;
      FluxPairsColSum(ext, Repeat(|e.states|, |ext|), b, c);
    }
  }

  lemma InteriorFluxAbsent(e: StateEnum, prop: Propensity, off: seq<int>, r: nat, c: nat)
    requires InteriorFlux(e, prop, off).Ok? && !IsInterior(e, off, c)
    ensures At(InteriorFlux(e, prop, off).value, r, c) == 0.0
  {
    var ints := InteriorSources(e, off);
    if |ints| > 0 {
      var a := ComputePropensity(prop, Gather(e.states, ints)).value;
      FluxPairsAbsent(ints, DestIndices(e, off, ints), a, r, c);
    }
  }

  lemma SinkFluxAbsent(e: StateEnum, prop: Propensity, off: seq<int>, sink: bool, valid: State -> bool, r: nat, c: nat)
    requires SinkFlux(e, prop, off, sink, valid).Ok?
    requires !sink || c !in SinkSources(e, off, valid)
    ensures At(SinkFlux(e, prop, off, sink, valid).value, r, c) == 0.0
  {
    var ext := SinkSources(e, off, valid);
    if sink && |ExteriorSources(e, off)| > 0 && |ext| > 0 {
      var b := ComputePropensity(prop, Gather(e.states, ext)).value;
      FluxPairsAbsent(ext, Repeat(|e.states|, |ext|), b, r, c);
    }
  }

  /**
   * Probability is conserved: every column of a reaction matrix sums to zero,
   * with or without the sink state.
   */
  lemma ReactionColumnsSumToZero(e: StateEnum, prop: Propensity, off: seq<int>, sink: bool, valid: State -> bool,
                                 m: Matrix, c: nat)
    requires ReactionMatrix(e, prop, Vector(off), sink, valid) == Ok(m)
    ensures ColSum(m.entries, c) == 0.0
  {
    ReactionMatrixParts(e, prop, off, sink, valid, m);
    var ti, ts := InteriorFlux(e, prop, off).value, SinkFlux(e, prop, off, sink, valid).value;
    NormalisedColSum(ti + ts, c);
    WeighAppend(ti, ts, ColumnWeight(c));
    InteriorFluxColSum(e, prop, off, c);
    SinkFluxColSum(e, prop, off, sink, valid, c);
  }

  /**
   * The column of the p-th interior source: its propensity leaves the
   * diagonal and arrives in the row of its destination state.
   */
  lemma InteriorColumn(e: StateEnum, prop: Propensity, off: seq<int>, sink: bool, valid: State -> bool,
                       m: Matrix, p: nat, r: nat)
    requires ReactionMatrix(e, prop, Vector(off), sink, valid) == Ok(m)
    requires p < |InteriorSources(e, off)|
    ensures var ints := InteriorSources(e, off);
      var a := ComputePropensity(prop, Gather(e.states, ints));
      && a.Ok?
      && At(m.entries, r, ints[p]) ==
           (if r == ints[p] then -a.value[p] else 0.0)
         + (if r == DestIndices(e, off, ints)[p] then a.value[p] else 0.0)
  {
    ReactionMatrixParts(e, prop, off, sink, valid, m);
    var ti, ts := InteriorFlux(e, prop, off).value, SinkFlux(e, prop, off, sink, valid).value;
    var ints := InteriorSources(e, off);
    var a := ComputePropensity(prop, Gather(e.states, ints)).value;
    NormalisedAt(ti + ts, r, ints[p]);
    WeighAppend(ti, ts, EntryWeight(r, ints[p]));
    FluxPairsColumn(ints, DestIndices(e, off, ints), a, p, r);
    SinkFluxAbsent(e, prop, off, sink, valid, r, ints[p]);
  }

  /**
   * With a sink, the column of the q-th valid exterior source: its propensity
   * leaves the diagonal and arrives in the sink row, index |states|.
   */
  lemma SinkColumn(e: StateEnum, prop: Propensity, off: seq<int>, sink: bool, valid: State -> bool,
                   m: Matrix, q: nat, r: nat)
    requires ReactionMatrix(e, prop, Vector(off), sink, valid) == Ok(m)
    requires sink && q < |SinkSources(e, off, valid)|
    ensures var ext := SinkSources(e, off, valid);
      var b := ComputePropensity(prop, Gather(e.states, ext));
      && b.Ok?
      && At(m.entries, r, ext[q]) ==
           (if r == ext[q] then -b.value[q] else 0.0)
         + (if r == |e.states| then b.value[q] else 0.0)
  {
    ReactionMatrixParts(e, prop, off, sink, valid, m);
    var ti, ts := InteriorFlux(e, prop, off).value, SinkFlux(e, prop, off, sink, valid).value;
    var ext := SinkSources(e, off, valid);
    assert ext[q] in ExteriorSources(e, off);
    var b := ComputePropensity(prop, Gather(e.states, ext)).value;
    NormalisedAt(ti + ts, r, ext[q]);
    WeighAppend(ti, ts, EntryWeight(r, ext[q]));
    FluxPairsColumn(ext, Repeat(|e.states|, |ext|), b, q, r);
    InteriorFluxAbsent(e, prop, off, r, ext[q]);
  }

  /**
   * Every other column is empty: the sink's own column, and an exterior
   * source whose flux is dropped because there is no sink or its destination
   * fails the validity test.
   */
  lemma DroppedColumn(e: StateEnum, prop: Propensity, off: seq<int>, sink: bool, valid: State -> bool,
                      m: Matrix, c: nat, r: nat)
    requires ReactionMatrix(e, prop, Vector(off), sink, valid) == Ok(m)
    requires c >= |e.states| || (!IsInterior(e, off, c) && (!sink || !ValidDest(e, off, valid, c)))
    ensures At(m.entries, r, c) == 0.0
  {
    ReactionMatrixParts(e, prop, off, sink, valid, m);
    var ti, ts := InteriorFlux(e, prop, off).value, SinkFlux(e, prop, off, sink, valid).value;
    NormalisedAt(ti + ts, r, c);
    WeighAppend(ti, ts, EntryWeight(r, c));
    InteriorFluxAbsent(e, prop, off, r, c);
    SinkFluxAbsent(e, prop, off, sink, valid, r, c);
  }

  lemma FluxPairsInShape(srcs: seq<nat>, dsts: seq<nat>, a: seq<real>, size: nat)
    requires |srcs| == |dsts| == |a|
    requires forall p :: 0 <= p < |srcs| ==> srcs[p] < size && dsts[p] < size
    ensures InShape(FluxPairs(srcs, dsts, a), size, size)
  {
    ZipInShape(srcs, srcs, Negated(a), size, size);
    ZipInShape(dsts, srcs, a, size, size);
    InShapeAppend(Zip(srcs, srcs, Negated(a)), Zip(dsts, srcs, a), size, size);
  }

  lemma InteriorFluxInShape(e: StateEnum, prop: Propensity, off: seq<int>, size: nat)
    requires InteriorFlux(e, prop, off).Ok? && |e.states| <= size
    ensures InShape(InteriorFlux(e, prop, off).value, size, size)
  {
    var ints := InteriorSources(e, off);
    if |ints| > 0 {
      var a := ComputePropensity(prop, Gather(e.states, ints)).value;
      FluxPairsInShape(ints, DestIndices(e, off, ints), a, size);
    }
  }

  lemma SinkFluxInShape(e: StateEnum, prop: Propensity, off: seq<int>, sink: bool, valid: State -> bool)
    requires SinkFlux(e, prop, off, sink, valid).Ok?
    ensures InShape(SinkFlux(e, prop, off, sink, valid).value, MatrixSize(e, sink), MatrixSize(e, sink))
  {
    var ext := SinkSources(e, off, valid);
    if sink && |ExteriorSources(e, off)| > 0 && |ext| > 0 {
      var b := ComputePropensity(prop, Gather(e.states, ext)).value;
      FluxPairsInShape(ext, Repeat(|e.states|, |ext|), b, MatrixSize(e, sink));
    }
  }

  /**
   * A reaction matrix is square of the domain's size (plus one for the sink),
   * in canonical CSR storage, and stores nothing outside its shape.
   */
  lemma ReactionMatrixShape(e: StateEnum, prop: Propensity, off: seq<int>, sink: bool, valid: State -> bool, m: Matrix)
    requires ReactionMatrix(e, prop, Vector(off), sink, valid) == Ok(m)
    ensures m.shape == [MatrixSize(e, sink), MatrixSize(e, sink)]
    ensures Canonical(m.entries) && InShape(m.entries, MatrixSize(e, sink), MatrixSize(e, sink))
  {
    ReactionMatrixParts(e, prop, off, sink, valid, m);
    var size := MatrixSize(e, sink);
    var ti, ts := InteriorFlux(e, prop, off).value, SinkFlux(e, prop, off, sink, valid).value;
    InteriorFluxInShape(e, prop, off, size);
    SinkFluxInShape(e, prop, off, sink, valid);
    InShapeAppend(ti, ts, size, size);
    NormalisedInShape(ti + ts, size, size);
    NormalisedCanonical(ti + ts);
  }
}
