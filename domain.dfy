/**
 * Conversions between collections of states and d x n "state arrays", whose
 * j-th column is the j-th state: `from_iter`, `from_mapping`, `to_iter` and
 * the reshape inside `from_rect`.
 */
module Domain {
  import opened Results
  import opened Arrays

  /** One element of the collection handed to `from_iter`: a bare integer or a tuple of coordinates. */
  datatype Item = Scalar(x: int) | Tuple(coords: seq<int>)

  /**
   * What `from_iter` is given. A `tuple` or a `set` is listed in its iteration
   * order; anything else must offer `keys()`, as a mapping does (its entries in
   * insertion order); `NoKeys` is any other object, such as a list.
   */
  datatype StateSource =
    | TupleOf(items: seq<Item>)
    | SetOf(items: seq<Item>)
    | MappingOf(entries: seq<(Item, real)>)
    | NoKeys

  /**
   * An integer numpy array of one or two dimensions: a vector, or a grid of
   * `height` rows of `width` entries each.
   */
  datatype IntArray = Vector(elems: seq<int>) | Grid(height: nat, width: nat, rows: seq<seq<int>>)

  /** The exceptions raised. */
  datatype Error =
    | AttributeMissing  // AttributeError: the object has no `keys`
    | Inhomogeneous     // ValueError from numpy: the states do not form a rectangular array
    | NothingToStack    // ValueError from numpy.vstack on an empty vector
    | NotIterable       // TypeError from `tuple` applied to a scalar entry
    | Unsized           // TypeError from `len` of a zero-dimensional array
    | AmbiguousReshape  // ValueError from numpy.reshape of an empty first axis with -1

  /** The grid's rows all have the declared width and there are `height` of them. */
  predicate Rectangular(a: IntArray) {
    a.Grid? ==> |a.rows| == a.height && forall i :: 0 <= i < |a.rows| ==> |a.rows[i]| == a.width
  }

  predicate AllScalars(items: seq<Item>) {
    forall k :: 0 <= k < |items| ==> items[k].Scalar?
  }

  predicate AllTuplesOf(items: seq<Item>, d: nat) {
    forall k :: 0 <= k < |items| ==> items[k].Tuple? && |items[k].coords| == d
  }

  // ---------------------------------------------------------------------------
  // numpy building blocks

  /**
   * `numpy.asarray(list(...))`: integers give a vector, tuples of one common
   * length d give an n x d grid, anything ragged or mixed is rejected.
   */
  function AsArray(items: seq<Item>): (r: Result<IntArray, Error>)
    ensures r.Ok? ==> Rectangular(r.value)
  {
    if AllScalars(items) then Ok(Vector(seq(|items|, k requires 0 <= k < |items| => items[k].x)))
    else if items[0].Tuple? && AllTuplesOf(items, |items[0].coords|) then
      Ok(Grid(|items|, |items[0].coords|, seq(|items|, k requires 0 <= k < |items| => items[k].coords)))
    else Err(Inhomogeneous)
  }

  /** The array's `transpose()`: a vector is its own transpose. */
  function Transpose(a: IntArray): (t: IntArray)
    requires Rectangular(a)
    ensures Rectangular(t)
    ensures a.Vector? ==> t == a
    ensures a.Grid? ==> t.Grid? && t.height == a.width && t.width == a.height
    ensures a.Grid? ==> forall i, j :: 0 <= i < t.height && 0 <= j < t.width ==> t.rows[i][j] == a.rows[j][i]
  {
    match a
    case Vector(_) => a
    case Grid(h, w, rows) =>
      Grid(w, h, seq(w, i requires 0 <= i < w => seq(h, j requires 0 <= j < h => rows[j][i])))
  }

  /** Transposing twice gives the array back. */
  lemma TransposeInvolution(a: IntArray)
    requires Rectangular(a)
    ensures Transpose(Transpose(a)) == a
  {
    if a.Grid? {
      var b := Transpose(Transpose(a));
      assert forall i :: 0 <= i < a.height ==> b.rows[i] == a.rows[i];
    }
  }

  /** `numpy.vstack` of a vector: each entry becomes a row of its own. */
  function VStack(elems: seq<int>): Result<IntArray, Error> {
    if elems == [] then Err(NothingToStack)
    else Ok(Grid(|elems|, 1, seq(|elems|, i requires 0 <= i < |elems| => [elems[i]])))
  }

  // ---------------------------------------------------------------------------
  // from_iter

  function Keys(entries: seq<(Item, real)>): (ks: seq<Item>)
    ensures |ks| == |entries| && forall k :: 0 <= k < |entries| ==> ks[k] == entries[k].0
  {
    seq(|entries|, k requires 0 <= k < |entries| => entries[k].0)
  }

  function Values(entries: seq<(Item, real)>): (vs: seq<real>)
    ensures |vs| == |entries| && forall k :: 0 <= k < |entries| ==> vs[k] == entries[k].1
  {
    seq(|entries|, k requires 0 <= k < |entries| => entries[k].1)
  }

  /** The states `from_iter` lists: the members of a tuple or set, otherwise the keys. */
  function Listed(src: StateSource): Result<seq<Item>, Error> {
    match src
    case TupleOf(items) => Ok(items)
    case SetOf(items) => Ok(items)
    case MappingOf(entries) => Ok(Keys(entries))
    case NoKeys => Err(AttributeMissing)
  }

  /** `from_iter` as written: a one-dimensional result is passed through `numpy.vstack`. */
  function FromIter(src: StateSource): Result<IntArray, Error> {
    match Listed(src)
    case Err(e) => Err(e)
    case Ok(items) =>
      match AsArray(items)
      case Err(e) => Err(e)
      case Ok(arr) =>
        var t := Transpose(arr);
        if t.Grid? then Ok(t) else VStack(t.elems)
  }

  /** `from_iter` with scalar states laid out as the one row of a 1 x n state array. */
  function FromIterIntended(src: StateSource): Result<IntArray, Error> {
    match Listed(src)
    case Err(e) => Err(e)
    case Ok(items) =>
      match AsArray(items)
      case Err(e) => Err(e)
      case Ok(arr) =>
        var t := Transpose(arr);
        if t.Grid? then Ok(t)
        else if t.elems == [] then Err(NothingToStack)
        else Ok(Grid(1, |t.elems|, [t.elems]))
  }

  /** The coordinates of each listed state, a scalar state being a 1-tuple. */
  function StatesOf(items: seq<Item>): (s: seq<seq<int>>)
    ensures |s| == |items|
  {
    seq(|items|, k requires 0 <= k < |items| => match items[k] case Scalar(x) => [x] case Tuple(c) => c)
  }

  /** Tuples of one common length make a d x n state array whose j-th column is the j-th state. */
  lemma FromIterColumns(src: StateSource, items: seq<Item>, d: nat)
    requires Listed(src) == Ok(items) && |items| > 0 && AllTuplesOf(items, d)
    ensures FromIter(src).Ok? && FromIterIntended(src) == FromIter(src)
    ensures var g := FromIter(src).value;
      && g.Grid? && Rectangular(g) && g.height == d && g.width == |items|
      && forall i, j :: 0 <= i < d && 0 <= j < |items| ==> g.rows[i][j] == items[j].coords[i]
  {
    assert items[0].Tuple?;
  }

  /** Scalar states, as written, make an n x 1 array: one column, so one state of n coordinates. */
  lemma FromIterScalars(src: StateSource, items: seq<Item>)
    requires Listed(src) == Ok(items) && |items| > 0 && AllScalars(items)
    ensures FromIter(src) == Ok(Grid(|items|, 1, seq(|items|, i requires 0 <= i < |items| => [items[i].x])))
  {
    var v := seq(|items|, k requires 0 <= k < |items| => items[k].x);
    assert AsArray(items) == Ok(Vector(v));
    assert seq(|v|, i requires 0 <= i < |v| => [v[i]]) == seq(|items|, i requires 0 <= i < |items| => [items[i].x]);
  }

  /** Scalar states, as intended, make a 1 x n array: n states of one coordinate. */
  lemma FromIterIntendedScalars(src: StateSource, items: seq<Item>)
    requires Listed(src) == Ok(items) && |items| > 0 && AllScalars(items)
    ensures FromIterIntended(src) == Ok(Grid(1, |items|, [seq(|items|, i requires 0 <= i < |items| => items[i].x)]))
  {
  }

  /** An empty tuple, set or mapping is rejected by `numpy.vstack`. */
  lemma FromIterEmpty(src: StateSource)
    requires Listed(src) == Ok([])
    ensures FromIter(src) == Err(NothingToStack) && FromIterIntended(src) == Err(NothingToStack)
  {
  }

  /** A mixed or ragged collection of states is rejected, and so is an object without `keys`. */
  lemma FromIterRejects(src: StateSource)
    ensures src.NoKeys? ==> FromIter(src) == Err(AttributeMissing)
    ensures (Listed(src).Ok? && !AllScalars(Listed(src).value)
             && forall d: nat :: !AllTuplesOf(Listed(src).value, d)) ==> FromIter(src) == Err(Inhomogeneous)
  {
  }

  /** On a mapping, `from_iter` sees only the keys. */
  lemma FromIterMappingKeys(entries: seq<(Item, real)>)
    ensures FromIter(MappingOf(entries)) == FromIter(TupleOf(Keys(entries)))
    ensures FromIterIntended(MappingOf(entries)) == FromIterIntended(TupleOf(Keys(entries)))
  {
  }

  // ---------------------------------------------------------------------------
  // to_iter

  /**
   * `to_iter`, run to exhaustion: one tuple per column of the array, in column
   * order. A non-empty vector fails on its first entry.
   */
  function ToIter(a: IntArray): (r: Result<seq<seq<int>>, Error>)
    requires Rectangular(a)
    ensures a.Grid? ==>
      && r.Ok? && |r.value| == a.width
      && forall j :: 0 <= j < a.width ==>
           |r.value[j]| == a.height && forall i :: 0 <= i < a.height ==> r.value[j][i] == a.rows[i][j]
    ensures a.Vector? ==> (r.Ok? <==> a.elems == []) && (r.Ok? ==> r.value == [])
  {
    match a
    case Vector(elems) => if elems == [] then Ok([]) else Err(NotIterable)
    case Grid(_, _, _) => Ok(Transpose(a).rows)
  }

  /** Coordinates of each item of a tuple-only collection. */
  function CoordsOf(items: seq<Item>): (s: seq<seq<int>>)
    requires forall k :: 0 <= k < |items| ==> items[k].Tuple?
    ensures |s| == |items| && forall k :: 0 <= k < |items| ==> s[k] == items[k].coords
  {
    seq(|items|, k requires 0 <= k < |items| => items[k].coords)
  }

  /** Round trip: listing the state array of equal-length tuples gives the same states in order. */
  lemma ToIterFromIter(src: StateSource, items: seq<Item>, d: nat)
    requires Listed(src) == Ok(items) && |items| > 0 && AllTuplesOf(items, d)
    ensures FromIter(src).Ok? && ToIter(FromIter(src).value) == Ok(CoordsOf(items))
  {
    FromIterColumns(src, items, d);
    var s := ToIter(FromIter(src).value).value;
    forall j | 0 <= j < |items|
      ensures s[j] == items[j].coords
    {
      assert forall i :: 0 <= i < d ==> s[j][i] == items[j].coords[i];
    }
    assert s == CoordsOf(items);
  }

  /** Round trip of the corrected `from_iter`: scalar states come back as 1-tuples. */
  lemma ToIterFromIterIntended(src: StateSource, items: seq<Item>, d: nat)
    requires Listed(src) == Ok(items) && |items| > 0 && (AllScalars(items) || AllTuplesOf(items, d))
    ensures FromIterIntended(src).Ok? && ToIter(FromIterIntended(src).value) == Ok(StatesOf(items))
  {
    if AllScalars(items) {
      FromIterIntendedScalars(src, items);
      var s := ToIter(FromIterIntended(src).value).value;
      assert forall j :: 0 <= j < |items| ==> s[j] == [items[j].x] == StatesOf(items)[j];
      assert s == StatesOf(items);
    } else {
      ToIterFromIter(src, items, d);
      assert forall j :: 0 <= j < |items| ==> StatesOf(items)[j] == items[j].coords;
      assert StatesOf(items) == CoordsOf(items);
    }
  }

  /** The tuples of states given to `from_iter`. */
  function Tuples(states: seq<seq<int>>): (items: seq<Item>)
    ensures |items| == |states| && forall k :: 0 <= k < |states| ==> items[k] == Tuple(states[k])
  {
    seq(|states|, k requires 0 <= k < |states| => Tuple(states[k]))
  }

  /** The other round trip: building a state array from the tuples `to_iter` lists gives the array back. */
  lemma FromIterToIter(g: IntArray)
    requires g.Grid? && Rectangular(g) && g.width > 0
    ensures FromIter(TupleOf(Tuples(ToIter(g).value))) == Ok(g)
  {
    var items := Tuples(ToIter(g).value);
    assert AllTuplesOf(items, g.height);
    FromIterColumns(TupleOf(items), items, g.height);
    var h := FromIter(TupleOf(items)).value;
    forall i | 0 <= i < g.height
      ensures h.rows[i] == g.rows[i]
    {
      assert forall j :: 0 <= j < g.width ==> h.rows[i][j] == g.rows[i][j];
    }
    assert h.rows == g.rows;
  }

  /** The counterexample: the scalar states 1 and 2 come back from `to_iter` as the single state (1, 2). */
  lemma ScalarRoundTripFails()
    ensures FromIter(TupleOf([Scalar(1), Scalar(2)])) == Ok(Grid(2, 1, [[1], [2]]))
    ensures ToIter(Grid(2, 1, [[1], [2]])) == Ok([[1, 2]])
    ensures StatesOf([Scalar(1), Scalar(2)]) == [[1], [2]] != [[1, 2]]
  {
    var g := Grid(2, 1, [[1], [2]]);
    FromIterScalars(TupleOf([Scalar(1), Scalar(2)]), [Scalar(1), Scalar(2)]);
    assert seq(2, i requires 0 <= i < 2 => [[Scalar(1), Scalar(2)][i].x]) == [[1], [2]];
    assert Transpose(g).rows == [[1, 2]] by {
      var t := Transpose(g).rows;
      assert |t| == 1 && |t[0]| == 2 && t[0][0] == 1 && t[0][1] == 2;
      assert t[0] == [1, 2];
    }
  }

  // ---------------------------------------------------------------------------
  // from_mapping

  /** `from_mapping`: the transposed array of the keys, and the values as floats, in one order. */
  function FromMapping(entries: seq<(Item, real)>): Result<(IntArray, seq<real>), Error> {
    match AsArray(Keys(entries))
    case Err(e) => Err(e)
    case Ok(arr) => Ok((Transpose(arr), Values(entries)))
  }

  /**
   * The i-th state of the state array is the key of the i-th value: column i
   * for tuple keys, entry i for integer keys (no vstack is applied here).
   */
  lemma FromMappingPairs(entries: seq<(Item, real)>, d: nat)
    ensures FromMapping(entries).Ok? <==> AsArray(Keys(entries)).Ok?
    ensures FromMapping(entries).Ok? ==>
      && |FromMapping(entries).value.1| == |entries|
      && forall i :: 0 <= i < |entries| ==> FromMapping(entries).value.1[i] == entries[i].1
    ensures |entries| > 0 && AllTuplesOf(Keys(entries), d) ==>
      var (states, _) := FromMapping(entries).value;
      && states.Grid? && Rectangular(states) && states.height == d && states.width == |entries|
      && forall i, j :: 0 <= i < d && 0 <= j < |entries| ==> states.rows[i][j] == entries[j].0.coords[i]
    ensures AllScalars(Keys(entries)) ==>
      var (states, _) := FromMapping(entries).value;
      && states.Vector? && |states.elems| == |entries|
      && forall j :: 0 <= j < |entries| ==> states.elems[j] == entries[j].0.x
  {
    if |entries| > 0 && AllTuplesOf(Keys(entries), d) {
      assert Keys(entries)[0].Tuple?;
    }
  }

  /** `from_mapping` lists its states exactly as `from_iter` does, except for scalar keys. */
  lemma FromMappingAgreesWithFromIter(entries: seq<(Item, real)>, d: nat)
    requires |entries| > 0 && AllTuplesOf(Keys(entries), d)
    ensures FromMapping(entries).Ok? && FromIter(MappingOf(entries)) == Ok(FromMapping(entries).value.0)
  {
    assert Keys(entries)[0].Tuple?;
  }

  // ---------------------------------------------------------------------------
  // from_rect

  /** The row-major position of the multi-index `idx` in an array of the given shape. */
  function Offset(shape: seq<nat>, idx: seq<nat>): nat
    requires |idx| == |shape|
  {
    if shape == [] then 0 else idx[0] * Product(shape[1..]) + Offset(shape[1..], idx[1..])
  }

  predicate InBounds(shape: seq<nat>, idx: seq<nat>) {
    |idx| == |shape| && forall k :: 0 <= k < |shape| ==> idx[k] < shape[k]
  }

  lemma MulMonotone(a: nat, b: nat, p: nat)
    requires a <= b
    ensures a * p <= b * p
  {
    var c := b - a;
    assert b * p == a * p + c * p;
  }

  /** A multi-index within bounds names a stored element. */
  lemma {:induction false} OffsetInRange(shape: seq<nat>, idx: seq<nat>)
    requires InBounds(shape, idx)
    ensures Offset(shape, idx) < Product(shape)
  {
    if shape != [] {
      var p := Product(shape[1..]);
      assert InBounds(shape[1..], idx[1..]) by {
        assert forall k :: 0 <= k < |shape| - 1 ==> shape[1..][k] == shape[k + 1] && idx[1..][k] == idx[k + 1];
      }
      OffsetInRange(shape[1..], idx[1..]);
      MulMonotone(idx[0] + 1, shape[0], p);
      assert (idx[0] + 1) * p == idx[0] * p + p;
    }
  }

  /**
   * The reshape in `from_rect`: `indices_ext` gives one coordinate array per
   * dimension, and all axes after the first are flattened into columns.
   */
  function FromRect(indices: NdArray<int>): Result<NdArray<int>, Error>
    requires |indices.flat| == Product(indices.shape)
  {
    if indices.shape == [] then Err(Unsized)
    else if indices.shape[0] == 0 then Err(AmbiguousReshape)
    else Ok(NdArray([indices.shape[0], Product(indices.shape[1..])], indices.flat))
  }

  /** The row-major position in a two-dimensional array of n rows of w entries. */
  lemma OffsetTwoDimensional(n: nat, w: nat, i: nat, c: nat)
    ensures Offset([n, w], [i, c]) == i * w + c
  {
    assert [n, w][1..] == [w] && [i, c][1..] == [c];
    assert Product([w]) == w * Product([]);
    assert Offset([w], [c]) == c * Product([]) + Offset([], []);
  }

  lemma InBoundsTail(shape: seq<nat>, idx: seq<nat>)
    requires InBounds(shape, idx) && shape != []
    ensures InBounds(shape[1..], idx[1..])
  {
    assert forall j :: 0 <= j < |shape| - 1 ==> shape[1..][j] == shape[j + 1] && idx[1..][j] == idx[j + 1];
  }

  /**
   * `from_rect` succeeds exactly when the first axis is non-empty; it keeps
   * that axis, folds the others into one and keeps the element count.
   */
  lemma FromRectShape(indices: NdArray<int>)
    requires |indices.flat| == Product(indices.shape)
    ensures FromRect(indices).Ok? <==> |indices.shape| > 0 && indices.shape[0] > 0
    ensures FromRect(indices).Ok? ==>
      var r := FromRect(indices).value;
      && |r.shape| == 2 && r.shape[0] == indices.shape[0]
      && Product(r.shape) == Product(indices.shape) == |r.flat|
  {
    if FromRect(indices).Ok? {
      var s := indices.shape;
      var w := Product(s[1..]);
      var r := FromRect(indices).value;
      assert r.shape[1..] == [w];
      assert Product([w]) == w * Product([]);
    }
  }

  /**
   * The element of `indices_ext`'s result at (i, k1, ..., km) is, after
   * `from_rect`, in row i at the column that numbers (k1, ..., km) in
   * row-major order.
   */
  lemma FromRectElement(indices: NdArray<int>, idx: seq<nat>)
    requires |indices.flat| == Product(indices.shape)
    requires FromRect(indices).Ok? && InBounds(indices.shape, idx)
    ensures var r := FromRect(indices).value;
      var c := Offset(indices.shape[1..], idx[1..]);
      && c < r.shape[1]
      && Offset(indices.shape, idx) < |indices.flat|
      && Offset(r.shape, [idx[0], c]) < |r.flat|
      && r.flat[Offset(r.shape, [idx[0], c])] == indices.flat[Offset(indices.shape, idx)]
  {
    var s := indices.shape;
    var w := Product(s[1..]);
    var c := Offset(s[1..], idx[1..]);
    InBoundsTail(s, idx);
    OffsetInRange(s[1..], idx[1..]);
    OffsetTwoDimensional(s[0], w, idx[0], c);
    OffsetInRange(s, idx);
  }
}
