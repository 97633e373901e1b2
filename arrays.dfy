/**
 * numpy arrays as values: a shape and the elements in row-major order,
 * shared by the matrix builder and the state-array conversions.
 */
module Arrays {
  /** The number of elements of an array of the given shape. */
  function Product(s: seq<nat>): nat {
    if s == [] then 1 else s[0] * Product(s[1..])
  }

  /** A numpy array given by its shape and its elements in row-major order. */
  datatype NdArray<T> = NdArray(shape: seq<nat>, flat: seq<T>)

  /** The array holds exactly as many elements as its shape says. */
  predicate Sized<T>(a: NdArray<T>) {
    |a.flat| == Product(a.shape)
  }
}
