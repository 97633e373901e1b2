/**
 * Sparse matrices as lists of coordinate triplets, and the in-place
 * normalisation that `optimise_csr_matrix` applies to them: duplicates summed,
 * explicit zeros removed, entries sorted by (row, column).
 */
module Sparse {

  /** One stored entry: the value `val` at (`row`, `col`). */
  datatype Triplet = Triplet(row: nat, col: nat, val: real)

  /** A sparse matrix value: its shape and its stored entries. */
  datatype Matrix = Matrix(shape: seq<nat>, entries: seq<Triplet>)

  predicate KeyLess(a: Triplet, b: Triplet) {
    a.row < b.row || (a.row == b.row && a.col < b.col)
  }

  predicate SameKey(a: Triplet, b: Triplet) {
    a.row == b.row && a.col == b.col
  }

  /** Sorted by (row, column), every key stored at most once. */
  predicate StrictlySorted(ts: seq<Triplet>) {
    forall i, j :: 0 <= i < j < |ts| ==> KeyLess(ts[i], ts[j])
  }

  /** Sorted by (row, column), equal keys allowed. */
  predicate Sorted(ts: seq<Triplet>) {
    forall i, j :: 0 <= i < j < |ts| ==> !KeyLess(ts[j], ts[i])
  }

  predicate NoZeros(ts: seq<Triplet>) {
    forall i :: 0 <= i < |ts| ==> ts[i].val != 0.0
  }

  /** The canonical storage of a CSR matrix: sorted, no duplicates, no stored zeros. */
  predicate Canonical(ts: seq<Triplet>) {
    StrictlySorted(ts) && NoZeros(ts)
  }

  /** Every stored entry lies inside an `nrows` by `ncols` matrix. */
  predicate InShape(ts: seq<Triplet>, nrows: nat, ncols: nat) {
    forall i :: 0 <= i < |ts| ==> ts[i].row < nrows && ts[i].col < ncols
  }

  /**
   * The linear functional that weighs every stored entry by `w(row, col)`.
   * Reading one entry of the represented matrix, a column sum and one row of a
   * matrix-vector product are all of this form, so a normalisation that keeps
   * every `Weigh` keeps all three.
   */
  function Weigh(ts: seq<Triplet>, w: (nat, nat) -> real): real {
    if ts == [] then 0.0 else Weight(ts[0], w) + Weigh(ts[1..], w)
  }

  /** The contribution of one stored entry to `Weigh`. */
  function Weight(t: Triplet, w: (nat, nat) -> real): real {
    t.val * w(t.row, t.col)
  }

  /** Selects the single entry (r, c). */
  function EntryWeight(r: nat, c: nat): (nat, nat) -> real {
    (i: nat, j: nat) => if i == r && j == c then 1.0 else 0.0
  }

  /** Selects every entry of column c. */
  function ColumnWeight(c: nat): (nat, nat) -> real {
    (i: nat, j: nat) => if j == c then 1.0 else 0.0
  }

  /** The entry at (r, c) of the represented matrix: the sum of the values stored there. */
  function At(ts: seq<Triplet>, r: nat, c: nat): real {
    Weigh(ts, EntryWeight(r, c))
  }

  /** The sum of column c of the represented matrix. */
  function ColSum(ts: seq<Triplet>, c: nat): real {
    Weigh(ts, ColumnWeight(c))
  }

  lemma {:induction false} WeighAppend(a: seq<Triplet>, b: seq<Triplet>, w: (nat, nat) -> real)
    ensures Weigh(a + b, w) == Weigh(a, w) + Weigh(b, w)
  {
    if a == [] {
      assert a + b == b;
    } else {
      assert (a + b)[1..] == a[1..] + b;
      WeighAppend(a[1..], b, w);
    }
  }

  // ---------------------------------------------------------------------------
  // sum_duplicates: sort, then add up the values stored under one key

  /** Adds `e` to a strictly sorted list, summing it into an entry with the same key. */
  function Merge(e: Triplet, ts: seq<Triplet>): seq<Triplet>
    decreases |ts|
  {
    if ts == [] then [e]
    else if KeyLess(e, ts[0]) then [e] + ts
    else if SameKey(e, ts[0]) then [Triplet(e.row, e.col, e.val + ts[0].val)] + ts[1..]
    else [ts[0]] + Merge(e, ts[1..])
  }

  function Summed(ts: seq<Triplet>): seq<Triplet> {
    if ts == [] then [] else Merge(ts[0], Summed(ts[1..]))
  }

  lemma {:induction false} MergeWeigh(e: Triplet, ts: seq<Triplet>, w: (nat, nat) -> real)
    ensures Weigh(Merge(e, ts), w) == Weight(e, w) + Weigh(ts, w)
    decreases |ts|
  {
    if ts == [] || KeyLess(e, ts[0]) {
      assert ([e] + ts)[1..] == ts;
    } else if SameKey(e, ts[0]) {
      var s := Triplet(e.row, e.col, e.val + ts[0].val);
      assert ([s] + ts[1..])[1..] == ts[1..];
      assert Weight(s, w) == Weight(e, w) + Weight(ts[0], w);
    } else {
      assert ([ts[0]] + Merge(e, ts[1..]))[1..] == Merge(e, ts[1..]);
      MergeWeigh(e, ts[1..], w);
    }
  }

  lemma {:induction false} SummedWeigh(ts: seq<Triplet>, w: (nat, nat) -> real)
    ensures Weigh(Summed(ts), w) == Weigh(ts, w)
  {
    if ts != [] {
      SummedWeigh(ts[1..], w);
      MergeWeigh(ts[0], Summed(ts[1..]), w);
    }
  }

  lemma {:induction false} MergeKeys(e: Triplet, ts: seq<Triplet>, x: Triplet)
    requires x in Merge(e, ts)
    ensures SameKey(x, e) || x in ts
    decreases |ts|
  {
    if ts == [] || KeyLess(e, ts[0]) || SameKey(e, ts[0]) {
    } else if x != ts[0] {
      MergeKeys(e, ts[1..], x);
    }
  }

  /** Prepending an entry below every key of a strictly sorted list keeps it strictly sorted. */
  lemma ConsStrictlySorted(h: Triplet, ts: seq<Triplet>)
    requires StrictlySorted(ts)
    requires forall x :: x in ts ==> KeyLess(h, x)
    ensures StrictlySorted([h] + ts)
  {
    forall i, j | 0 <= i < j < |[h] + ts|
      ensures KeyLess(([h] + ts)[i], ([h] + ts)[j])
    {
      if i > 0 {
        assert ([h] + ts)[i] == ts[i - 1] && ([h] + ts)[j] == ts[j - 1];
      } else {
        assert ([h] + ts)[j] == ts[j - 1];
        assert ts[j - 1] in ts;
      }
    }
  }

  lemma {:induction false} MergeStrictlySorted(e: Triplet, ts: seq<Triplet>)
    requires StrictlySorted(ts)
    ensures StrictlySorted(Merge(e, ts))
    decreases |ts|
  {
    if ts == [] {
    } else if KeyLess(e, ts[0]) {
      forall x | x in ts ensures KeyLess(e, x) {
        var k :| 0 <= k < |ts| && ts[k] == x;
        if k > 0 { assert KeyLess(ts[0], ts[k]); }
      }
      ConsStrictlySorted(e, ts);
    } else if SameKey(e, ts[0]) {
      var s := Triplet(e.row, e.col, e.val + ts[0].val);
      forall x | x in ts[1..] ensures KeyLess(s, x) {
        var k :| 0 <= k < |ts[1..]| && ts[1..][k] == x;
        assert KeyLess(ts[0], ts[k + 1]);
      }
      ConsStrictlySorted(s, ts[1..]);
    } else {
      MergeStrictlySorted(e, ts[1..]);
      forall x | x in Merge(e, ts[1..]) ensures KeyLess(ts[0], x) {
        MergeKeys(e, ts[1..], x);
        if x in ts[1..] {
          var k :| 0 <= k < |ts[1..]| && ts[1..][k] == x;
          assert KeyLess(ts[0], ts[k + 1]);
        }
      }
      ConsStrictlySorted(ts[0], Merge(e, ts[1..]));
    }
  }

  lemma {:induction false} SummedStrictlySorted(ts: seq<Triplet>)
    ensures StrictlySorted(Summed(ts))
  {
    if ts != [] {
      SummedStrictlySorted(ts[1..]);
      MergeStrictlySorted(ts[0], Summed(ts[1..]));
    }
  }

  lemma {:induction false} MergeInShape(e: Triplet, ts: seq<Triplet>, nrows: nat, ncols: nat)
    requires e.row < nrows && e.col < ncols && InShape(ts, nrows, ncols)
    ensures InShape(Merge(e, ts), nrows, ncols)
    decreases |ts|
  {
    if ts != [] && !KeyLess(e, ts[0]) && !SameKey(e, ts[0]) {
      MergeInShape(e, ts[1..], nrows, ncols);
      assert InShape(ts[1..], nrows, ncols) by {
        forall i | 0 <= i < |ts[1..]| ensures ts[1..][i].row < nrows && ts[1..][i].col < ncols {
          assert ts[1..][i] == ts[i + 1];
        }
      }
    }
  }

  lemma {:induction false} SummedInShape(ts: seq<Triplet>, nrows: nat, ncols: nat)
    requires InShape(ts, nrows, ncols)
    ensures InShape(Summed(ts), nrows, ncols)
  {
    if ts != [] {
      assert InShape(ts[1..], nrows, ncols) by {
        forall i | 0 <= i < |ts[1..]| ensures ts[1..][i].row < nrows && ts[1..][i].col < ncols {
          assert ts[1..][i] == ts[i + 1];
        }
      }
      SummedInShape(ts[1..], nrows, ncols);
      MergeInShape(ts[0], Summed(ts[1..]), nrows, ncols);
    }
  }

  /** On a list that already has no duplicate keys, summing duplicates changes nothing. */
  lemma {:induction false} SummedOfStrictlySorted(ts: seq<Triplet>)
    requires StrictlySorted(ts)
    ensures Summed(ts) == ts
  {
    if ts != [] {
      assert StrictlySorted(ts[1..]) by {
        forall i, j | 0 <= i < j < |ts[1..]| ensures KeyLess(ts[1..][i], ts[1..][j]) {
          assert ts[1..][i] == ts[i + 1] && ts[1..][j] == ts[j + 1];
        }
      }
      SummedOfStrictlySorted(ts[1..]);
      if |ts| > 1 {
        assert KeyLess(ts[0], ts[1]);
      }
      assert [ts[0]] + ts[1..] == ts;
    }
  }

  // ---------------------------------------------------------------------------
  // eliminate_zeros: drop the stored entries whose value is zero

  function NonZero(ts: seq<Triplet>): seq<Triplet> {
    if ts == [] then [] else (if ts[0].val == 0.0 then [] else [ts[0]]) + NonZero(ts[1..])
  }

  lemma {:induction false} NonZeroWeigh(ts: seq<Triplet>, w: (nat, nat) -> real)
    ensures Weigh(NonZero(ts), w) == Weigh(ts, w)
  {
    if ts != [] {
      NonZeroWeigh(ts[1..], w);
      WeighAppend(if ts[0].val == 0.0 then [] else [ts[0]], NonZero(ts[1..]), w);
    }
  }

  lemma {:induction false} NonZeroMembers(ts: seq<Triplet>, x: Triplet)
    requires x in NonZero(ts)
    ensures x in ts && x.val != 0.0
  {
    if ts != [] && !(ts[0].val != 0.0 && x == ts[0]) {
      NonZeroMembers(ts[1..], x);
    }
  }

  lemma {:induction false} NonZeroProperties(ts: seq<Triplet>)
    ensures NoZeros(NonZero(ts))
    ensures StrictlySorted(ts) ==> StrictlySorted(NonZero(ts))
  {
    if ts != [] {
      NonZeroProperties(ts[1..]);
      var tail := NonZero(ts[1..]);
      forall x | x in tail ensures x.val != 0.0 { NonZeroMembers(ts[1..], x); }
      forall i | 0 <= i < |NonZero(ts)| ensures NonZero(ts)[i].val != 0.0 {
        assert NonZero(ts)[i] in NonZero(ts);
        if ts[0].val != 0.0 && i > 0 { assert NonZero(ts)[i] == tail[i - 1]; }
        if ts[0].val == 0.0 { assert NonZero(ts)[i] == tail[i]; }
      }
      if StrictlySorted(ts) {
        assert StrictlySorted(ts[1..]) by {
          forall i, j | 0 <= i < j < |ts[1..]| ensures KeyLess(ts[1..][i], ts[1..][j]) {
            assert ts[1..][i] == ts[i + 1] && ts[1..][j] == ts[j + 1];
          }
        }
        if ts[0].val != 0.0 {
          forall x | x in tail ensures KeyLess(ts[0], x) {
            NonZeroMembers(ts[1..], x);
            var k :| 0 <= k < |ts[1..]| && ts[1..][k] == x;
            assert KeyLess(ts[0], ts[k + 1]);
          }
          ConsStrictlySorted(ts[0], tail);
        } else {
          assert NonZero(ts) == tail;
        }
      }
    }
  }

  lemma {:induction false} NonZeroInShape(ts: seq<Triplet>, nrows: nat, ncols: nat)
    requires InShape(ts, nrows, ncols)
    ensures InShape(NonZero(ts), nrows, ncols)
  {
    forall i | 0 <= i < |NonZero(ts)|
      ensures NonZero(ts)[i].row < nrows && NonZero(ts)[i].col < ncols
    {
      NonZeroMembers(ts, NonZero(ts)[i]);
    }
  }

  lemma {:induction false} NonZeroOfNoZeros(ts: seq<Triplet>)
    requires NoZeros(ts)
    ensures NonZero(ts) == ts
  {
    if ts != [] {
      NonZeroOfNoZeros(ts[1..]);
      assert [ts[0]] + ts[1..] == ts;
    }
  }

  // ---------------------------------------------------------------------------
  // sort_indices: a stable sort by (row, column)

  function InsertByKey(e: Triplet, ts: seq<Triplet>): seq<Triplet>
    decreases |ts|
  {
    if ts == [] || !KeyLess(ts[0], e) then [e] + ts else [ts[0]] + InsertByKey(e, ts[1..])
  }

  function SortedByKey(ts: seq<Triplet>): seq<Triplet> {
    if ts == [] then [] else InsertByKey(ts[0], SortedByKey(ts[1..]))
  }

  lemma {:induction false} InsertByKeyWeigh(e: Triplet, ts: seq<Triplet>, w: (nat, nat) -> real)
    ensures Weigh(InsertByKey(e, ts), w) == Weight(e, w) + Weigh(ts, w)
    decreases |ts|
  {
    if ts == [] || !KeyLess(ts[0], e) {
      assert ([e] + ts)[1..] == ts;
    } else {
      assert ([ts[0]] + InsertByKey(e, ts[1..]))[1..] == InsertByKey(e, ts[1..]);
      InsertByKeyWeigh(e, ts[1..], w);
    }
  }

  lemma {:induction false} SortedByKeyWeigh(ts: seq<Triplet>, w: (nat, nat) -> real)
    ensures Weigh(SortedByKey(ts), w) == Weigh(ts, w)
  {
    if ts != [] {
      SortedByKeyWeigh(ts[1..], w);
      InsertByKeyWeigh(ts[0], SortedByKey(ts[1..]), w);
    }
  }

  lemma {:induction false} InsertByKeyMultiset(e: Triplet, ts: seq<Triplet>)
    ensures multiset(InsertByKey(e, ts)) == multiset(ts) + multiset{e}
    decreases |ts|
  {
    if ts != [] && KeyLess(ts[0], e) {
      InsertByKeyMultiset(e, ts[1..]);
      assert ts == [ts[0]] + ts[1..];
    }
  }

  lemma {:induction false} SortedByKeyMultiset(ts: seq<Triplet>)
    ensures multiset(SortedByKey(ts)) == multiset(ts)
  {
    if ts != [] {
      SortedByKeyMultiset(ts[1..]);
      InsertByKeyMultiset(ts[0], SortedByKey(ts[1..]));
      assert ts == [ts[0]] + ts[1..];
    }
  }

  lemma {:induction false} InsertByKeySorted(e: Triplet, ts: seq<Triplet>)
    requires Sorted(ts)
    ensures Sorted(InsertByKey(e, ts))
    decreases |ts|
  {
    var r := InsertByKey(e, ts);
    InsertByKeyMultiset(e, ts);
    if ts == [] || !KeyLess(ts[0], e) {
      forall i, j | 0 <= i < j < |r| ensures !KeyLess(r[j], r[i]) {
        if i > 0 {
          assert r[i] == ts[i - 1] && r[j] == ts[j - 1];
        } else {
          assert r[j] == ts[j - 1];
          if j > 1 { assert !KeyLess(ts[j - 1], ts[0]); }
        }
      }
    } else {
      assert Sorted(ts[1..]) by {
        forall i, j | 0 <= i < j < |ts[1..]| ensures !KeyLess(ts[1..][j], ts[1..][i]) {
          assert ts[1..][i] == ts[i + 1] && ts[1..][j] == ts[j + 1];
        }
      }
      InsertByKeySorted(e, ts[1..]);
      var tail := InsertByKey(e, ts[1..]);
      InsertByKeyMultiset(e, ts[1..]);
      forall j | 0 <= j < |tail| ensures !KeyLess(tail[j], ts[0]) {
        assert tail[j] in multiset(tail);
        assert tail[j] in multiset(ts[1..]) + multiset{e};
        if tail[j] != e {
          assert tail[j] in ts[1..];
          var k :| 0 <= k < |ts[1..]| && ts[1..][k] == tail[j];
          assert ts[1..][k] == ts[k + 1];
        }
      }
      forall i, j | 0 <= i < j < |r| ensures !KeyLess(r[j], r[i]) {
        assert r[j] == tail[j - 1];
        if i > 0 { assert r[i] == tail[i - 1]; }
      }
    }
  }

  lemma {:induction false} SortedByKeySorts(ts: seq<Triplet>)
    ensures Sorted(SortedByKey(ts))
  {
    if ts != [] {
      SortedByKeySorts(ts[1..]);
      InsertByKeySorted(ts[0], SortedByKey(ts[1..]));
    }
  }

  /** Sorting a list that is already sorted by key changes nothing. */
  lemma {:induction false} SortedByKeyOfSorted(ts: seq<Triplet>)
    requires Sorted(ts)
    ensures SortedByKey(ts) == ts
  {
    if ts != [] {
      assert Sorted(ts[1..]) by {
        forall i, j | 0 <= i < j < |ts[1..]| ensures !KeyLess(ts[1..][j], ts[1..][i]) {
          assert ts[1..][i] == ts[i + 1] && ts[1..][j] == ts[j + 1];
        }
      }
      SortedByKeyOfSorted(ts[1..]);
      if |ts| > 1 { assert !KeyLess(ts[1], ts[0]); }
      assert [ts[0]] + ts[1..] == ts;
    }
  }

  lemma StrictlySortedIsSorted(ts: seq<Triplet>)
    requires StrictlySorted(ts)
    ensures Sorted(ts)
  {
    forall i, j | 0 <= i < j < |ts| ensures !KeyLess(ts[j], ts[i]) {
      assert KeyLess(ts[i], ts[j]);
    }
  }

  lemma SortedByKeyInShape(ts: seq<Triplet>, nrows: nat, ncols: nat)
    requires InShape(ts, nrows, ncols)
    ensures InShape(SortedByKey(ts), nrows, ncols)
  {
    SortedByKeyMultiset(ts);
    forall i | 0 <= i < |SortedByKey(ts)|
      ensures SortedByKey(ts)[i].row < nrows && SortedByKey(ts)[i].col < ncols
    {
      assert SortedByKey(ts)[i] in multiset(SortedByKey(ts));
      assert SortedByKey(ts)[i] in ts;
    }
  }

  // ---------------------------------------------------------------------------
  // optimise_csr_matrix: the three steps in the order the source applies them

  function Normalised(ts: seq<Triplet>): seq<Triplet> {
    SortedByKey(NonZero(Summed(ts)))
  }

  /** After normalisation the storage is canonical: sorted, no duplicate keys, no zeros. */
  lemma NormalisedCanonical(ts: seq<Triplet>)
    ensures Canonical(Normalised(ts))
    ensures Normalised(ts) == NonZero(Summed(ts))
  {
    SummedStrictlySorted(ts);
    NonZeroProperties(Summed(ts));
    StrictlySortedIsSorted(NonZero(Summed(ts)));
    SortedByKeyOfSorted(NonZero(Summed(ts)));
  }

  /** Normalisation does not change the represented matrix. */
  lemma NormalisedWeigh(ts: seq<Triplet>, w: (nat, nat) -> real)
    ensures Weigh(Normalised(ts), w) == Weigh(ts, w)
  {
    SummedWeigh(ts, w);
    NonZeroWeigh(Summed(ts), w);
    SortedByKeyWeigh(NonZero(Summed(ts)), w);
  }

  lemma NormalisedAt(ts: seq<Triplet>, r: nat, c: nat)
    ensures At(Normalised(ts), r, c) == At(ts, r, c)
  {
    NormalisedWeigh(ts, EntryWeight(r, c));
  }

  lemma NormalisedColSum(ts: seq<Triplet>, c: nat)
    ensures ColSum(Normalised(ts), c) == ColSum(ts, c)
  {
    NormalisedWeigh(ts, ColumnWeight(c));
  }

  lemma NormalisedInShape(ts: seq<Triplet>, nrows: nat, ncols: nat)
    requires InShape(ts, nrows, ncols)
    ensures InShape(Normalised(ts), nrows, ncols)
  {
    SummedInShape(ts, nrows, ncols);
    NonZeroInShape(Summed(ts), nrows, ncols);
    SortedByKeyInShape(NonZero(Summed(ts)), nrows, ncols);
  }

  /** Canonical storage is a fixed point, so optimising twice is optimising once. */
  lemma NormalisedIdempotent(ts: seq<Triplet>)
    ensures Normalised(Normalised(ts)) == Normalised(ts)
  {
    var n := Normalised(ts);
    NormalisedCanonical(ts);
    SummedOfStrictlySorted(n);
    NonZeroOfNoZeros(n);
    StrictlySortedIsSorted(n);
    SortedByKeyOfSorted(n);
  }

  /** A scipy CSR matrix, reduced to what the model needs: its shape and its stored entries. */
  class CsrMatrix {
    var shape: seq<nat>
    var entries: seq<Triplet>

    /** Converting coordinate-format data: the entries are stored as given. */
    constructor (shape: seq<nat>, coo: seq<Triplet>)
      ensures this.shape == shape && entries == coo
    {
      this.shape := shape;
      entries := coo;
    }

    function Value(): Matrix
      reads this
    {
      Matrix(shape, entries)
    }

    method SumDuplicates()
      modifies this
      ensures shape == old(shape) && entries == Summed(old(entries))
      ensures StrictlySorted(entries)
      ensures forall w :: Weigh(entries, w) == Weigh(old(entries), w)
    {
      forall w { SummedWeigh(entries, w); }
      SummedStrictlySorted(entries);
      entries := Summed(entries);
    }

    method EliminateZeros()
      modifies this
      ensures shape == old(shape) && entries == NonZero(old(entries))
      ensures NoZeros(entries) && (StrictlySorted(old(entries)) ==> StrictlySorted(entries))
      ensures forall w :: Weigh(entries, w) == Weigh(old(entries), w)
    {
      forall w { NonZeroWeigh(entries, w); }
      NonZeroProperties(entries);
      entries := NonZero(entries);
    }

    method SortIndices()
      modifies this
      ensures shape == old(shape) && entries == SortedByKey(old(entries))
      ensures Sorted(entries) && multiset(entries) == multiset(old(entries))
      ensures Sorted(old(entries)) ==> entries == old(entries)
    {
      SortedByKeySorts(entries);
      SortedByKeyMultiset(entries);
      if Sorted(entries) { SortedByKeyOfSorted(entries); }
      entries := SortedByKey(entries);
    }
  }

  /** Normalises `m` in place; the represented matrix and the shape stay the same. */
  method OptimiseCsrMatrix(m: CsrMatrix)
    modifies m
    ensures m.shape == old(m.shape) && m.entries == Normalised(old(m.entries))
    ensures Canonical(m.entries)
    ensures forall w :: Weigh(m.entries, w) == Weigh(old(m.entries), w)
  {
    m.SumDuplicates();
    m.EliminateZeros();
    m.SortIndices();
    NormalisedCanonical(old(m.entries));
  }

  /** Zips the three parallel coordinate arrays (`rows`, `cols`, `data`) into triplets. */
  function Zip(rows: seq<nat>, cols: seq<nat>, data: seq<real>): (ts: seq<Triplet>)
    requires |rows| == |cols| == |data|
    ensures |ts| == |rows|
    ensures forall p :: 0 <= p < |ts| ==> ts[p] == Triplet(rows[p], cols[p], data[p])
  {
    if rows == [] then [] else [Triplet(rows[0], cols[0], data[0])] + Zip(rows[1..], cols[1..], data[1..])
  }

  lemma {:induction false} ZipAppend(r1: seq<nat>, c1: seq<nat>, d1: seq<real>, r2: seq<nat>, c2: seq<nat>, d2: seq<real>)
    requires |r1| == |c1| == |d1| && |r2| == |c2| == |d2|
    ensures Zip(r1 + r2, c1 + c2, d1 + d2) == Zip(r1, c1, d1) + Zip(r2, c2, d2)
  {
  }

  predicate Increasing(xs: seq<nat>) {
    forall i, j :: 0 <= i < j < |xs| ==> xs[i] < xs[j]
  }

  /** A column that no triplet names holds nothing. */
  lemma {:induction false} AtZipAbsent(rows: seq<nat>, cols: seq<nat>, data: seq<real>, r: nat, c: nat)
    requires |rows| == |cols| == |data|
    requires c !in cols
    ensures At(Zip(rows, cols, data), r, c) == 0.0
  {
    if rows != [] {
      AtZipAbsent(rows[1..], cols[1..], data[1..], r, c);
    }
  }

  /** When every column is named once, entry (r, cols[p]) is data[p] if rows[p] is r, else zero. */
  lemma {:induction false} AtZipDistinct(rows: seq<nat>, cols: seq<nat>, data: seq<real>, p: nat, r: nat)
    requires |rows| == |cols| == |data|
    requires Increasing(cols) && p < |cols|
    ensures At(Zip(rows, cols, data), r, cols[p]) == if rows[p] == r then data[p] else 0.0
  {
    assert Increasing(cols[1..]) by {
      forall i, j | 0 <= i < j < |cols[1..]| ensures cols[1..][i] < cols[1..][j] {
        assert cols[1..][i] == cols[i + 1] && cols[1..][j] == cols[j + 1];
      }
    }
    if p == 0 {
      assert cols[0] !in cols[1..] by {
        forall k | 0 <= k < |cols[1..]| ensures cols[1..][k] != cols[0] {
          assert cols[1..][k] == cols[k + 1];
        }
      }
      AtZipAbsent(rows[1..], cols[1..], data[1..], r, cols[0]);
    } else {
      assert cols[0] < cols[p];
      AtZipDistinct(rows[1..], cols[1..], data[1..], p - 1, r);
    }
  }

  function Negated(a: seq<real>): (r: seq<real>)
    ensures |r| == |a| && forall p :: 0 <= p < |a| ==> r[p] == -a[p]
  {
    seq(|a|, p requires 0 <= p < |a| => -a[p])
  }

  /**
   * Two triplet lists over the same columns with opposite values cancel in
   * every column sum, whatever rows they name.
   */
  lemma {:induction false} ZipColumnsCancel(out: seq<nat>, into: seq<nat>, cols: seq<nat>, data: seq<real>, c: nat)
    requires |out| == |into| == |cols| == |data|
    ensures ColSum(Zip(out, cols, Negated(data)), c) + ColSum(Zip(into, cols, data), c) == 0.0
  {
    if cols != [] {
      assert Negated(data)[1..] == Negated(data[1..]);
      ZipColumnsCancel(out[1..], into[1..], cols[1..], data[1..], c);
    }
  }

  lemma ZipInShape(rows: seq<nat>, cols: seq<nat>, data: seq<real>, nrows: nat, ncols: nat)
    requires |rows| == |cols| == |data|
    requires forall p :: 0 <= p < |rows| ==> rows[p] < nrows && cols[p] < ncols
    ensures InShape(Zip(rows, cols, data), nrows, ncols)
  {
  }

  lemma InShapeAppend(a: seq<Triplet>, b: seq<Triplet>, nrows: nat, ncols: nat)
    requires InShape(a, nrows, ncols) && InShape(b, nrows, ncols)
    ensures InShape(a + b, nrows, ncols)
  {
    forall i | 0 <= i < |a + b| ensures (a + b)[i].row < nrows && (a + b)[i].col < ncols {
      if i >= |a| { assert (a + b)[i] == b[i - |a|]; }
    }
  }
}
