/** The batch operations act on whole rows: every column, whichever library holds it, is moved by one and the
    same map of row numbers (Latent-GRPO/verl-0.4.x/verl/protocol.py:140-176,434-838). */
module DataProtoLaws {
  import opened Options
  import opened TensorOps
  import opened DataProto

  // ----- columns moved alike are rows moved -----

  /** Every column of e is the column of d under the same map of row numbers. */
  ghost predicate Moved(d: Data, e: Data, n: nat, index: seq<nat>) {
    && Aligned(d, n) && Within(index, n)
    && e.columns.Keys == d.columns.Keys && e.batchSize == SizeOf(d.batchSize, |index|)
    && forall key | key in d.columns :: e.columns[key] == Gather(d.columns[key], index)
  }

  lemma MovedRows(d: Data, e: Data, n: nat, index: seq<nat>)
    requires Moved(d, e, n, index)
    ensures Aligned(e, |index|) && Rows(e, |index|) == Gather(Rows(d, n), index)
  {
    if |index| > 0 {
      assert index[0] < n;
    }
    forall i | 0 <= i < |index|
      ensures Rows(e, |index|)[i] == Rows(d, n)[index[i]]
    {
      assert RowAt(e, i) == RowAt(d, index[i]);
    }
  }

  /** `select_idxs`: row i of the result is row index[i], counted from the end when negative. */
  lemma SelectMovesRows(d: Data, n: nat, index: seq<int>)
    requires Aligned(d, n)
    ensures SelectIdxs(d, n, index).Some? <==> InBounds(index, n)
    ensures InBounds(index, n) ==>
              var e := SelectIdxs(d, n, index).value;
              Aligned(e, |index|) && Rows(e, |index|) == Gather(Rows(d, n), WrapIndex(index, n))
    ensures SelectIdxs(d, n, index).Some? <==> forall i | 0 <= i < |index| :: 0 <= index[i] + n && index[i] < n
    ensures SelectIdxs(d, n, index).Some? ==>
              var e := SelectIdxs(d, n, index).value;
              && Aligned(e, |index|)
              && forall i | 0 <= i < |index| ::
                   && (0 <= index[i] < n ==> Rows(e, |index|)[i] == Rows(d, n)[index[i]])
                   && (0 <= index[i] + n < n ==> Rows(e, |index|)[i] == Rows(d, n)[index[i] + n])
  {
    if InBounds(index, n) {
      MovedRows(d, SelectIdxs(d, n, index).value, n, WrapIndex(index, n));
    }
  }

  /** A mask keeps the marked rows, each once and in order. */
  lemma {:induction false} MaskKeepsMarked(mask: seq<bool>, i: nat, j: nat)
    ensures forall k: nat :: k in MaskIndex(mask) <==> k < |mask| && mask[k]
    ensures i < j < |MaskIndex(mask)| ==> MaskIndex(mask)[i] < MaskIndex(mask)[j]
  {
    if mask != [] {
      MaskKeepsMarked(mask[..|mask| - 1], i, j);
    }
  }

  lemma MaskMovesRows(d: Data, n: nat, mask: seq<bool>)
    requires Aligned(d, n) && |mask| == n
    ensures var e := SelectMask(d, n, mask).value;
            && Aligned(e, |MaskIndex(mask)|)
            && Rows(e, |MaskIndex(mask)|) == Gather(Rows(d, n), MaskIndex(mask))
  {
    MovedRows(d, SelectMask(d, n, mask).value, n, MaskIndex(mask));
  }

  lemma RepeatColumnMoves(key: Key, column: Column, k: nat, interleave: bool)
    ensures var index := if interleave then InterleaveIndex(|column|, k) else StackIndex(|column|, k);
            Within(index, |column|) && RepeatColumn(key, column, k, interleave) == Gather(column, index)
  {
    if interleave {
      InterleaveAgrees(column, k);
      RepeatEachIsGather(column, Copies(k, |column|));
    } else {
      StackAgrees(column, k);
      TileIsGather(column, k);
    }
  }

  function RepeatIndex(n: nat, k: nat, interleave: bool): seq<nat> {
    if interleave then InterleaveIndex(n, k) else StackIndex(n, k)
  }

  lemma RepeatIndexFits(n: nat, k: nat, interleave: bool)
    ensures Within(RepeatIndex(n, k, interleave), n) && |RepeatIndex(n, k, interleave)| == n * k
  {
    InterleaveAgrees(Iota(n), k);
    FlattenUniformSize(seq(n, i requires 0 <= i < n => Copies(Iota(n)[i], k)), k);
    RepeatEachIsGather(Iota(n), Copies(k, n));
    TileIsGather(Iota(n), k);
  }

  /** `repeat`, in both orders: tensors and arrays repeat the same rows. */
  lemma RepeatMovesRows(d: Data, n: nat, k: nat, interleave: bool)
    requires Aligned(d, n)
    ensures var e, index := Repeat(d, n, k, interleave), RepeatIndex(n, k, interleave);
            && |index| == n * k && Within(index, n) && Aligned(e, n * k)
            && Rows(e, n * k) == Gather(Rows(d, n), index)
  {
    RepeatIndexFits(n, k, interleave);
    forall key | key in d.columns
      ensures RepeatColumn(key, d.columns[key], k, interleave) == Gather(d.columns[key], RepeatIndex(n, k, interleave))
    {
      RepeatColumnMoves(key, d.columns[key], k, interleave);
    }
    MovedRows(d, Repeat(d, n, k, interleave), n, RepeatIndex(n, k, interleave));
  }

  /** Interleaved, the k copies of a row stand together. */
  lemma InterleavedPlaces(d: Data, n: nat, k: nat, b: nat, j: nat, m: nat, r: nat)
    requires Aligned(d, n) && b < n && j < k && m == n * k && r == b * k + j
    ensures r < m && Aligned(Repeat(d, n, k, true), m)
    ensures Rows(Repeat(d, n, k, true), m)[r] == RowAt(d, b)
  {
    RepeatMovesRows(d, n, k, true);
    InterleaveAt<nat>(Iota(n), k, b, j, m, r);
  }

  /** Stacked, the whole batch is repeated k times. */
  lemma StackedPlaces(d: Data, n: nat, k: nat, b: nat, j: nat, m: nat, r: nat)
    requires Aligned(d, n) && b < k && j < n && m == n * k && r == b * n + j
    ensures r < m && Aligned(Repeat(d, n, k, false), m)
    ensures Rows(Repeat(d, n, k, false), m)[r] == RowAt(d, j)
  {
    RepeatMovesRows(d, n, k, false);
    StackAt<nat>(Iota(n), k, b, j, m, r);
  }

  /** `sample_level_repeat`: rows stay in order and row b appears counts[b] times. */
  lemma SampleRepeatMovesRows(d: Data, n: nat, counts: seq<nat>)
    requires Aligned(d, n)
    ensures SampleLevelRepeat(d, n, counts).Some? <==> |counts| == n
    ensures |counts| == n ==>
              var e, index := SampleLevelRepeat(d, n, counts).value, RepeatEach(Iota(n), counts);
              && Within(index, n) && |index| == Sum(counts) && Aligned(e, Sum(counts))
              && Rows(e, Sum(counts)) == Gather(Rows(d, n), index)
  {
    if |counts| == n {
      var index := RepeatEach(Iota(n), counts);
      RepeatEachSize(Iota(n), counts);
      RepeatEachIsGather(Iota(n), counts);
      forall key | key in d.columns
        ensures RepeatEach(d.columns[key], counts) == Gather(d.columns[key], index)
      {
        RepeatEachIsGather(d.columns[key], counts);
      }
      MovedRows(d, SampleLevelRepeat(d, n, counts).value, n, index);
    }
  }

  /** Reordering by a permutation and then by its inverse changes nothing. */
  lemma ReorderUndone(d: Data, n: nat, p: seq<nat>, q: seq<nat>)
    requires Aligned(d, n) && Within(p, n) && Within(q, |p|) && Gather(p, q) == Iota(n)
    ensures SelectIdxs(d, n, p).Some?
    ensures SelectIdxs(SelectIdxs(d, n, p).value, |p|, q) == Some(d)
  {
    var e := SelectIdxs(d, n, p).value;
    assert WrapIndex(p, n) == p && WrapIndex(q, |p|) == q;
    var back := SelectIdxs(e, |p|, q).value;
    forall key | key in d.columns
      ensures back.columns[key] == d.columns[key]
    {
      GatherTwice(d.columns[key], p, q);
    }
    assert |q| == |Gather(p, q)| == n;
    assert back.columns == d.columns;
  }

  // ----- slices and concatenation -----

  lemma SliceRows(d: Data, n: nat, lo: nat, hi: nat)
    requires Aligned(d, n) && lo <= hi <= n
    ensures Aligned(Slice(d, lo, hi), hi - lo)
    ensures Rows(Slice(d, lo, hi), hi - lo) == Rows(d, n)[lo..hi]
  {
    forall i | 0 <= i < hi - lo
      ensures Rows(Slice(d, lo, hi), hi - lo)[i] == Rows(d, n)[lo..hi][i]
    {
      assert RowAt(Slice(d, lo, hi), i) == RowAt(d, lo + i);
    }
  }

  ghost predicate AllAligned(parts: seq<Data>, sizes: seq<nat>) {
    && |parts| == |sizes|
    && (forall i | 0 <= i < |parts| :: Aligned(parts[i], sizes[i]))
    && forall i | 0 <= i < |parts| :: SameKeys(parts[i], parts[0])
  }

  ghost function RowsOfAll(parts: seq<Data>, sizes: seq<nat>): (r: seq<seq<Row>>)
    requires AllAligned(parts, sizes)
    ensures |r| == |parts|
  {
    seq(|parts|, i requires 0 <= i < |parts| => Rows(parts[i], sizes[i]))
  }

  lemma {:induction false} FlattenSize<T>(xss: seq<seq<T>>, sizes: seq<nat>)
    requires |xss| == |sizes| && forall i | 0 <= i < |xss| :: |xss[i]| == sizes[i]
    ensures |Flatten(xss)| == Sum(sizes)
  {
    if xss != [] {
      FlattenSize(xss[..|xss| - 1], sizes[..|xss| - 1]);
    }
  }

  /** Reading one column of joined rows is joining that column. */
  ghost predicate ReadsColumn(rows: seq<Row>, column: Column, key: Key) {
    |rows| == |column| && forall k | 0 <= k < |rows| :: key in rows[k] && rows[k][key] == column[k]
  }

  lemma {:induction false} ColumnOfJoined(blocks: seq<seq<Row>>, columns: seq<Column>, key: Key)
    requires |blocks| == |columns| && forall i | 0 <= i < |blocks| :: ReadsColumn(blocks[i], columns[i], key)
    ensures ReadsColumn(Flatten(blocks), Flatten(columns), key)
  {
    if blocks != [] {
      ColumnOfJoined(blocks[..|blocks| - 1], columns[..|blocks| - 1], key);
    }
  }

  ghost predicate HaveKeys(rows: seq<Row>, keys: set<Key>) {
    forall k | 0 <= k < |rows| :: rows[k].Keys == keys
  }

  lemma {:induction false} KeysOfJoined(blocks: seq<seq<Row>>, keys: set<Key>)
    requires forall i | 0 <= i < |blocks| :: HaveKeys(blocks[i], keys)
    ensures HaveKeys(Flatten(blocks), keys)
  {
    if blocks != [] {
      KeysOfJoined(blocks[..|blocks| - 1], keys);
    }
  }

  lemma SizesMatch(parts: seq<Data>, sizes: seq<nat>)
    requires AllAligned(parts, sizes) && parts != [] && parts[0].batchSize.Some?
    ensures SizesAt(parts) == sizes
  {
    forall i | 0 <= i < |parts|
      ensures SizesAt(parts)[i] == sizes[i]
    {
      assert SameKeys(parts[i], parts[0]) && Aligned(parts[i], sizes[i]);
    }
  }

  /** A table whose columns are the columns of the given rows. */
  lemma RowsFromColumns(d: Data, rows: seq<Row>)
    requires HaveKeys(rows, d.columns.Keys)
    requires forall key | key in d.columns :: ReadsColumn(rows, d.columns[key], key)
    requires Aligned(d, |rows|)
    ensures Rows(d, |rows|) == rows
  {
    forall i | 0 <= i < |rows|
      ensures RowAt(d, i) == rows[i]
    {
      assert RowAt(d, i).Keys == rows[i].Keys;
      forall key | key in rows[i]
        ensures RowAt(d, i)[key] == rows[i][key]
      {
        assert ReadsColumn(rows, d.columns[key], key);
      }
    }
  }

  lemma JoinedColumn(parts: seq<Data>, sizes: seq<nat>, key: Key)
    requires parts != [] && AllAligned(parts, sizes) && key in parts[0].columns
    ensures forall i | 0 <= i < |parts| :: key in parts[i].columns
    ensures ReadsColumn(Flatten(RowsOfAll(parts, sizes)), Flatten(ColumnsAt(parts, key)), key)
  {
    forall i | 0 <= i < |parts|
      ensures key in parts[i].columns && ReadsColumn(RowsOfAll(parts, sizes)[i], parts[i].columns[key], key)
    {
      assert SameKeys(parts[i], parts[0]) && Aligned(parts[i], sizes[i]);
    }
    ColumnOfJoined(RowsOfAll(parts, sizes), ColumnsAt(parts, key), key);
  }

  lemma JoinedKeys(parts: seq<Data>, sizes: seq<nat>)
    requires parts != [] && AllAligned(parts, sizes)
    ensures HaveKeys(Flatten(RowsOfAll(parts, sizes)), parts[0].columns.Keys)
    ensures |Flatten(RowsOfAll(parts, sizes))| == Sum(sizes)
  {
    forall i | 0 <= i < |parts|
      ensures HaveKeys(RowsOfAll(parts, sizes)[i], parts[0].columns.Keys)
    {
      assert SameKeys(parts[i], parts[0]) && Aligned(parts[i], sizes[i]);
    }
    KeysOfJoined(RowsOfAll(parts, sizes), parts[0].columns.Keys);
    FlattenSize(RowsOfAll(parts, sizes), sizes);
  }

  lemma JoinedEmpty(parts: seq<Data>, sizes: seq<nat>)
    requires parts != [] && AllAligned(parts, sizes) && parts[0].batchSize.None?
    ensures parts[0].columns.Keys == {} ==> Sum(sizes) == 0
    ensures forall key | key in parts[0].columns :: key.Array?
  {
    assert Aligned(parts[0], sizes[0]);
    if parts[0].columns.Keys == {} {
      forall i | 0 <= i < |sizes|
        ensures sizes[i] == 0
      {
        assert SameKeys(parts[i], parts[0]) && Aligned(parts[i], sizes[i]);
      }
      SumOfZeros(sizes);
    }
  }

  lemma {:induction false} SumOfZeros(sizes: seq<nat>)
    requires forall i | 0 <= i < |sizes| :: sizes[i] == 0
    ensures Sum(sizes) == 0
  {
    if sizes != [] {
      SumOfZeros(sizes[..|sizes| - 1]);
    }
  }

  lemma ConcatDefined(parts: seq<Data>, sizes: seq<nat>)
    requires parts != [] && AllAligned(parts, sizes)
    ensures Concat(parts).Some? && SameKeys(Concat(parts).value, parts[0])
  {
  }

  lemma ConcatColumn(parts: seq<Data>, sizes: seq<nat>, key: Key)
    requires parts != [] && AllAligned(parts, sizes) && Concat(parts).Some? && key in Concat(parts).value.columns
    ensures ReadsColumn(Flatten(RowsOfAll(parts, sizes)), Concat(parts).value.columns[key], key)
  {
    JoinedColumn(parts, sizes, key);
  }

  lemma ConcatAligned(parts: seq<Data>, sizes: seq<nat>)
    requires parts != [] && AllAligned(parts, sizes)
    requires Concat(parts).Some? && SameKeys(Concat(parts).value, parts[0])
    ensures Aligned(Concat(parts).value, Sum(sizes))
  {
    JoinedKeys(parts, sizes);
    forall key | key in Concat(parts).value.columns
      ensures |Concat(parts).value.columns[key]| == Sum(sizes)
    {
      ConcatColumn(parts, sizes, key);
    }
    if parts[0].batchSize.Some? {
      SizesMatch(parts, sizes);
    } else {
      JoinedEmpty(parts, sizes);
    }
  }

  /** `concat` joins the rows of the parts, in order. */
  lemma ConcatRows(parts: seq<Data>, sizes: seq<nat>)
    requires parts != [] && AllAligned(parts, sizes)
    ensures Concat(parts).Some? && SameKeys(Concat(parts).value, parts[0])
    ensures Aligned(Concat(parts).value, Sum(sizes))
    ensures Rows(Concat(parts).value, Sum(sizes)) == Flatten(RowsOfAll(parts, sizes))
  {
    ConcatDefined(parts, sizes);
    ConcatAligned(parts, sizes);
    ConcatRowsOf(parts, sizes, Concat(parts).value, Flatten(RowsOfAll(parts, sizes)));
  }

  lemma ConcatRowsOf(parts: seq<Data>, sizes: seq<nat>, d: Data, rows: seq<Row>)
    requires parts != [] && AllAligned(parts, sizes) && rows == Flatten(RowsOfAll(parts, sizes))
    requires Concat(parts) == Some(d) && SameKeys(d, parts[0]) && Aligned(d, Sum(sizes))
    ensures Rows(d, Sum(sizes)) == rows
  {
    JoinedKeys(parts, sizes);
    forall key | key in d.columns
      ensures ReadsColumn(rows, d.columns[key], key)
    {
      ConcatColumn(parts, sizes, key);
    }
    RowsFromColumns(d, rows);
  }
}
