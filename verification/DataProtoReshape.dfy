/** Reshaping and in-place changes of a batch
    (Latent-GRPO/verl-0.4.x/verl/protocol.py:140-176,635-653,712-790). */
module DataProtoReshape {
  import opened Options
  import opened TensorOps
  import opened DataProto
  import opened DataProtoLaws

  // ----- fold and unfold -----

  /** Ungrouping grouped rows gives the rows back. */
  lemma GroupedRejoins(column: Column, m: nat, w: nat)
    requires |column| == m * w
    ensures Wide(Grouped(column, m, w), w) && Flatten(CellsOf(Grouped(column, m, w))) == column
  {
    EvenCuts(m, w);
    forall g | 0 <= g < m
      ensures Grouped(column, m, w)[g] == Vec(Pieces(column, EvenBounds(m, w))[g])
      ensures |Pieces(column, EvenBounds(m, w))[g]| == w
    {
      GroupFits(g, m, w);
      NextMultiple(g, w);
    }
    assert CellsOf(Grouped(column, m, w)) == Pieces(column, EvenBounds(m, w));
    PiecesRejoin(column, EvenBounds(m, w));
  }

  /** A run of entries inside one row, found in the entries of all rows. */
  lemma EntriesOfRow(column: Column, w: nat, b: nat, lo: nat, h: nat, start: nat)
    requires Wide(column, w) && b < |column| && lo + h <= w && start == b * w + lo
    ensures start + h <= |Flatten(CellsOf(column))|
    ensures Flatten(CellsOf(column))[start..start + h] == column[b].cells[lo..lo + h]
  {
    var entries := Flatten(CellsOf(column));
    FlattenUniformSize(CellsOf(column), w);
    GroupFits(b, |column|, w);
    forall x | start <= x < start + h
      ensures entries[x] == column[b].cells[x - start + lo]
    {
      FlattenUniformAt(CellsOf(column), w, b, x - start + lo);
    }
  }

  /** Grouping ungrouped rows gives the groups back. */
  lemma UngroupedRegroups(column: Column, w: nat)
    requires Wide(column, w)
    ensures |Flatten(CellsOf(column))| == |column| * w
    ensures Grouped(Flatten(CellsOf(column)), |column|, w) == column
  {
    FlattenUniformSize(CellsOf(column), w);
    forall g | 0 <= g < |column|
      ensures Grouped(Flatten(CellsOf(column)), |column|, w)[g] == column[g]
    {
      EntriesOfRow(column, w, g, 0, w, g * w);
    }
  }

  /** `unfold_batch_dim` undoes `fold_batch_dim`, for every number of groups that divides the rows. */
  lemma UnfoldUndoesFold(d: Data, n: nat, m: nat)
    requires Aligned(d, n) && n > 0 && m > 0 && n % m == 0
    ensures Fold(d, n, m).Some? && Aligned(Fold(d, n, m).value, m)
    ensures Unfold(Fold(d, n, m).value, m, n / m) == Some(d)
  {
    var e := Fold(d, n, m).value;
    Exact(n, m);
    forall key | key in d.columns
      ensures Wide(e.columns[key], n / m) && Flatten(CellsOf(e.columns[key])) == d.columns[key]
    {
      GroupedRejoins(d.columns[key], m, n / m);
    }
    assert Unfold(e, m, n / m).value.columns == d.columns;
  }

  /** And the other way round: `fold_batch_dim` undoes `unfold_batch_dim`. */
  lemma FoldUndoesUnfold(e: Data, m: nat, w: nat)
    requires Aligned(e, m) && m > 0 && w > 0 && forall key | key in e.columns :: Wide(e.columns[key], w)
    ensures Unfold(e, m, w).Some?
    ensures forall key | key in Unfold(e, m, w).value.columns :: |Unfold(e, m, w).value.columns[key]| == m * w
    ensures Fold(Unfold(e, m, w).value, m * w, m) == Some(e)
  {
    var d := Unfold(e, m, w).value;
    DivMod(w, m, 0);
    assert w * m + 0 == m * w;
    forall key | key in e.columns
      ensures |d.columns[key]| == m * w && Grouped(d.columns[key], m, w) == e.columns[key]
    {
      UngroupedRegroups(e.columns[key], w);
    }
    assert m * w > 0 by {
      Scale(1, m, w);
    }
    assert Fold(d, m * w, m).value.columns == e.columns;
  }

  // ----- unfold_column_chunks -----

  lemma ChunkPosition(b: nat, s: nat, j: nat, h: nat)
    ensures (b * s + j) * h == b * (h * s) + j * h
  {
    Reassociate(b, s, h);
    assert (b * s + j) * h == b * s * h + j * h;
  }

  lemma SplitPosition(b: nat, s: nat, j: nat, w: nat, h: nat, r: nat)
    requires s > 0 && w % s == 0 && j < s && h == w / s && r == b * s + j
    ensures r * h == b * w + j * h && j * h + h <= w
  {
    Exact(w, s);
    GroupFits(j, s, h);
    ChunkPosition(b, s, j, h);
  }

  lemma ChunkedColumnIs(column: Column, s: nat, w: nat, h: nat, r: nat, from: nat)
    requires Divides(column, s, w) && column != [] && r < |column| * s && h == w / s && from == r * h
    ensures |ChunkedColumn(column, s, w)| == |column| * s
    ensures from + h <= |Flatten(CellsOf(column))|
    ensures ChunkedColumn(column, s, w)[r] == Vec(Flatten(CellsOf(column))[from..from + h])
  {
    FlattenUniformSize(CellsOf(column), w);
    ReshapeFits(|column|, s, w);
    GroupFits(r, |column| * s, h);
  }

  /** Without `splitKeys` every tensor is repeated, but one array is enough for the call to fail.  With them it succeeds
      exactly when each column they name has rows of one width that s > 0 divides; no rows need no division. */
  lemma ChunksSucceedIff(d: Data, n: nat, s: nat, splitKeys: Option<set<string>>, widths: map<Key, nat>)
    requires Aligned(d, n)
    ensures splitKeys.None? ==>
              (UnfoldColumnChunks(d, n, s, splitKeys, widths).Some? <==> forall key | key in d.columns :: key.Tensor?)
    ensures splitKeys.Some? ==>
              (UnfoldColumnChunks(d, n, s, splitKeys, widths).Some?
               <==> forall key | key in d.columns && key.name in splitKeys.value ::
                      && s > 0 && key in widths
                      && (forall b | 0 <= b < n :: d.columns[key][b].Vec? && |d.columns[key][b].cells| == widths[key])
                      && (n > 0 ==> widths[key] % s == 0))
  {
    forall key | key in d.columns
      ensures d.columns[key] == [] <==> n == 0
    {
    }
  }

  /** The result is aligned: it has s rows for every row of the batch. */
  lemma ChunkedIsAligned(d: Data, n: nat, s: nat, splitKeys: Option<set<string>>, widths: map<Key, nat>, out: Data, rows: nat)
    requires Aligned(d, n) && UnfoldColumnChunks(d, n, s, splitKeys, widths) == Some(out) && rows == n * s
    ensures Aligned(out, rows)
  {
    forall key | key in out.columns
      ensures |out.columns[key]| == rows
    {
      if Splits(key, splitKeys) {
        SplitColumn(d, n, s, splitKeys, widths, out, key);
        ChunkedSize(d.columns[key], s, widths[key]);
      } else {
        RepeatedSize(d.columns[key], s, rows);
      }
    }
    assert out.columns.Keys == d.columns.Keys && (n == 0 ==> rows == 0);
  }

  lemma ChunkedSize(column: Column, s: nat, w: nat)
    requires Divides(column, s, w)
    ensures |ChunkedColumn(column, s, w)| == |column| * s
  {
  }

  lemma RepeatedSize(column: Column, s: nat, rows: nat)
    requires rows == |column| * s
    ensures |NumpyRepeat(column, s)| == rows
  {
    var blocks := seq(|column|, i requires 0 <= i < |column| => Copies(column[i], s));
    InterleaveAgrees(column, s);
    FlattenUniformSize(blocks, s);
  }

  /** `to` has s rows for every row of `from`, and row r == b * s + j is the j-th part of h cells of row b. */
  ghost predicate HoldsPart(to: Column, from: Column, s: nat, h: nat, b: nat, j: nat, r: nat) {
    && |to| == |from| * s && r == b * s + j && r < |to| && b < |from|
    && from[b].Vec? && j * h + h <= |from[b].cells|
    && to[r] == Vec(from[b].cells[j * h..j * h + h])
  }

  /** Row b * s + j of a reshaped column holds the j-th of the s equal parts of row b. */
  lemma ChunkedColumnAt(column: Column, s: nat, w: nat, b: nat, j: nat, h: nat, r: nat)
    requires Divides(column, s, w) && b < |column| && j < s && h == w / s && r == b * s + j
    ensures HoldsPart(ChunkedColumn(column, s, w), column, s, h, b, j, r)
  {
    InRange(b, |column|, j, s);
    SplitPosition(b, s, j, w, h, r);
    PartAt(column, s, w, b, h, r, j * h, r * h);
  }

  lemma PartAt(column: Column, s: nat, w: nat, b: nat, h: nat, r: nat, lo: nat, from: nat)
    requires Divides(column, s, w) && b < |column| && h == w / s && r < |column| * s
    requires from == r * h && from == b * w + lo && lo + h <= w
    ensures |ChunkedColumn(column, s, w)| == |column| * s
    ensures column[b].Vec? && |column[b].cells| == w && ChunkedColumn(column, s, w)[r] == Vec(column[b].cells[lo..lo + h])
  {
    ChunkedColumnIs(column, s, w, h, r, from);
    EntriesOfRow(column, w, b, lo, h, from);
  }

  lemma SplitColumn(d: Data, n: nat, s: nat, splitKeys: Option<set<string>>, widths: map<Key, nat>, out: Data, key: Key)
    requires UnfoldColumnChunks(d, n, s, splitKeys, widths) == Some(out)
    requires key in d.columns && Splits(key, splitKeys)
    ensures key in widths && Divides(d.columns[key], s, widths[key])
    ensures key in out.columns && out.columns[key] == ChunkedColumn(d.columns[key], s, widths[key])
  {
  }

  /** `unfold_column_chunks` keeps the columns together: result row r == b * s + j comes from row b in every column.
      Where the column is split it is the j-th part of that row. */
  lemma SplitColumnKeepsRows(d: Data, n: nat, s: nat, splitKeys: Option<set<string>>, widths: map<Key, nat>, out: Data,
                             key: Key, b: nat, j: nat, r: nat)
    requires Aligned(d, n) && b < n && j < s && r == b * s + j
    requires UnfoldColumnChunks(d, n, s, splitKeys, widths) == Some(out)
    requires key in d.columns && splitKeys.Some? && key.name in splitKeys.value
    ensures key in out.columns && key in widths
    ensures HoldsPart(out.columns[key], d.columns[key], s, widths[key] / s, b, j, r)
  {
    SplitColumn(d, n, s, splitKeys, widths, out, key);
    ChunkedAt(d.columns[key], out.columns[key], s, widths[key], b, j, r);
  }

  lemma ChunkedAt(column: Column, chunked: Column, s: nat, w: nat, b: nat, j: nat, r: nat)
    requires Divides(column, s, w) && chunked == ChunkedColumn(column, s, w)
    requires b < |column| && j < s && r == b * s + j
    ensures HoldsPart(chunked, column, s, w / s, b, j, r)
  {
    ChunkedColumnAt(column, s, w, b, j, w / s, r);
  }

  /** `to` has s rows for every row of `from`, and row b * s + j is row b. */
  ghost predicate HoldsCopy(to: Column, from: Column, s: nat, b: nat, j: nat, r: nat) {
    |to| == |from| * s && r == b * s + j && r < |to| && b < |from| && to[r] == from[b]
  }

  lemma RepeatedColumnAt(column: Column, s: nat, b: nat, j: nat, r: nat)
    requires b < |column| && j < s && r == b * s + j
    ensures HoldsCopy(NumpyRepeat(column, s), column, s, b, j, r)
  {
    InterleaveAt(column, s, b, j, |column| * s, r);
  }

  /** Where the column is not split it is all of that row. */
  lemma KeptColumnKeepsRows(d: Data, n: nat, s: nat, splitKeys: Option<set<string>>, widths: map<Key, nat>, out: Data,
                            key: Key, b: nat, j: nat, r: nat)
    requires Aligned(d, n) && b < n && j < s && r == b * s + j
    requires UnfoldColumnChunks(d, n, s, splitKeys, widths) == Some(out)
    requires key in d.columns && (splitKeys.Some? ==> key.name !in splitKeys.value)
    ensures key in out.columns && HoldsCopy(out.columns[key], d.columns[key], s, b, j, r)
  {
    RepeatedColumnAt(d.columns[key], s, b, j, r);
  }

  // ----- changes in place -----

  /** A batch object: the operations below assign its fields. */
  class BatchObject {
    var batchSize: Option<nat>
    var columns: map<Key, Column>

    constructor (d: Data)
      ensures View() == d
    {
      batchSize := d.batchSize;
      columns := d.columns;
    }

    function View(): Data
      reads this
    {
      Data(batchSize, columns)
    }

    /** `reorder`: moves whole rows, in place.  It needs a TensorDict and indices in bounds. */
    method Reorder(ghost n: nat, indices: seq<int>) returns (ok: bool)
      requires Aligned(View(), n)
      modifies this
      ensures ok <==> old(batchSize).Some? && InBounds(indices, n)
      ensures !ok ==> View() == old(View())
      ensures ok ==> Aligned(View(), |indices|)
                     && Rows(View(), |indices|) == Gather(old(Rows(View(), n)), WrapIndex(indices, n))
    {
      match batchSize
      case None => ok := false;
      case Some(size) =>
        var result := SelectIdxs(View(), size, indices);
        SelectMovesRows(View(), n, indices);
        if result.None? {
          ok := false;
        } else {
          ok := true;
          batchSize, columns := result.value.batchSize, result.value.columns;
        }
    }

    /** `padding`: appends copies of the first row, or of the last for any other candidate; an empty batch has no
        row to copy. */
    method Padding(n: nat, paddingSize: nat, first: bool) returns (ok: bool)
      requires Aligned(View(), n)
      modifies this
      ensures ok <==> paddingSize == 0 || n > 0
      ensures !ok ==> View() == old(View())
      ensures ok ==> Aligned(View(), n + paddingSize)
      ensures ok && paddingSize > 0 ==>
                Rows(View(), n + paddingSize)
                == old(Rows(View(), n)) + Copies(old(Rows(View(), n))[if first then 0 else n - 1], paddingSize)
    {
      if paddingSize == 0 {
        return true;
      }
      var index := if first then 0 else n - 1;
      assert n > 0 <==> 0 <= Wrapped([index][0], n) < n;
      var candidate := SelectIdxs(View(), n, [index]);
      if candidate.None? {
        return false;
      }
      var paddingPart := Repeat(candidate.value, 1, paddingSize, true);
      PaddedRows(View(), n, paddingSize, index, paddingPart);
      var padded := Concat([View(), paddingPart]).value;
      batchSize, columns := padded.batchSize, padded.columns;
      assert View() == padded;
      ok := true;
    }
  }

  lemma PaddedRows(d: Data, n: nat, k: nat, row: nat, part: Data)
    requires Aligned(d, n) && row < n && SelectIdxs(d, n, [row]).Some?
    requires part == Repeat(SelectIdxs(d, n, [row]).value, 1, k, true)
    ensures Concat([d, part]).Some? && Aligned(Concat([d, part]).value, n + k)
    ensures Rows(Concat([d, part]).value, n + k) == Rows(d, n) + Copies(Rows(d, n)[row], k)
  {
    var one := SelectIdxs(d, n, [row]).value;
    SelectMovesRows(d, n, [row]);
    CopiedRow(one, k);
    JoinTwo(d, n, part, 1 * k);
  }

  lemma CopiedRow(one: Data, k: nat)
    requires Aligned(one, 1)
    ensures Aligned(Repeat(one, 1, k, true), 1 * k)
    ensures Rows(Repeat(one, 1, k, true), 1 * k) == Copies(Rows(one, 1)[0], k)
  {
    RepeatMovesRows(one, 1, k, true);
  }

  lemma JoinTwo(a: Data, m: nat, b: Data, n: nat)
    requires Aligned(a, m) && Aligned(b, n) && SameKeys(b, a)
    ensures Concat([a, b]).Some? && Aligned(Concat([a, b]).value, m + n)
    ensures Rows(Concat([a, b]).value, m + n) == Rows(a, m) + Rows(b, n)
  {
    var parts, sizes := [a, b], [m, n];
    assert AllAligned(parts, sizes);
    ConcatRows(parts, sizes);
    FlattenTwo(Rows(a, m), Rows(b, n));
    assert RowsOfAll(parts, sizes) == [Rows(a, m), Rows(b, n)];
    assert sizes[..1] == [m] && [m][..0] == [];
  }

  lemma FlattenTwo<T>(xs: seq<T>, ys: seq<T>)
    ensures Flatten([xs, ys]) == xs + ys
  {
    assert [xs, ys][..1] == [xs] && [xs][..0] == [];
    assert Flatten([xs]) == xs;
  }
}
