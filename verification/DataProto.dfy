/** The batch exchanged between driver and workers (Latent-GRPO/verl-0.4.x/verl/protocol.py:200-838).
    A batch is a table of named columns, tensors and numpy arrays, all with the same number of rows. */
module DataProto {
  import opened Options
  import opened TensorOps

  datatype Key = Tensor(name: string) | Array(name: string)

  /** An element of a column: deeper dimensions are nested vectors. */
  datatype Cell = Scalar(value: int) | Vec(cells: seq<Cell>)

  type Column = seq<Cell>
  type Row = map<Key, Cell>

  /** `batchSize` is the size recorded by the TensorDict, None when there is no TensorDict. */
  datatype Data = Data(batchSize: Option<nat>, columns: map<Key, Column>)

  /** `check_consistency`: every column has n rows, and n is what the batch reports as its length. */
  ghost predicate Aligned(d: Data, n: nat) {
    && (forall key | key in d.columns :: |d.columns[key]| == n)
    && match d.batchSize
       case Some(size) => size == n
       case None => (forall key | key in d.columns :: key.Array?) && (d.columns.Keys == {} ==> n == 0)
  }

  /** Row i of the table. */
  function RowAt(d: Data, i: nat): (row: Row)
    requires forall key | key in d.columns :: i < |d.columns[key]|
    ensures row.Keys == d.columns.Keys && forall key | key in row :: row[key] == d.columns[key][i]
  {
    map key | key in d.columns :: d.columns[key][i]
  }

  ghost function Rows(d: Data, n: nat): (rows: seq<Row>)
    requires Aligned(d, n)
    ensures |rows| == n && forall i | 0 <= i < n :: rows[i] == RowAt(d, i)
  {
    seq(n, i requires 0 <= i < n => RowAt(d, i))
  }

  function SizeOf(size: Option<nat>, n: nat): Option<nat> {
    if size.Some? then Some(n) else None
  }

  // ----- operations that return a new batch -----

  function Slice(d: Data, lo: nat, hi: nat): Data
    requires lo <= hi && forall key | key in d.columns :: hi <= |d.columns[key]|
  {
    Data(SizeOf(d.batchSize, hi - lo), map key | key in d.columns :: d.columns[key][lo..hi])
  }

  /** An index counts from the end when negative. */
  function Wrapped(i: int, n: nat): int {
    if i < 0 then i + n else i
  }

  predicate InBounds(index: seq<int>, n: nat) {
    forall k | 0 <= k < |index| :: 0 <= Wrapped(index[k], n) < n
  }

  function WrapIndex(index: seq<int>, n: nat): (r: seq<nat>)
    requires InBounds(index, n)
    ensures Within(r, n) && |r| == |index|
  {
    seq(|index|, k requires 0 <= k < |index| => Wrapped(index[k], n))
  }

  /** `select_idxs` with integer indices; an index out of bounds is an error. */
  function SelectIdxs(d: Data, n: nat, index: seq<int>): Option<Data>
    requires forall key | key in d.columns :: |d.columns[key]| == n
  {
    if !InBounds(index, n) then None
    else Some(Data(SizeOf(d.batchSize, |index|),
                   map key | key in d.columns :: Gather(d.columns[key], WrapIndex(index, n))))
  }

  /** The positions at which a mask is set. */
  function MaskIndex(mask: seq<bool>): (r: seq<nat>)
    ensures Within(r, |mask|)
  {
    if mask == [] then []
    else MaskIndex(mask[..|mask| - 1]) + if mask[|mask| - 1] then [|mask| - 1] else []
  }

  /** `select_idxs` with a boolean mask. */
  function SelectMask(d: Data, n: nat, mask: seq<bool>): Option<Data>
    requires forall key | key in d.columns :: |d.columns[key]| == n
  {
    if |mask| != n then None
    else Some(Data(SizeOf(d.batchSize, |MaskIndex(mask)|),
                   map key | key in d.columns :: Gather(d.columns[key], MaskIndex(mask))))
  }

  /** `repeat`: each library repeats the columns it owns. */
  function RepeatColumn(key: Key, column: Column, k: nat, interleave: bool): Column {
    match key
    case Tensor(_) => if interleave then TorchRepeatInterleave(column, k) else TorchStack(column, k)
    case Array(_) => if interleave then NumpyRepeat(column, k) else NumpyTile(column, k)
  }

  function Repeat(d: Data, n: nat, k: nat, interleave: bool): Data {
    Data(SizeOf(d.batchSize, n * k), map key | key in d.columns :: RepeatColumn(key, d.columns[key], k, interleave))
  }

  /** `sample_level_repeat`: one count per row; any other number of counts is an error. */
  function SampleLevelRepeat(d: Data, n: nat, counts: seq<nat>): Option<Data>
    requires forall key | key in d.columns :: |d.columns[key]| == n
  {
    if |counts| != n then None
    else Some(Data(SizeOf(d.batchSize, Sum(counts)), map key | key in d.columns :: RepeatEach(d.columns[key], counts)))
  }

  predicate SameKeys(d: Data, e: Data) {
    d.columns.Keys == e.columns.Keys && (d.batchSize.Some? <==> e.batchSize.Some?)
  }

  function ColumnsAt(parts: seq<Data>, key: Key): (r: seq<Column>)
    requires forall i | 0 <= i < |parts| :: key in parts[i].columns
    ensures |r| == |parts| && forall i | 0 <= i < |r| :: r[i] == parts[i].columns[key]
  {
    seq(|parts|, i requires 0 <= i < |parts| => parts[i].columns[key])
  }

  function SizesAt(parts: seq<Data>): seq<nat> {
    seq(|parts|, i requires 0 <= i < |parts| => if parts[i].batchSize.Some? then parts[i].batchSize.value else 0)
  }

  /** `concat`; no parts, or parts with different columns, are an error. */
  function Concat(parts: seq<Data>): Option<Data> {
    if parts == [] || exists i | 0 <= i < |parts| :: !SameKeys(parts[i], parts[0]) then None
    else
      Some(Data(SizeOf(parts[0].batchSize, Sum(SizesAt(parts))),
                map key | key in parts[0].columns ::
                  (assert forall i | 0 <= i < |parts| :: SameKeys(parts[i], parts[0]); Flatten(ColumnsAt(parts, key)))))
  }

  // ----- chunk -----

  /** Where numpy.array_split cuts when there is no TensorDict: the first n % k pieces get one row more. */
  function NumpyBounds(n: nat, k: nat): seq<nat>
    requires k > 0
  {
    seq(k + 1, p requires 0 <= p <= k => p * (n / k) + Min(p, n % k))
  }

  /** numpy.cumsum. */
  function Cumsum(sizes: seq<nat>): (r: seq<nat>)
    ensures |r| == |sizes|
  {
    seq(|sizes|, p requires 0 <= p < |sizes| => Sum(sizes[..p + 1]))
  }

  function Sizes(bounds: seq<nat>): seq<nat>
    requires |bounds| > 0 && forall p, q | 0 <= p <= q < |bounds| :: bounds[p] <= bounds[q]
  {
    seq(|bounds| - 1, p requires 0 <= p < |bounds| - 1 => bounds[p + 1] - bounds[p])
  }

  /** Where the arrays are cut when there is a TensorDict: after the running totals of the tensor pieces. */
  function ArrayBounds(sizes: seq<nat>, n: nat): seq<nat>
    requires |sizes| > 0
  {
    [0] + Cumsum(sizes)[..|sizes| - 1] + [n]
  }

  lemma {:induction false} SumOfSizes(bounds: seq<nat>, m: nat)
    requires m < |bounds| && forall p, q | 0 <= p <= q < |bounds| :: bounds[p] <= bounds[q]
    ensures Sum(Sizes(bounds)[..m]) == bounds[m] - bounds[0]
  {
    if m > 0 {
      SumOfSizes(bounds, m - 1);
      assert Sizes(bounds)[..m][..m - 1] == Sizes(bounds)[..m - 1];
    }
  }

  /** Tensors and arrays are cut at the same rows. */
  lemma BoundsAgree(bounds: seq<nat>, n: nat)
    requires Cuts(bounds, n) && |bounds| > 1
    ensures ArrayBounds(Sizes(bounds), n) == bounds
  {
    forall p | 0 < p < |bounds| - 1
      ensures ArrayBounds(Sizes(bounds), n)[p] == bounds[p]
    {
      SumOfSizes(bounds, p);
    }
  }

  lemma NumpyCuts(n: nat, k: nat)
    requires k > 0
    ensures Cuts(NumpyBounds(n, k), n)
  {
    var b := NumpyBounds(n, k);
    assert n == k * (n / k) + n % k;
    forall p, q | 0 <= p <= q <= k
      ensures b[p] <= b[q]
    {
      Scale(p, q, n / k);
    }
    forall p | 0 <= p <= k
      ensures b[p] <= n
    {
      Scale(p, k, n / k);
    }
  }

  /** Piece p of a batch whose tensors and arrays are cut separately. */
  function Piece(d: Data, n: nat, tensorBounds: seq<nat>, arrayBounds: seq<nat>, p: nat): Data
    requires forall key | key in d.columns :: |d.columns[key]| == n
    requires Cuts(tensorBounds, n) && Cuts(arrayBounds, n) && p + 1 < |tensorBounds| && p + 1 < |arrayBounds|
  {
    Data(SizeOf(d.batchSize, tensorBounds[p + 1] - tensorBounds[p]),
         map key | key in d.columns ::
           if key.Tensor? then d.columns[key][tensorBounds[p]..tensorBounds[p + 1]]
           else d.columns[key][arrayBounds[p]..arrayBounds[p + 1]])
  }

  /** `chunk`.  Without padding the rows must divide evenly; with it, a cut that does not make k pieces is an
      error. */
  function Chunk(d: Data, n: nat, k: nat, paddingEnabled: bool): (r: Option<seq<Data>>)
    requires forall key | key in d.columns :: |d.columns[key]| == n
    requires k > 0
    ensures r.Some? ==> |r.value| == k
  {
    if !paddingEnabled && n % k != 0 then None
    else if d.batchSize.None? then
      var bounds := NumpyBounds(n, k);
      NumpyCuts(n, k);
      Some(seq(k, p requires 0 <= p < k => Piece(d, n, bounds, bounds, p)))
    else if TorchPieces(n, k) != k then None
    else
      var bounds := TorchBounds(n, k);
      TorchCuts(n, k);
      BoundsAgree(bounds, n);
      Some(seq(k, p requires 0 <= p < k => Piece(d, n, bounds, ArrayBounds(Sizes(bounds), n), p)))
  }

  // ----- reshaping the batch dimension -----

  function Cells(c: Cell): seq<Cell> {
    if c.Vec? then c.cells else []
  }

  function CellsOf(column: Column): (r: seq<seq<Cell>>)
    ensures |r| == |column| && forall i | 0 <= i < |r| :: r[i] == Cells(column[i])
  {
    seq(|column|, i requires 0 <= i < |column| => Cells(column[i]))
  }

  /** A row-major view of the rows as m groups of w. */
  function Grouped(column: seq<Cell>, m: nat, w: nat): (r: Column)
    requires |column| == m * w
    ensures |r| == m
  {
    seq(m, g requires 0 <= g < m => (GroupFits(g, m, w); Vec(column[g * w..g * w + w])))
  }

  /** `fold_batch_dim`: m groups of n / m rows.  An uneven split, or a view of no rows, is an error. */
  function Fold(d: Data, n: nat, m: nat): Option<Data>
    requires forall key | key in d.columns :: |d.columns[key]| == n
  {
    if m == 0 || n == 0 || n % m != 0 then None
    else
      Some(Data(SizeOf(d.batchSize, m),
                map key | key in d.columns :: (Exact(n, m); Grouped(d.columns[key], m, n / m))))
  }

  /** Every element of the column is a vector of w cells. */
  predicate Wide(column: Column, w: nat) {
    forall i | 0 <= i < |column| :: column[i].Vec? && |column[i].cells| == w
  }

  /** `unfold_batch_dim` over two dimensions; columns without w entries per row are an error. */
  function Unfold(d: Data, m: nat, w: nat): Option<Data> {
    if exists key | key in d.columns :: !Wide(d.columns[key], w) then None
    else Some(Data(SizeOf(d.batchSize, m * w), map key | key in d.columns :: Flatten(CellsOf(d.columns[key]))))
  }

  /** `unfold_column_chunks`: the columns named in `splitKeys` are reshaped from n rows of w entries to n * s rows
      of w / s; the others are repeated.  Arrays need `splitKeys` to be given, and a reshape of rows needs s to
      divide the entries of a row evenly. */
  predicate Splits(key: Key, splitKeys: Option<set<string>>) {
    splitKeys.Some? && key.name in splitKeys.value
  }

  predicate Splittable(d: Data, s: nat, splitKeys: Option<set<string>>, widths: map<Key, nat>) {
    && (splitKeys.None? ==> forall key | key in d.columns :: key.Tensor?)
    && forall key | key in d.columns && Splits(key, splitKeys) ::
         key in widths && Divides(d.columns[key], s, widths[key])
  }

  predicate Divides(column: Column, s: nat, w: nat) {
    s > 0 && Wide(column, w) && (column == [] || w % s == 0)
  }

  function ChunkedColumn(column: Column, s: nat, w: nat): Column
    requires Divides(column, s, w)
  {
    if column == [] then []
    else
      var entries := Flatten(CellsOf(column));
      assert Uniform(CellsOf(column), w);
      FlattenUniformSize(CellsOf(column), w);
      ReshapeFits(|column|, s, w);
      Grouped(entries, |column| * s, w / s)
  }

  lemma ReshapeFits(n: nat, s: nat, w: nat)
    requires s > 0 && w % s == 0
    ensures n * w == n * s * (w / s)
  {
    Exact(w, s);
    assert n * s * (w / s) == n * (w / s * s) by {
      Reassociate(n, s, w / s);
    }
  }

  lemma Reassociate(a: nat, b: nat, c: nat)
    ensures a * b * c == a * (c * b)
  {
  }

  function UnfoldColumnChunks(d: Data, n: nat, s: nat, splitKeys: Option<set<string>>, widths: map<Key, nat>): Option<Data> {
    if !Splittable(d, s, splitKeys, widths) then None
    else
      Some(Data(SizeOf(d.batchSize, n * s),
                map key | key in d.columns ::
                  if Splits(key, splitKeys) then ChunkedColumn(d.columns[key], s, widths[key])
                  else NumpyRepeat(d.columns[key], s)))
  }
}
