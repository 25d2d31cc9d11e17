/** Sending a batch to k workers and collecting the results
    (Latent-GRPO/verl-0.4.x/verl/protocol.py:70-101,635-710 and
     Latent-GRPO/verl-0.4.x/verl/single_controller/base/decorator.py:93-126). */
module DataProtoDispatch {
  import opened Options
  import opened TensorOps
  import opened DataProto
  import opened DataProtoLaws

  // ----- chunk -----

  function BoundsOf(d: Data, n: nat, k: nat): (r: seq<nat>)
    requires k > 0
    ensures Cuts(r, n) && |r| > 1
  {
    NumpyCuts(n, k);
    TorchCuts(n, k);
    if d.batchSize.None? then NumpyBounds(n, k) else TorchBounds(n, k)
  }

  lemma PieceIsSlice(d: Data, n: nat, bounds: seq<nat>, p: nat)
    requires Aligned(d, n) && Cuts(bounds, n) && p + 1 < |bounds|
    ensures bounds[p] <= bounds[p + 1] <= n && Piece(d, n, bounds, bounds, p) == Slice(d, bounds[p], bounds[p + 1])
  {
  }

  lemma ChunkPart(d: Data, n: nat, k: nat, paddingEnabled: bool, p: nat)
    requires Aligned(d, n) && k > 0 && Chunk(d, n, k, paddingEnabled).Some? && p < k
    ensures var b := BoundsOf(d, n, k);
            && |b| == k + 1 && b[p] <= b[p + 1] <= n
            && Chunk(d, n, k, paddingEnabled).value[p] == Slice(d, b[p], b[p + 1])
  {
    var bounds := BoundsOf(d, n, k);
    BoundsAgree(bounds, n);
    PieceIsSlice(d, n, bounds, p);
  }

  lemma ChunkPartRows(d: Data, n: nat, k: nat, paddingEnabled: bool, p: nat)
    requires Aligned(d, n) && k > 0 && Chunk(d, n, k, paddingEnabled).Some? && p < k
    ensures var b, part := BoundsOf(d, n, k), Chunk(d, n, k, paddingEnabled).value[p];
            && |b| == k + 1 && SameKeys(part, d) && Aligned(part, Sizes(b)[p])
            && Rows(part, Sizes(b)[p]) == Pieces(Rows(d, n), b)[p]
  {
    var b := BoundsOf(d, n, k);
    ChunkPart(d, n, k, paddingEnabled, p);
    SliceRows(d, n, b[p], b[p + 1]);
  }

  /** When `chunk` succeeds its parts are consecutive slices: tensors and arrays are cut at the same rows, no row
      is lost or doubled, and joining the parts gives the batch back. */
  lemma ChunkCutsRows(d: Data, n: nat, k: nat, paddingEnabled: bool)
    requires Aligned(d, n) && k > 0 && Chunk(d, n, k, paddingEnabled).Some?
    ensures var parts, sizes := Chunk(d, n, k, paddingEnabled).value, Sizes(BoundsOf(d, n, k));
            AllAligned(parts, sizes) && Flatten(RowsOfAll(parts, sizes)) == Rows(d, n)
  {
    var parts, bounds := Chunk(d, n, k, paddingEnabled).value, BoundsOf(d, n, k);
    ChunkPart(d, n, k, paddingEnabled, 0);
    ChunksAligned(d, n, k, paddingEnabled);
    forall p | 0 <= p < k
      ensures Rows(parts[p], Sizes(bounds)[p]) == Pieces(Rows(d, n), bounds)[p]
    {
      ChunkPartRows(d, n, k, paddingEnabled, p);
    }
    assert RowsOfAll(parts, Sizes(bounds)) == Pieces(Rows(d, n), bounds);
    PiecesRejoin(Rows(d, n), bounds);
  }

  lemma ChunksAligned(d: Data, n: nat, k: nat, paddingEnabled: bool)
    requires Aligned(d, n) && k > 0 && Chunk(d, n, k, paddingEnabled).Some?
    ensures AllAligned(Chunk(d, n, k, paddingEnabled).value, Sizes(BoundsOf(d, n, k)))
    ensures forall p | 0 <= p < k :: SameKeys(Chunk(d, n, k, paddingEnabled).value[p], d)
  {
    var parts, bounds := Chunk(d, n, k, paddingEnabled).value, BoundsOf(d, n, k);
    ChunkPart(d, n, k, paddingEnabled, 0);
    forall p | 0 <= p < k
      ensures SameKeys(parts[p], d) && Aligned(parts[p], Sizes(bounds)[p])
    {
      ChunkPartRows(d, n, k, paddingEnabled, p);
    }
  }

  /** torch.chunk gives up rows per piece before it gives up pieces: with rows to cut and padding enabled, `chunk`
      succeeds if and only if the first k - 1 rounded-up pieces leave something for the last one. */
  lemma PaddedChunkSucceedsIff(d: Data, n: nat, k: nat)
    requires Aligned(d, n) && n > 0 && k > 0 && d.batchSize.Some?
    ensures Chunk(d, n, k, true).Some? <==> (k - 1) * Ceil(n, k) < n
  {
    var c := Ceil(n, k);
    CeilCovers(n, k);
    CeilCovers(n, c);
    if TorchPieces(n, k) < k {
      Scale(TorchPieces(n, k), k - 1, c);
    } else if TorchPieces(n, k) > k {
      Scale(k, TorchPieces(n, k) - 1, c);
    }
  }

  /** Five rows for four workers: the cut makes three pieces and `chunk` fails. */
  lemma FiveRowsForFourWorkers(d: Data)
    requires Aligned(d, 5) && d.batchSize.Some?
    ensures Chunk(d, 5, 4, true).None?
  {
    PaddedChunkSucceedsIff(d, 5, 4);
  }

  /** When k divides the rows, `chunk` always succeeds, with equal parts. */
  lemma EvenChunk(d: Data, n: nat, k: nat, paddingEnabled: bool)
    requires Aligned(d, n) && k > 0 && n % k == 0
    ensures Chunk(d, n, k, paddingEnabled).Some?
  {
    if n > 0 {
      CeilExact(n, k);
      Exact(n, k);
      DivMod(k, n / k, n / k - 1);
    }
  }

  /** When `chunk` succeeds: with padding or a divisor of the rows; and, if there are tensors, when the first k - 1
      rounded-up pieces leave something for the last one. */
  lemma ChunkSucceedsIff(d: Data, n: nat, k: nat, paddingEnabled: bool)
    requires Aligned(d, n) && k > 0
    ensures Chunk(d, n, k, paddingEnabled).Some? <==>
              && (paddingEnabled || n % k == 0)
              && (d.batchSize.None? || n == 0 || (k - 1) * Ceil(n, k) < n)
  {
    if paddingEnabled || n % k == 0 {
      SamePieces(d, n, k, paddingEnabled);
      if n > 0 && d.batchSize.Some? {
        PaddedChunkSucceedsIff(d, n, k);
      }
    }
  }

  lemma SamePieces(d: Data, n: nat, k: nat, paddingEnabled: bool)
    requires Aligned(d, n) && k > 0 && (paddingEnabled || n % k == 0)
    ensures Chunk(d, n, k, paddingEnabled).Some? <==> Chunk(d, n, k, true).Some?
    ensures n == 0 || d.batchSize.None? ==> Chunk(d, n, k, paddingEnabled).Some?
  {
  }

  /** The share of a part: rounded up with tensors, and rounded down without. */
  function ShareOf(tensors: bool, n: nat, k: nat): nat
    requires k > 0
  {
    if tensors then Ceil(n, k) else n / k
  }

  /** With tensors all parts but the last have the share; without, the first n % k parts have one row more. */
  function PartSize(tensors: bool, n: nat, k: nat, p: nat, share: nat): int
    requires k > 0
  {
    if tensors then TorchSize(n, k, p, share) else share + if p < n % k then 1 else 0
  }

  function TorchSize(n: nat, k: nat, p: nat, c: nat): int {
    if n == 0 then 0 else if p < k - 1 then c else n - (k - 1) * c
  }

  /** The sizes of the parts. */
  lemma PartSizes(d: Data, n: nat, k: nat, paddingEnabled: bool, p: nat, share: nat)
    requires Aligned(d, n) && k > 0 && p < k && Chunk(d, n, k, paddingEnabled).Some?
    requires share == ShareOf(d.batchSize.Some?, n, k)
    ensures var size := PartSize(d.batchSize.Some?, n, k, p, share);
            size >= 0 && Aligned(Chunk(d, n, k, paddingEnabled).value[p], size)
  {
    ChunkPartRows(d, n, k, paddingEnabled, p);
    ChunkSucceedsIff(d, n, k, paddingEnabled);
    GapIs(d, n, k, p, BoundsOf(d, n, k), share);
  }

  lemma GapIs(d: Data, n: nat, k: nat, p: nat, b: seq<nat>, share: nat)
    requires k > 0 && p < k && b == BoundsOf(d, n, k) && |b| == k + 1 && share == ShareOf(d.batchSize.Some?, n, k)
    requires d.batchSize.None? || n == 0 || (k - 1) * share < n
    ensures Sizes(b)[p] == PartSize(d.batchSize.Some?, n, k, p, share)
  {
    if d.batchSize.None? {
      NumpyGap(n, k, share, p, b);
    } else {
      TorchGaps(n, k, share, p, p + 1, b);
    }
  }

  lemma TorchGaps(n: nat, k: nat, c: nat, p: nat, next: nat, b: seq<nat>)
    requires k > 0 && next == p + 1 <= k && c == Ceil(n, k) && b == TorchBounds(n, k) && |b| == k + 1
    requires n == 0 || (k - 1) * c < n
    ensures b[next] - b[p] == TorchSize(n, k, p, c)
  {
    CeilCovers(n, k);
    TorchAt(n, k, c, p, b);
    TorchAt(n, k, c, next, b);
    TorchGap(n, k, c, p, b[p], b[next]);
  }

  lemma NumpyGap(n: nat, k: nat, share: nat, p: nat, b: seq<nat>)
    requires k > 0 && p < k && share == n / k && b == NumpyBounds(n, k)
    ensures b[p + 1] - b[p] == share + if p < n % k then 1 else 0
  {
    NextMultiple(p, share);
  }

  lemma TorchAt(n: nat, k: nat, c: nat, p: nat, b: seq<nat>)
    requires k > 0 && c == Ceil(n, k) && b == TorchBounds(n, k) && p < |b|
    ensures b[p] == Min(p * c, n)
  {
  }

  lemma TorchGap(n: nat, k: nat, c: nat, p: nat, lo: nat, hi: nat)
    requires p < k && lo == Min(p * c, n) && hi == Min((p + 1) * c, n)
    requires (n == 0 || (k - 1) * c < n) && c * k >= n
    ensures hi - lo == TorchSize(n, k, p, c)
  {
    NextMultiple(p, c);
    if p < k - 1 {
      Scale(p + 1, k - 1, c);
    } else {
      assert (p + 1) * c == c * k;
    }
  }

  // ----- running workers -----

  function MapRows(g: Row -> Row, rows: seq<Row>): (r: seq<Row>)
    ensures |r| == |rows| && forall i | 0 <= i < |r| :: r[i] == g(rows[i])
  {
    seq(|rows|, i requires 0 <= i < |rows| => g(rows[i]))
  }

  lemma {:induction false} MapJoined(g: Row -> Row, blocks: seq<seq<Row>>, images: seq<seq<Row>>)
    requires |images| == |blocks| && forall i | 0 <= i < |blocks| :: images[i] == MapRows(g, blocks[i])
    ensures Flatten(images) == MapRows(g, Flatten(blocks))
  {
    if blocks != [] {
      MapJoined(g, blocks[..|blocks| - 1], images[..|blocks| - 1]);
    }
  }

  /** Worker p returns, for every row of its part, the image of that row under g. */
  ghost predicate RanOn(g: Row -> Row, d: Data, n: nat, k: nat, paddingEnabled: bool, results: seq<Data>)
    requires Aligned(d, n) && k > 0
  {
    && Chunk(d, n, k, paddingEnabled).Some? && |results| == k
    && var parts, sizes := Chunk(d, n, k, paddingEnabled).value, Sizes(BoundsOf(d, n, k));
       && AllAligned(results, sizes) && AllAligned(parts, sizes)
       && forall p | 0 <= p < k :: Rows(results[p], sizes[p]) == MapRows(g, Rows(parts[p], sizes[p]))
  }

  /** What the workers return together is the image of the whole batch, row by row and in order. */
  lemma WorkersMapRows(g: Row -> Row, d: Data, n: nat, k: nat, paddingEnabled: bool, results: seq<Data>)
    requires Aligned(d, n) && k > 0 && RanOn(g, d, n, k, paddingEnabled, results)
    ensures Concat(results).Some? && Aligned(Concat(results).value, n)
    ensures Rows(Concat(results).value, n) == MapRows(g, Rows(d, n))
  {
    var parts, sizes := Chunk(d, n, k, paddingEnabled).value, Sizes(BoundsOf(d, n, k));
    ChunkCutsRows(d, n, k, paddingEnabled);
    MapJoined(g, RowsOfAll(parts, sizes), RowsOfAll(results, sizes));
    ConcatRows(results, sizes);
    JoinedKeys(parts, sizes);
  }

  /** The rows that a Python slice `[:-p]` keeps of n. */
  function KeptBy(n: nat, p: nat): (r: nat)
    ensures r <= n
  {
    if p <= n then n - p else 0
  }

  /** `unpad_dataproto`, and the same cut after a call with a recorded padding size. */
  function Unpad(d: Data, n: nat, padSize: nat): Data
    requires forall key | key in d.columns :: |d.columns[key]| == n
  {
    if padSize == 0 then d else Slice(d, 0, KeptBy(n, padSize))
  }

  lemma UnpadRows(d: Data, n: nat, padSize: nat)
    requires Aligned(d, n)
    ensures Aligned(Unpad(d, n, padSize), KeptBy(n, padSize))
    ensures Rows(Unpad(d, n, padSize), KeptBy(n, padSize)) == Rows(d, n)[..KeptBy(n, padSize)]
  {
    if padSize != 0 {
      SliceRows(d, n, 0, KeptBy(n, padSize));
    }
  }

  // ----- padding -----

  /** How many rows are missing for the next multiple of the divisor. */
  function PadSize(n: nat, divisor: nat): (r: nat)
    requires divisor > 0
    ensures r < divisor && (n + r) % divisor == 0
  {
    PadFits(n, divisor);
    if n % divisor == 0 then 0 else divisor - n % divisor
  }

  lemma PadFits(n: nat, divisor: nat)
    requires divisor > 0
    ensures n % divisor == 0 || (n + (divisor - n % divisor)) % divisor == 0
  {
    var q := n / divisor;
    NextMultiple(q, divisor);
    DivMod(q + 1, divisor, 0);
  }

  /** The batch repeated from its start until there are t rows. */
  function Cyclic<T>(xs: seq<T>, t: nat): (r: seq<T>)
    requires |xs| > 0
    ensures |r| == t
  {
    seq(t, i requires 0 <= i < t => xs[i % |xs|])
  }

  lemma CyclicGrows<T>(xs: seq<T>, t: nat, take: nat)
    requires |xs| > 0 && t % |xs| == 0 && take <= |xs|
    ensures Cyclic(xs, t) + xs[..take] == Cyclic(xs, t + take)
  {
    forall j | 0 <= j < take
      ensures Cyclic(xs, t + take)[t + j] == xs[j]
    {
      Exact(t, |xs|);
      DivMod(t / |xs|, |xs|, j);
    }
  }

  lemma ModShift(i: nat, n: nat)
    requires n > 0
    ensures (n + i) % n == i % n
  {
    NextMultiple(i / n, n);
    DivMod(i / n + 1, n, i % n);
  }

  lemma CyclicPrefix<T>(xs: seq<T>, t: nat)
    requires |xs| > 0
    ensures Cyclic(xs, |xs| + t)[..|xs|] == xs
  {
  }

  lemma CyclicStart<T>(xs: seq<T>, t: nat)
    requires |xs| > 0
    ensures xs + Cyclic(xs, t) == Cyclic(xs, |xs| + t)
  {
    forall i | 0 <= i < t
      ensures Cyclic(xs, |xs| + t)[|xs| + i] == Cyclic(xs, t)[i]
    {
      ModShift(i, |xs|);
    }
  }

  /** `len`. */
  method Length(d: Data) returns (len: nat)
    ensures forall n: nat | Aligned(d, n) :: len == n
  {
    match d.batchSize
    case Some(size) => len := size;
    case None =>
      if d.columns.Keys == {} {
        len := 0;
      } else {
        var key :| key in d.columns;
        len := |d.columns[key]|;
      }
  }

  /** The padding parts built so far hold the first t rows of the endless repetition of d. */
  ghost predicate PaddedSoFar(d: Data, n: nat, parts: seq<Data>, sizes: seq<nat>, t: nat)
    requires Aligned(d, n) && n > 0
  {
    AllAligned([d] + parts, [n] + sizes)
    && Flatten(RowsOfAll([d] + parts, [n] + sizes)) == Cyclic(Rows(d, n), n + t)
  }

  lemma FlattenOne<T>(xs: seq<T>)
    ensures Flatten([xs]) == xs
  {
    assert [xs][..0] == [];
  }

  lemma PadStart(d: Data, n: nat)
    requires Aligned(d, n) && n > 0
    ensures PaddedSoFar(d, n, [], [], 0)
  {
    assert [d] + [] == [d] && [n] + [] == [n];
    assert RowsOfAll([d] + [], [n] + []) == [Rows(d, n)];
    FlattenOne(Rows(d, n));
    CyclicStart(Rows(d, n), 0);
  }

  lemma PadMore(d: Data, n: nat, parts: seq<Data>, sizes: seq<nat>, t: nat, take: nat)
    requires Aligned(d, n) && n > 0 && take <= n && t % n == 0
    requires PaddedSoFar(d, n, parts, sizes, t)
    ensures PaddedSoFar(d, n, parts + [Slice(d, 0, take)], sizes + [take], t + take)
  {
    SliceRows(d, n, 0, take);
    var before, beforeSizes := [d] + parts, [n] + sizes;
    var after, afterSizes := before + [Slice(d, 0, take)], beforeSizes + [take];
    assert [d] + (parts + [Slice(d, 0, take)]) == after && [n] + (sizes + [take]) == afterSizes;
    AlignedSnoc(before, beforeSizes, Slice(d, 0, take), take);
    assert RowsOfAll(after, afterSizes) == RowsOfAll(before, beforeSizes) + [Rows(d, n)[..take]];
    FlattenSnoc(RowsOfAll(before, beforeSizes), Rows(d, n)[..take]);
    ModShift(t, n);
    CyclicGrows(Rows(d, n), n + t, take);
  }

  lemma AlignedSnoc(parts: seq<Data>, sizes: seq<nat>, part: Data, size: nat)
    requires parts != [] && AllAligned(parts, sizes) && Aligned(part, size) && SameKeys(part, parts[0])
    ensures AllAligned(parts + [part], sizes + [size])
  {
  }

  lemma PadDone(d: Data, n: nat, parts: seq<Data>, sizes: seq<nat>, t: nat)
    requires Aligned(d, n) && n > 0 && PaddedSoFar(d, n, parts, sizes, t)
    ensures Concat([d] + parts).Some? && Aligned(Concat([d] + parts).value, n + t)
    ensures Rows(Concat([d] + parts).value, n + t) == Cyclic(Rows(d, n), n + t)
  {
    ConcatRows([d] + parts, [n] + sizes);
    JoinedKeys([d] + parts, [n] + sizes);
  }

  /** The padding loop: take the batch from its start as often as needed. */
  method PaddingProtos(d: Data, n: nat, padSize: nat) returns (paddingProtos: seq<Data>, ghost sizes: seq<nat>)
    requires Aligned(d, n) && n > 0
    ensures PaddedSoFar(d, n, paddingProtos, sizes, padSize)
  {
    paddingProtos, sizes := [], [];
    var remainingPad := padSize;
    PadStart(d, n);
    while remainingPad > 0
      invariant 0 <= remainingPad <= padSize
      invariant PaddedSoFar(d, n, paddingProtos, sizes, padSize - remainingPad)
      invariant remainingPad == 0 || (padSize - remainingPad) % n == 0
    {
      var takeSize := Min(remainingPad, n);
      ModShift(padSize - remainingPad, n);
      PadMore(d, n, paddingProtos, sizes, padSize - remainingPad, takeSize);
      paddingProtos := paddingProtos + [Slice(d, 0, takeSize)];
      sizes := sizes + [takeSize];
      remainingPad := remainingPad - takeSize;
    }
  }

  /** `pad_dataproto_to_divisor`: the loop ends even when the divisor exceeds the number of rows, the padded
      length is the next multiple of the divisor, and padded row i is row i % n. */
  method PadToDivisor(d: Data, ghost n: nat, divisor: nat) returns (padded: Data, padSize: nat)
    requires Aligned(d, n) && divisor > 0
    ensures padSize == PadSize(n, divisor) && Aligned(padded, n + padSize)
    ensures n > 0 ==> Rows(padded, n + padSize) == Cyclic(Rows(d, n), n + padSize)
    ensures Rows(padded, n + padSize)[..n] == Rows(d, n)
  {
    var len := Length(d);
    if len % divisor != 0 {
      padSize := divisor - len % divisor;
      var paddingProtos, sizes := PaddingProtos(d, len, padSize);
      PadDone(d, n, paddingProtos, sizes, padSize);
      padded := Concat([d] + paddingProtos).value;
      CyclicPrefix(Rows(d, n), padSize);
    } else {
      padSize := 0;
      padded := d;
      if n > 0 {
        NothingToPad(d, n);
      }
    }
  }

  lemma NothingToPad(d: Data, n: nat)
    requires Aligned(d, n) && n > 0
    ensures Rows(d, n + 0) == Cyclic(Rows(d, n), n + 0)
  {
    CyclicStart(Rows(d, n), 0);
    assert Cyclic(Rows(d, n), 0) == [];
  }

  // ----- the whole round -----

  lemma StripPadding(g: Row -> Row, d: Data, n: nat, padded: Data, pad: nat, out: Data)
    requires Aligned(d, n) && Aligned(padded, n + pad) && Rows(padded, n + pad)[..n] == Rows(d, n)
    requires Aligned(out, n + pad) && Rows(out, n + pad) == MapRows(g, Rows(padded, n + pad))
    ensures Aligned(Unpad(out, n + pad, pad), n) && Rows(Unpad(out, n + pad, pad), n) == MapRows(g, Rows(d, n))
  {
    UnpadRows(out, n + pad, pad);
    forall i | 0 <= i < n
      ensures Rows(out, n + pad)[i] == g(Rows(d, n)[i])
    {
      assert Rows(d, n)[i] == Rows(padded, n + pad)[i];
    }
  }

  /** Dispatch is transparent.  Put any padding after the rows of the batch, cut the rows, let every worker map
      its rows by g, join the results and cut the padding off: that is the batch mapped by g, row by row and in
      order.  `PadToDivisor` makes such a padding, and `PaddedBatchIsCut` says the cut succeeds. */
  lemma DispatchIsTransparent(g: Row -> Row, d: Data, n: nat, k: nat, paddingEnabled: bool, padded: Data, pad: nat,
                              results: seq<Data>)
    requires Aligned(d, n) && k > 0
    requires Aligned(padded, n + pad) && Rows(padded, n + pad)[..n] == Rows(d, n)
    requires RanOn(g, padded, n + pad, k, paddingEnabled, results)
    ensures Concat(results).Some? && Aligned(Concat(results).value, n + pad)
    ensures var out := Unpad(Concat(results).value, n + pad, pad);
            Aligned(out, n) && Rows(out, n) == MapRows(g, Rows(d, n))
  {
    WorkersMapRows(g, padded, n + pad, k, paddingEnabled, results);
    StripPadding(g, d, n, padded, pad, Concat(results).value);
  }

  lemma PaddedBatchIsCut(d: Data, n: nat, k: nat, padded: Data, paddingEnabled: bool)
    requires k > 0 && Aligned(padded, n + PadSize(n, k))
    ensures Chunk(padded, n + PadSize(n, k), k, paddingEnabled).Some?
  {
    EvenChunk(padded, n + PadSize(n, k), k, paddingEnabled);
  }

  /** A batch passed by keyword is not padded, yet the number of rows to strip is recorded as if it had been - a
      whole k of them when k divides the rows.  Whenever such a call runs, exactly that many rows at the end are
      lost, never none. */
  lemma KeywordDispatchLosesRows(g: Row -> Row, d: Data, n: nat, k: nat, results: seq<Data>)
    requires Aligned(d, n) && k > 0 && RanOn(g, d, n, k, true, results)
    ensures Concat(results).Some? && Aligned(Concat(results).value, n)
    ensures var kept := KeptBy(n, k - n % k);
            && Aligned(Unpad(Concat(results).value, n, k - n % k), kept)
            && Rows(Unpad(Concat(results).value, n, k - n % k), kept) == MapRows(g, Rows(d, n))[..kept]
            && (n > 0 ==> kept < n)
  {
    WorkersMapRows(g, d, n, k, true, results);
    UnpadRows(Concat(results).value, n, k - n % k);
  }

  /** Workers that hand their parts back unchanged. */
  lemma PartsComeBack(d: Data, n: nat, k: nat, paddingEnabled: bool)
    requires Aligned(d, n) && k > 0 && Chunk(d, n, k, paddingEnabled).Some?
    ensures RanOn(row => row, d, n, k, paddingEnabled, Chunk(d, n, k, paddingEnabled).value)
  {
    ChunkCutsRows(d, n, k, paddingEnabled);
    ChunkPart(d, n, k, paddingEnabled, 0);
  }

  function FourRows(): Data {
    Data(Some(4), map[Tensor("x") := [Scalar(1), Scalar(2), Scalar(3), Scalar(4)]])
  }

  /** Four rows, two workers, nothing to pad: the call runs, and rows 3 and 4 do not come back. */
  lemma FourRowsOnTwoWorkers(d: Data, results: seq<Data>)
    requires d == FourRows() && results == if Chunk(d, 4, 2, true).Some? then Chunk(d, 4, 2, true).value else []
    ensures Aligned(d, 4) && RanOn(row => row, d, 4, 2, true, results)
    ensures Concat(results).Some? && Aligned(Concat(results).value, 4)
    ensures var out := Unpad(Concat(results).value, 4, 2);
            Aligned(out, 2) && Rows(out, 2) == [map[Tensor("x") := Scalar(1)], map[Tensor("x") := Scalar(2)]]
  {
    FirstTwoRows(d);
    EvenChunk(d, 4, 2, true);
    PartsComeBack(d, 4, 2, true);
    LastHalfIsLost(row => row, d, results);
  }

  lemma LastHalfIsLost(g: Row -> Row, d: Data, results: seq<Data>)
    requires Aligned(d, 4) && RanOn(g, d, 4, 2, true, results)
    ensures Concat(results).Some? && Aligned(Concat(results).value, 4)
    ensures var out := Unpad(Concat(results).value, 4, 2);
            Aligned(out, 2) && Rows(out, 2) == MapRows(g, Rows(d, 4))[..2]
  {
    KeywordDispatchLosesRows(g, d, 4, 2, results);
  }

  lemma FirstTwoRows(d: Data)
    requires d == FourRows()
    ensures Aligned(d, 4)
    ensures MapRows(row => row, Rows(d, 4))[..2] == [map[Tensor("x") := Scalar(1)], map[Tensor("x") := Scalar(2)]]
  {
    assert RowAt(d, 0) == map[Tensor("x") := Scalar(1)] && RowAt(d, 1) == map[Tensor("x") := Scalar(2)];
  }
}
