/** Packing query, key and value weights for Megatron and taking them apart again
    (Latent-GRPO/verl-0.4.x/scripts/converter_hf_to_mcore.py:112-116 and
     Latent-GRPO/verl-0.4.x/scripts/model_merger.py:364-411).  A weight is the sequence of its rows. */
module MegatronQkv {
  import opened Options
  import opened TensorOps

  datatype Qkv<T> = Qkv(q: seq<T>, k: seq<T>, v: seq<T>)

  /** Rows of group g when each group has w rows. */
  function Group<T>(x: seq<T>, groups: nat, w: nat, g: nat): (r: seq<T>)
    requires |x| == groups * w && g < groups
    ensures |r| == w
  {
    GroupFits(g, groups, w);
    x[g * w..g * w + w]
  }

  /** The weights belong to `groups` key/value heads of `dim` rows, each with `perKv` query heads. */
  predicate Shaped<T>(x: Qkv<T>, groups: nat, perKv: nat, dim: nat) {
    |x.q| == groups * (perKv * dim) && |x.k| == groups * dim && |x.v| == groups * dim
  }

  /** The converter's packing, group by group: the query rows of a group, then its key rows, then its value rows. */
  function Blocks<T>(x: Qkv<T>, groups: nat, perKv: nat, dim: nat): (r: seq<seq<T>>)
    requires Shaped(x, groups, perKv, dim)
    ensures |r| == groups && Uniform(r, perKv * dim + dim + dim)
  {
    seq(groups, g requires 0 <= g < groups =>
      Group(x.q, groups, perKv * dim, g) + Group(x.k, groups, dim, g) + Group(x.v, groups, dim, g))
  }

  function Pack<T>(x: Qkv<T>, groups: nat, perKv: nat, dim: nat): seq<T>
    requires Shaped(x, groups, perKv, dim)
  {
    Flatten(Blocks(x, groups, perKv, dim))
  }

  /** Tensor parallelism gives each of tp ranks an equal run of rows. */
  function Shards<T>(x: seq<T>, tp: nat): (r: seq<seq<T>>)
    requires tp > 0 && |x| % tp == 0
    ensures |r| == tp
  {
    Exact(|x|, tp);
    EvenCuts(tp, |x| / tp);
    Pieces(x, EvenBounds(tp, |x| / tp))
  }

  /** tensor.chunk. */
  function Chunked<T>(x: seq<T>, pieces: nat): seq<seq<T>>
    requires pieces > 0
  {
    TorchCuts(|x|, pieces);
    Pieces(x, TorchBounds(|x|, pieces))
  }

  function AllChunks<T>(shards: seq<seq<T>>, pieces: nat): seq<seq<T>>
    requires pieces > 0
  {
    Flatten(seq(|shards|, i requires 0 <= i < |shards| => Chunked(shards[i], pieces)))
  }

  function Parts<T>(blocks: seq<seq<T>>, size: nat, lo: nat, hi: nat): (r: seq<seq<T>>)
    requires Uniform(blocks, size) && lo <= hi <= size
    ensures |r| == |blocks| && forall i | 0 <= i < |r| :: r[i] == blocks[i][lo..hi]
  {
    seq(|blocks|, i requires 0 <= i < |blocks| => blocks[i][lo..hi])
  }

  /** Each chunk is split into a query part of a rows, a key part and a value part of b rows; torch.split fails
      when the sizes do not add up. */
  function TakeApart<T>(blocks: seq<seq<T>>, a: nat, b: nat): Option<Qkv<T>> {
    if !Uniform(blocks, a + b + b) then None
    else
      Some(Qkv(Flatten(Parts(blocks, a + b + b, 0, a)), Flatten(Parts(blocks, a + b + b, a, a + b)),
               Flatten(Parts(blocks, a + b + b, a + b, a + b + b))))
  }

  function KvSize(rows: nat, perKv: nat): nat {
    rows / (perKv + 2)
  }

  /** The sizes of the query part and of the key and value parts. */
  function QuerySize(kvSize: nat, perKv: nat, pieces: nat): nat
    requires pieces > 0
  {
    kvSize * perKv / pieces
  }

  function KeySize(kvSize: nat, pieces: nat): nat
    requires pieces > 0
  {
    kvSize / pieces
  }

  /** What the merger makes of the shards: None when one of its checks or a torch call fails. */
  function MergedQkv<T>(shards: seq<seq<T>>, heads: nat, kvHeads: nat, tp: nat): Option<Qkv<T>>
    requires shards != [] && kvHeads > 0 && tp > 0
  {
    var perKv, pieces := heads / kvHeads, kvHeads / tp;
    if heads % kvHeads != 0 || |shards[0]| % (perKv + 2) != 0 || pieces == 0 then None
    else
      var kvSize := KvSize(|shards[0]|, perKv);
      TakeApart(AllChunks(shards, pieces), QuerySize(kvSize, perKv, pieces), KeySize(kvSize, pieces))
  }

  /** The merger's sizes, computed one after the other. */
  lemma MergedSizes<T>(shards: seq<seq<T>>, heads: nat, kvHeads: nat, tp: nat, perKv: nat, pieces: nat, kvSize: nat)
    requires shards != [] && kvHeads > 0 && tp > 0 && perKv == heads / kvHeads && pieces == kvHeads / tp
    requires heads % kvHeads == 0 && |shards[0]| % (perKv + 2) == 0 && pieces != 0 && kvSize == KvSize(|shards[0]|, perKv)
    ensures MergedQkv(shards, heads, kvHeads, tp)
            == TakeApart(AllChunks(shards, pieces), QuerySize(kvSize, perKv, pieces), KeySize(kvSize, pieces))
  {
  }

  lemma AllChunksSnoc<T>(shards: seq<seq<T>>, pieces: nat, i: nat)
    requires pieces > 0 && i < |shards|
    ensures AllChunks(shards[..i + 1], pieces) == AllChunks(shards[..i], pieces) + Chunked(shards[i], pieces)
  {
    var all := seq(i + 1, j requires 0 <= j < i + 1 => Chunked(shards[..i + 1][j], pieces));
    assert all[..i] == seq(i, j requires 0 <= j < i => Chunked(shards[..i][j], pieces));
  }

  lemma {:induction false} InJoined<T>(xss: seq<seq<T>>, i: nat, j: nat)
    requires i < |xss| && j < |xss[i]|
    ensures xss[i][j] in Flatten(xss)
  {
    if i < |xss| - 1 {
      InJoined(xss[..|xss| - 1], i, j);
    }
  }

  lemma BadChunk<T>(shards: seq<seq<T>>, pieces: nat, i: nat, j: nat, size: nat)
    requires pieces > 0 && i < |shards| && j < |Chunked(shards[i], pieces)|
    requires |Chunked(shards[i], pieces)[j]| != size
    ensures !Uniform(AllChunks(shards, pieces), size)
  {
    InJoined(seq(|shards|, i requires 0 <= i < |shards| => Chunked(shards[i], pieces)), i, j);
  }

  /** `out` joins the rows lo..hi of every chunk seen, all of n rows. */
  ghost predicate Taken<T>(seen: seq<seq<T>>, n: nat, lo: nat, hi: nat, out: seq<T>)
    requires lo <= hi <= n && Uniform(seen, n)
  {
    Flatten(Parts(seen, n, lo, hi)) == out
  }

  lemma TakeOneMore<T>(seen: seq<seq<T>>, chunk: seq<T>, n: nat, lo: nat, hi: nat, out: seq<T>)
    requires lo <= hi <= n && |chunk| == n && Uniform(seen, n) && Uniform(seen + [chunk], n)
    requires Taken(seen, n, lo, hi, out)
    ensures Taken(seen + [chunk], n, lo, hi, out + chunk[lo..hi])
  {
    assert Parts(seen + [chunk], n, lo, hi) == Parts(seen, n, lo, hi) + [chunk[lo..hi]];
    FlattenSnoc(Parts(seen, n, lo, hi), chunk[lo..hi]);
  }

  /** The lists built so far from chunks of n = a + b + b rows. */
  ghost predicate TakenSoFar<T>(seen: seq<seq<T>>, a: nat, b: nat, n: nat, lists: Qkv<T>) {
    && n == a + b + b && Uniform(seen, n)
    && Taken(seen, n, 0, a, lists.q) && Taken(seen, n, a, a + b, lists.k) && Taken(seen, n, a + b, n, lists.v)
  }

  lemma UniformSnoc<T>(seen: seq<seq<T>>, chunk: seq<T>, n: nat)
    requires Uniform(seen, n) && |chunk| == n
    ensures Uniform(seen + [chunk], n)
  {
  }

  lemma TakeChunk<T>(seen: seq<seq<T>>, chunk: seq<T>, a: nat, b: nat, n: nat, lists: Qkv<T>)
    requires TakenSoFar(seen, a, b, n, lists) && |chunk| == n
    ensures TakenSoFar(seen + [chunk], a, b, n, Appended(lists, chunk, a, b, n))
  {
    UniformSnoc(seen, chunk, n);
    TakeOneMore(seen, chunk, n, 0, a, lists.q);
    TakeOneMore(seen, chunk, n, a, a + b, lists.k);
    TakeOneMore(seen, chunk, n, a + b, n, lists.v);
  }

  /** The lists after one more chunk. */
  function Appended<T>(lists: Qkv<T>, chunk: seq<T>, a: nat, b: nat, n: nat): Qkv<T>
    requires |chunk| == n == a + b + b
  {
    Qkv(lists.q + chunk[0..a], lists.k + chunk[a..a + b], lists.v + chunk[a + b..n])
  }

  lemma AllTaken<T>(blocks: seq<seq<T>>, a: nat, b: nat, lists: Qkv<T>)
    requires TakenSoFar(blocks, a, b, a + b + b, lists)
    ensures TakeApart(blocks, a, b) == Some(lists)
  {
  }

  lemma TakeNext<T>(before: seq<seq<T>>, chunks: seq<seq<T>>, j: nat, a: nat, b: nat, n: nat, lists: Qkv<T>)
    requires j < |chunks| && |chunks[j]| == n && TakenSoFar(before + chunks[..j], a, b, n, lists)
    ensures TakenSoFar(before + chunks[..j + 1], a, b, n, Appended(lists, chunks[j], a, b, n))
  {
    TakeChunk(before + chunks[..j], chunks[j], a, b, n, lists);
    assert before + chunks[..j] + [chunks[j]] == before + chunks[..j + 1];
  }

  /** The inner loop: the chunks of one shard. */
  method TakeShard<T>(chunks: seq<seq<T>>, a: nat, b: nat, n: nat, lists: Qkv<T>, ghost before: seq<seq<T>>)
    returns (r: Option<Qkv<T>>)
    requires TakenSoFar(before, a, b, n, lists)
    ensures r.None? ==> !Uniform(chunks, n)
    ensures r.Some? ==> TakenSoFar(before + chunks, a, b, n, r.value)
  {
    var acc := lists;
    assert before + chunks[..0] == before;
    for j := 0 to |chunks|
      invariant TakenSoFar(before + chunks[..j], a, b, n, acc)
    {
      if |chunks[j]| != n {
        return None;
      }
      TakeNext(before, chunks, j, a, b, n, acc);
      acc := Appended(acc, chunks[j], a, b, n);
    }
    assert chunks[..|chunks|] == chunks;
    r := Some(acc);
  }

  /** The outer loop: the shards of all ranks. */
  method TakeAllApart<T>(shards: seq<seq<T>>, pieces: nat, a: nat, b: nat) returns (r: Option<Qkv<T>>)
    requires pieces > 0
    ensures r == TakeApart(AllChunks(shards, pieces), a, b)
  {
    var lists := Qkv([], [], []);
    for i := 0 to |shards|
      invariant TakenSoFar(AllChunks(shards[..i], pieces), a, b, a + b + b, lists)
    {
      var chunks := Chunked(shards[i], pieces);
      AllChunksSnoc(shards, pieces, i);
      var next := TakeShard(chunks, a, b, a + b + b, lists, AllChunks(shards[..i], pieces));
      if next.None? {
        NotUniform(shards, pieces, i, a + b + b);
        return None;
      }
      lists := next.value;
    }
    assert shards[..|shards|] == shards;
    AllTaken(AllChunks(shards, pieces), a, b, lists);
    r := Some(lists);
  }

  lemma NotUniform<T>(shards: seq<seq<T>>, pieces: nat, i: nat, size: nat)
    requires pieces > 0 && i < |shards| && !Uniform(Chunked(shards[i], pieces), size)
    ensures !Uniform(AllChunks(shards, pieces), size)
  {
    var j :| 0 <= j < |Chunked(shards[i], pieces)| && |Chunked(shards[i], pieces)[j]| != size;
    BadChunk(shards, pieces, i, j, size);
  }

  /** `_merge_across_tp` for a QKV weight. */
  method MergeQkv<T>(shards: seq<seq<T>>, heads: nat, kvHeads: nat, tp: nat) returns (r: Option<Qkv<T>>)
    requires shards != [] && kvHeads > 0 && tp > 0
    ensures r == MergedQkv(shards, heads, kvHeads, tp)
  {
    var perKv := heads / kvHeads;
    if heads % kvHeads != 0 || |shards[0]| % (perKv + 2) != 0 || kvHeads / tp == 0 {
      return None;
    }
    var pieces := kvHeads / tp;
    var kvSize := KvSize(|shards[0]|, perKv);
    MergedSizes(shards, heads, kvHeads, tp, perKv, pieces, kvSize);
    r := TakeAllApart(shards, pieces, QuerySize(kvSize, perKv, pieces), KeySize(kvSize, pieces));
  }

  // ----- the round trip -----

  lemma GroupsRejoin<T>(x: seq<T>, groups: nat, w: nat)
    requires |x| == groups * w
    ensures Flatten(seq(groups, g requires 0 <= g < groups => Group(x, groups, w, g))) == x
  {
    EvenCuts(groups, w);
    forall g | 0 <= g < groups
      ensures Group(x, groups, w, g) == Pieces(x, EvenBounds(groups, w))[g]
    {
      GroupFits(g, groups, w);
      NextMultiple(g, w);
    }
    assert seq(groups, g requires 0 <= g < groups => Group(x, groups, w, g)) == Pieces(x, EvenBounds(groups, w));
    PiecesRejoin(x, EvenBounds(groups, w));
  }

  lemma BlockParts<T>(x: Qkv<T>, groups: nat, perKv: nat, dim: nat, a: nat, g: nat)
    requires Shaped(x, groups, perKv, dim) && g < groups && a == perKv * dim
    ensures var block := Blocks(x, groups, perKv, dim)[g];
            && block[0..a] == Group(x.q, groups, a, g)
            && block[a..a + dim] == Group(x.k, groups, dim, g)
            && block[a + dim..a + dim + dim] == Group(x.v, groups, dim, g)
  {
  }

  lemma PartsRejoin<T>(blocks: seq<seq<T>>, n: nat, lo: nat, hi: nat, x: seq<T>)
    requires Uniform(blocks, n) && lo <= hi <= n && |x| == |blocks| * (hi - lo)
    requires forall g | 0 <= g < |blocks| :: blocks[g][lo..hi] == Group(x, |blocks|, hi - lo, g)
    ensures Flatten(Parts(blocks, n, lo, hi)) == x
  {
    assert Parts(blocks, n, lo, hi) == seq(|blocks|, g requires 0 <= g < |blocks| => Group(x, |blocks|, hi - lo, g));
    GroupsRejoin(x, |blocks|, hi - lo);
  }

  lemma QueriesTaken<T>(x: Qkv<T>, groups: nat, perKv: nat, dim: nat, a: nat)
    requires Shaped(x, groups, perKv, dim) && a == perKv * dim
    ensures Taken(Blocks(x, groups, perKv, dim), a + dim + dim, 0, a, x.q)
  {
    forall g | 0 <= g < groups
      ensures Blocks(x, groups, perKv, dim)[g][0..a] == Group(x.q, groups, a, g)
    {
      BlockParts(x, groups, perKv, dim, a, g);
    }
    PartsRejoin(Blocks(x, groups, perKv, dim), a + dim + dim, 0, a, x.q);
  }

  lemma KeysTaken<T>(x: Qkv<T>, groups: nat, perKv: nat, dim: nat, a: nat)
    requires Shaped(x, groups, perKv, dim) && a == perKv * dim
    ensures Taken(Blocks(x, groups, perKv, dim), a + dim + dim, a, a + dim, x.k)
  {
    forall g | 0 <= g < groups
      ensures Blocks(x, groups, perKv, dim)[g][a..a + dim] == Group(x.k, groups, dim, g)
    {
      BlockParts(x, groups, perKv, dim, a, g);
    }
    PartsRejoin(Blocks(x, groups, perKv, dim), a + dim + dim, a, a + dim, x.k);
  }

  lemma ValuesTaken<T>(x: Qkv<T>, groups: nat, perKv: nat, dim: nat, a: nat)
    requires Shaped(x, groups, perKv, dim) && a == perKv * dim
    ensures Taken(Blocks(x, groups, perKv, dim), a + dim + dim, a + dim, a + dim + dim, x.v)
  {
    forall g | 0 <= g < groups
      ensures Blocks(x, groups, perKv, dim)[g][a + dim..a + dim + dim] == Group(x.v, groups, dim, g)
    {
      BlockParts(x, groups, perKv, dim, a, g);
    }
    PartsRejoin(Blocks(x, groups, perKv, dim), a + dim + dim, a + dim, a + dim + dim, x.v);
  }

  lemma WeightsTaken<T>(blocks: seq<seq<T>>, a: nat, b: nat, n: nat, x: Qkv<T>)
    requires n == a + b + b && Uniform(blocks, n) && Taken(blocks, n, 0, a, x.q) && Taken(blocks, n, a, a + b, x.k)
    requires Taken(blocks, n, a + b, n, x.v)
    ensures TakeApart(blocks, a, b) == Some(x)
  {
  }

  /** Taking the packed groups apart gives the three weights back. */
  lemma BlocksTakeApart<T>(x: Qkv<T>, groups: nat, perKv: nat, dim: nat)
    requires Shaped(x, groups, perKv, dim)
    ensures TakeApart(Blocks(x, groups, perKv, dim), perKv * dim, dim) == Some(x)
  {
    var a := perKv * dim;
    QueriesTaken(x, groups, perKv, dim, a);
    KeysTaken(x, groups, perKv, dim, a);
    ValuesTaken(x, groups, perKv, dim, a);
    WeightsTaken(Blocks(x, groups, perKv, dim), a, dim, a + dim + dim, x);
  }

  lemma ShardRows<T>(blocks: seq<seq<T>>, w: nat, tp: nat, pieces: nat)
    requires Uniform(blocks, w) && tp > 0 && |blocks| == tp * pieces
    ensures |Flatten(blocks)| % tp == 0 && |Flatten(blocks)| / tp == pieces * w
  {
    FlattenUniformSize(blocks, w);
    assert tp * pieces * w == pieces * w * tp;
    DivMod(pieces * w, tp, 0);
  }

  lemma ShardIs<T>(x: seq<T>, tp: nat, s: nat, i: nat)
    requires tp > 0 && |x| % tp == 0 && |x| / tp == s && i < tp
    ensures i * s + s <= |x| && Shards(x, tp)[i] == x[i * s..i * s + s]
  {
    Exact(|x|, tp);
    GroupFits(i, tp, s);
    NextMultiple(i, s);
  }

  lemma ChunkIs<T>(x: seq<T>, pieces: nat, w: nat, j: nat)
    requires pieces > 0 && w > 0 && |x| == pieces * w && j < pieces
    ensures |Chunked(x, pieces)| == pieces && j * w + w <= |x| && Chunked(x, pieces)[j] == x[j * w..j * w + w]
  {
    EvenTorchBounds(pieces, w);
    GroupFits(j, pieces, w);
    NextMultiple(j, w);
  }

  lemma Offset(i: nat, pieces: nat, j: nat, w: nat)
    ensures (i * pieces + j) * w == i * (pieces * w) + j * w
  {
    assert (i * pieces + j) * w == i * pieces * w + j * w;
  }

  lemma SliceOfSlice<T>(x: seq<T>, from: nat, size: nat, lo: nat, w: nat)
    requires from + size <= |x| && lo + w <= size
    ensures x[from..from + size][lo..lo + w] == x[from + lo..from + lo + w]
  {
    forall i | from + lo <= i < from + lo + w
      ensures x[from..from + size][lo..lo + w][i - from - lo] == x[i]
    {
    }
  }

  /** Chunk j of shard i is block i * pieces + j. */
  lemma ChunkOfShard<T>(blocks: seq<seq<T>>, w: nat, tp: nat, pieces: nat, i: nat, j: nat)
    requires Uniform(blocks, w) && w > 0 && tp > 0 && pieces > 0 && |blocks| == tp * pieces
    requires |Flatten(blocks)| % tp == 0 && i < tp && j < pieces
    ensures var chunks := Chunked(Shards(Flatten(blocks), tp)[i], pieces);
            |chunks| == pieces && i * pieces + j < |blocks| && chunks[j] == blocks[i * pieces + j]
  {
    var x, s, q := Flatten(blocks), pieces * w, i * pieces + j;
    ShardRows(blocks, w, tp, pieces);
    ShardIs(x, tp, s, i);
    InRange(i, tp, j, pieces);
    Offset(i, pieces, j, w);
    BlockOfJoined(blocks, w, q);
    ChunkOfSlice(x, i * s, s, pieces, w, j);
    assert i * s + j * w == q * w;
  }

  lemma ChunkOfSlice<T>(x: seq<T>, from: nat, s: nat, pieces: nat, w: nat, j: nat)
    requires pieces > 0 && w > 0 && s == pieces * w && j < pieces && from + s <= |x|
    ensures |Chunked(x[from..from + s], pieces)| == pieces && j * w + w <= s
    ensures Chunked(x[from..from + s], pieces)[j] == x[from + j * w..from + j * w + w]
  {
    ChunkIs(x[from..from + s], pieces, w, j);
    SliceOfSlice(x, from, s, j * w, w);
  }

  lemma AllChunksAt<T>(shards: seq<seq<T>>, pieces: nat, i: nat, j: nat)
    requires pieces > 0 && i < |shards| && j < pieces
    requires |Chunked(shards[i], pieces)| == pieces
    requires forall k | 0 <= k < |shards| :: |Chunked(shards[k], pieces)| == pieces
    ensures |AllChunks(shards, pieces)| == |shards| * pieces && i * pieces + j < |AllChunks(shards, pieces)|
    ensures AllChunks(shards, pieces)[i * pieces + j] == Chunked(shards[i], pieces)[j]
  {
    var lists := seq(|shards|, i requires 0 <= i < |shards| => Chunked(shards[i], pieces));
    FlattenUniformSize(lists, pieces);
    FlattenUniformAt(lists, pieces, i, j);
    assert lists[i] == Chunked(shards[i], pieces);
  }

  /** Cutting equal shards into their equal chunks gives the blocks that were packed, in order. */
  lemma ShardsChunkIntoBlocks<T>(blocks: seq<seq<T>>, w: nat, tp: nat, pieces: nat)
    requires Uniform(blocks, w) && w > 0 && tp > 0 && pieces > 0 && |blocks| == tp * pieces
    requires |Flatten(blocks)| % tp == 0
    ensures AllChunks(Shards(Flatten(blocks), tp), pieces) == blocks
  {
    var shards := Shards(Flatten(blocks), tp);
    forall i | 0 <= i < tp
      ensures |Chunked(shards[i], pieces)| == pieces
    {
      ChunkOfShard(blocks, w, tp, pieces, i, 0);
    }
    AllChunksAt(shards, pieces, 0, 0);
    forall r | 0 <= r < |blocks|
      ensures AllChunks(shards, pieces)[r] == blocks[r]
    {
      var i, j := Locate(r, tp, pieces);
      AllChunksAt(shards, pieces, i, j);
      ChunkOfShard(blocks, w, tp, pieces, i, j);
    }
  }

  /** The QKV round trip: for all numbers of key/value heads, query heads per key/value head, head sizes and
      tensor-parallel sizes that divide the key/value heads, packing the weights, cutting the packed rows into
      equal shards and merging the shards returns exactly the three weights. */
  lemma QkvRoundTrip<T>(x: Qkv<T>, heads: nat, kvHeads: nat, dim: nat, tp: nat)
    requires kvHeads > 0 && heads % kvHeads == 0 && dim > 0 && tp > 0 && kvHeads % tp == 0
    requires Shaped(x, kvHeads, heads / kvHeads, dim)
    ensures |Pack(x, kvHeads, heads / kvHeads, dim)| % tp == 0
    ensures MergedQkv(Shards(Pack(x, kvHeads, heads / kvHeads, dim), tp), heads, kvHeads, tp) == Some(x)
  {
    var perKv, pieces := heads / kvHeads, kvHeads / tp;
    var blocks := Blocks(x, kvHeads, perKv, dim);
    Exact(kvHeads, tp);
    assert pieces > 0;
    ShardRows(blocks, perKv * dim + dim + dim, tp, pieces);
    ShardsChunkIntoBlocks(blocks, perKv * dim + dim + dim, tp, pieces);
    BlocksTakeApart(x, kvHeads, perKv, dim);
    ShardSizes(blocks, perKv, dim, tp, pieces);
  }

  lemma OneGroup(perKv: nat, dim: nat, pieces: nat)
    requires pieces > 0
    ensures QuerySize(pieces * dim, perKv, pieces) == perKv * dim && KeySize(pieces * dim, pieces) == dim
  {
    assert pieces * dim * perKv == perKv * dim * pieces;
    DivMod(perKv * dim, pieces, 0);
    DivMod(dim, pieces, 0);
  }

  lemma KvRows(perKv: nat, dim: nat, pieces: nat, rows: nat)
    requires rows == pieces * (perKv * dim + dim + dim)
    ensures rows % (perKv + 2) == 0 && KvSize(rows, perKv) == pieces * dim
  {
    assert perKv * dim + dim + dim == dim * (perKv + 2);
    assert pieces * (dim * (perKv + 2)) == pieces * dim * (perKv + 2);
    DivMod(pieces * dim, perKv + 2, 0);
  }

  /** The sizes that the merger computes from the first shard are those of one group. */
  lemma ShardSizes<T>(blocks: seq<seq<T>>, perKv: nat, dim: nat, tp: nat, pieces: nat)
    requires Uniform(blocks, perKv * dim + dim + dim) && tp > 0 && pieces > 0 && |blocks| == tp * pieces
    requires |Flatten(blocks)| % tp == 0
    ensures var rows := |Shards(Flatten(blocks), tp)[0]|;
            && rows % (perKv + 2) == 0 && KvSize(rows, perKv) == pieces * dim
            && QuerySize(pieces * dim, perKv, pieces) == perKv * dim && KeySize(pieces * dim, pieces) == dim
  {
    var w := perKv * dim + dim + dim;
    ShardRows(blocks, w, tp, pieces);
    ShardIs(Flatten(blocks), tp, pieces * w, 0);
    KvRows(perKv, dim, pieces, pieces * w);
    OneGroup(perKv, dim, pieces);
  }

  // ----- gate and up projections -----

  /** The gate and up rows of `linear_fc1` lie in each shard one after the other; the merger halves every shard
      and joins the halves. */
  function MergedGateUp<T>(shards: seq<seq<T>>): (seq<T>, seq<T>) {
    (Flatten(seq(|shards|, i requires 0 <= i < |shards| => shards[i][..Ceil(|shards[i]|, 2)])),
     Flatten(seq(|shards|, i requires 0 <= i < |shards| => shards[i][Ceil(|shards[i]|, 2)..])))
  }

  /** Merging returns both projections, however many ranks they were spread over. */
  lemma GateUpRoundTrip<T>(gate: seq<seq<T>>, up: seq<seq<T>>)
    requires |gate| == |up| && forall i | 0 <= i < |gate| :: |gate[i]| == |up[i]|
    ensures MergedGateUp(seq(|gate|, i requires 0 <= i < |gate| => gate[i] + up[i])) == (Flatten(gate), Flatten(up))
  {
    var shards := seq(|gate|, i requires 0 <= i < |gate| => gate[i] + up[i]);
    forall i | 0 <= i < |gate|
      ensures Ceil(|shards[i]|, 2) == |gate[i]|
    {
    }
    assert seq(|shards|, i requires 0 <= i < |shards| => shards[i][..Ceil(|shards[i]|, 2)]) == gate;
    assert seq(|shards|, i requires 0 <= i < |shards| => shards[i][Ceil(|shards[i]|, 2)..]) == up;
  }
}
