/** Renumbering the decoder layers when pipeline stages are merged
    (Latent-GRPO/verl-0.4.x/scripts/model_merger.py:431-472). */
module MegatronLayers {
  import opened TensorOps

  /** A parameter name: of a decoder layer, or any other. */
  datatype Name = Layer(no: nat, rest: string) | Other(name: string)

  /** `skipped` marks the extra-state entries, and the output layer under tied embeddings. */
  datatype Entry = Entry(name: Name, skipped: bool)

  /** The names held by one virtual stage of one pipeline rank, in the order of its dictionary. */
  type Chunk = seq<Entry>

  /** Where a merged parameter comes from. */
  datatype Source = Source(chunk: nat, name: Name)

  function Max(a: nat, b: nat): nat {
    if a < b then b else a
  }

  /** The highest local layer number handled in a chunk, 0 when there is none. */
  function Handled(chunk: Chunk): nat {
    if chunk == [] then 0
    else
      var e := chunk[|chunk| - 1];
      if !e.skipped && e.name.Layer? then Max(Handled(chunk[..|chunk| - 1]), e.name.no) else Handled(chunk[..|chunk| - 1])
  }

  lemma {:induction false} HandledIsHighest(chunk: Chunk, i: nat)
    requires i < |chunk| && !chunk[i].skipped && chunk[i].name.Layer?
    ensures chunk[i].name.no <= Handled(chunk)
  {
    if i < |chunk| - 1 {
      HandledIsHighest(chunk[..|chunk| - 1], i);
    }
  }

  /** The first global layer number of chunk c. */
  function Offset(chunks: seq<Chunk>, c: nat): nat
    requires c <= |chunks|
  {
    if c == 0 then 0 else Offset(chunks, c - 1) + Handled(chunks[c - 1]) + 1
  }

  lemma {:induction false} OffsetsApart(chunks: seq<Chunk>, b: nat, c: nat)
    requires b < c <= |chunks|
    ensures Offset(chunks, b) + Handled(chunks[b]) < Offset(chunks, c)
  {
    if b < c - 1 {
      OffsetsApart(chunks, b, c - 1);
    }
  }

  function Renamed(name: Name, offset: nat): Name {
    match name
    case Layer(no, rest) => Layer(no + offset, rest)
    case Other(_) => name
  }

  /** Entry i of chunk b has been merged when the loops stand at entry k of chunk c. */
  predicate Before(chunks: seq<Chunk>, b: nat, i: nat, c: nat, k: nat) {
    b < |chunks| && i < |chunks[b]| && (b < c || (b == c && i < k))
  }

  /** What entry i of chunk b is called in the merged dictionary. */
  function GlobalName(chunks: seq<Chunk>, b: nat, i: nat): Name
    requires b < |chunks| && i < |chunks[b]|
  {
    Renamed(chunks[b][i].name, Offset(chunks, b))
  }

  /** No merged layer parameter has been overwritten. */
  ghost predicate LayersKept(chunks: seq<Chunk>, c: nat, k: nat, stateDict: map<Name, Source>) {
    forall b: nat, i: nat | Before(chunks, b, i, c, k) && !chunks[b][i].skipped && chunks[b][i].name.Layer? ::
      && GlobalName(chunks, b, i) in stateDict
      && stateDict[GlobalName(chunks, b, i)] == Source(b, chunks[b][i].name)
  }

  ghost predicate OthersPresent(chunks: seq<Chunk>, c: nat, k: nat, stateDict: map<Name, Source>) {
    forall b: nat, i: nat | Before(chunks, b, i, c, k) && !chunks[b][i].skipped && chunks[b][i].name.Other? ::
      chunks[b][i].name in stateDict
  }

  /** Every merged parameter comes from an entry that was read and not skipped. */
  ghost predicate NothingInvented(chunks: seq<Chunk>, c: nat, k: nat, stateDict: map<Name, Source>) {
    forall name | name in stateDict :: ComesFrom(chunks, c, k, name, stateDict[name])
  }

  ghost predicate ComesFrom(chunks: seq<Chunk>, c: nat, k: nat, name: Name, source: Source) {
    exists i: nat :: Before(chunks, source.chunk, i, c, k) && IsEntry(chunks, source, i, name)
  }

  predicate IsEntry(chunks: seq<Chunk>, source: Source, i: nat, name: Name)
    requires source.chunk < |chunks| && i < |chunks[source.chunk]|
  {
    && !chunks[source.chunk][i].skipped && chunks[source.chunk][i].name == source.name
    && name == GlobalName(chunks, source.chunk, i)
  }

  ghost predicate Merged(chunks: seq<Chunk>, c: nat, k: nat, stateDict: map<Name, Source>) {
    LayersKept(chunks, c, k, stateDict) && OthersPresent(chunks, c, k, stateDict) && NothingInvented(chunks, c, k, stateDict)
  }

  /** The names in one dictionary are distinct. */
  ghost predicate NamesDiffer(chunks: seq<Chunk>) {
    forall b, i, j | 0 <= b < |chunks| && 0 <= i < j < |chunks[b]| :: chunks[b][i].name != chunks[b][j].name
  }

  /** Renumbering never gives two layer parameters the same name. */
  lemma NoClash(chunks: seq<Chunk>, b: nat, i: nat, c: nat, k: nat)
    requires NamesDiffer(chunks) && c < |chunks| && k < |chunks[c]| && Before(chunks, b, i, c, k)
    requires !chunks[b][i].skipped && chunks[b][i].name.Layer?
    ensures GlobalName(chunks, b, i) != GlobalName(chunks, c, k)
  {
    if b < c {
      HandledIsHighest(chunks[b], i);
      OffsetsApart(chunks, b, c);
    } else {
      assert chunks[b][i].name != chunks[c][k].name;
    }
  }

  lemma KeepLayers(chunks: seq<Chunk>, c: nat, k: nat, stateDict: map<Name, Source>)
    requires NamesDiffer(chunks) && c < |chunks| && k < |chunks[c]| && LayersKept(chunks, c, k, stateDict)
    ensures LayersKept(chunks, c, k + 1, stateDict[GlobalName(chunks, c, k) := Source(c, chunks[c][k].name)])
  {
    forall b: nat, i: nat | Before(chunks, b, i, c, k) && !chunks[b][i].skipped && chunks[b][i].name.Layer?
      ensures GlobalName(chunks, b, i) != GlobalName(chunks, c, k)
    {
      NoClash(chunks, b, i, c, k);
    }
  }

  lemma InventNothing(chunks: seq<Chunk>, c: nat, k: nat, stateDict: map<Name, Source>)
    requires c < |chunks| && k < |chunks[c]| && NothingInvented(chunks, c, k, stateDict) && !chunks[c][k].skipped
    ensures NothingInvented(chunks, c, k + 1, stateDict[GlobalName(chunks, c, k) := Source(c, chunks[c][k].name)])
  {
    var dict := stateDict[GlobalName(chunks, c, k) := Source(c, chunks[c][k].name)];
    forall name | name in dict
      ensures ComesFrom(chunks, c, k + 1, name, dict[name])
    {
      if name == GlobalName(chunks, c, k) {
        assert Before(chunks, c, k, c, k + 1) && IsEntry(chunks, dict[name], k, name);
      } else {
        var i: nat :| Before(chunks, dict[name].chunk, i, c, k) && IsEntry(chunks, dict[name], i, name);
        assert Before(chunks, dict[name].chunk, i, c, k + 1);
      }
    }
  }

  /** One turn of the innermost loop. */
  lemma MergeEntry(chunks: seq<Chunk>, c: nat, k: nat, stateDict: map<Name, Source>)
    requires NamesDiffer(chunks) && c < |chunks| && k < |chunks[c]| && Merged(chunks, c, k, stateDict)
    requires !chunks[c][k].skipped
    ensures Merged(chunks, c, k + 1, stateDict[GlobalName(chunks, c, k) := Source(c, chunks[c][k].name)])
  {
    KeepLayers(chunks, c, k, stateDict);
    InventNothing(chunks, c, k, stateDict);
  }

  lemma SkipEntry(chunks: seq<Chunk>, c: nat, k: nat, stateDict: map<Name, Source>)
    requires c < |chunks| && k < |chunks[c]| && Merged(chunks, c, k, stateDict) && chunks[c][k].skipped
    ensures Merged(chunks, c, k + 1, stateDict)
  {
    forall name | name in stateDict
      ensures ComesFrom(chunks, c, k + 1, name, stateDict[name])
    {
      var i: nat :| Before(chunks, stateDict[name].chunk, i, c, k) && IsEntry(chunks, stateDict[name], i, name);
      assert Before(chunks, stateDict[name].chunk, i, c, k + 1);
    }
  }

  lemma ChunkDone(chunks: seq<Chunk>, c: nat, stateDict: map<Name, Source>)
    requires c < |chunks| && Merged(chunks, c, |chunks[c]|, stateDict)
    ensures Merged(chunks, c + 1, 0, stateDict)
  {
    forall b: nat, i: nat | Before(chunks, b, i, c + 1, 0)
      ensures Before(chunks, b, i, c, |chunks[c]|)
    {
    }
    forall name | name in stateDict
      ensures ComesFrom(chunks, c + 1, 0, name, stateDict[name])
    {
      var i: nat :| Before(chunks, stateDict[name].chunk, i, c, |chunks[c]|) && IsEntry(chunks, stateDict[name], i, name);
      assert Before(chunks, stateDict[name].chunk, i, c + 1, 0);
    }
  }

  /** All chunks in virtual-stage-major order; `grid[pp][vpp]` is virtual stage vpp of pipeline rank pp. */
  function InOrder(grid: seq<seq<Chunk>>, vppSize: nat): seq<Chunk>
    requires forall pp | 0 <= pp < |grid| :: |grid[pp]| == vppSize
  {
    Flatten(Stages(grid, vppSize))
  }

  function Stages(grid: seq<seq<Chunk>>, vppSize: nat): (r: seq<seq<Chunk>>)
    requires forall pp | 0 <= pp < |grid| :: |grid[pp]| == vppSize
    ensures |r| == vppSize && Uniform(r, |grid|)
    ensures forall v, pp | 0 <= v < vppSize && 0 <= pp < |grid| :: r[v][pp] == grid[pp][v]
  {
    seq(vppSize, v requires 0 <= v < vppSize => seq(|grid|, pp requires 0 <= pp < |grid| => grid[pp][v]))
  }

  lemma InOrderAt(grid: seq<seq<Chunk>>, vppSize: nat, v: nat, pp: nat)
    requires forall pp | 0 <= pp < |grid| :: |grid[pp]| == vppSize
    requires v < vppSize && pp < |grid|
    ensures v * |grid| + pp < |InOrder(grid, vppSize)| && InOrder(grid, vppSize)[v * |grid| + pp] == grid[pp][v]
  {
    FlattenUniformAt(Stages(grid, vppSize), |grid|, v, pp);
  }

  /** `_merge_state_dicts`: the loops over virtual stages, pipeline ranks and names.  Layer parameters get their
      global numbers and none overwrites another. */
  method MergeStateDicts(grid: seq<seq<Chunk>>, vppSize: nat) returns (stateDict: map<Name, Source>)
    requires forall pp | 0 <= pp < |grid| :: |grid[pp]| == vppSize
    requires NamesDiffer(InOrder(grid, vppSize))
    ensures Merged(InOrder(grid, vppSize), |InOrder(grid, vppSize)|, 0, stateDict)
  {
    ghost var chunks := InOrder(grid, vppSize);
    FlattenUniformSize(Stages(grid, vppSize), |grid|);
    stateDict := map[];
    var layersCum := 0;
    var c := 0;
    for vpp := 0 to vppSize
      invariant c == vpp * |grid| <= |chunks| && layersCum == Offset(chunks, c)
      invariant Merged(chunks, c, 0, stateDict)
    {
      NextMultiple(vpp, |grid|);
      for pp := 0 to |grid|
        invariant c == vpp * |grid| + pp <= |chunks| && layersCum == Offset(chunks, c)
        invariant Merged(chunks, c, 0, stateDict)
      {
        InOrderAt(grid, vppSize, vpp, pp);
        var layersHandled;
        stateDict, layersHandled := MergeChunk(grid[pp][vpp], layersCum, stateDict, chunks, c);
        layersCum := layersCum + layersHandled + 1;
        c := c + 1;
      }
    }
  }

  /** The loop over the names of one chunk. */
  method MergeChunk(keys: Chunk, layersCum: nat, before: map<Name, Source>, ghost chunks: seq<Chunk>, c: nat)
    returns (stateDict: map<Name, Source>, layersHandled: nat)
    requires NamesDiffer(chunks) && c < |chunks| && chunks[c] == keys && layersCum == Offset(chunks, c)
    requires Merged(chunks, c, 0, before)
    ensures Merged(chunks, c + 1, 0, stateDict) && layersHandled == Handled(keys)
  {
    stateDict := before;
    layersHandled := 0;
    for k := 0 to |keys|
      invariant layersHandled == Handled(keys[..k]) && Merged(chunks, c, k, stateDict)
    {
      assert keys[..k + 1][..k] == keys[..k];
      if keys[k].skipped {
        SkipEntry(chunks, c, k, stateDict);
        continue;
      }
      if keys[k].name.Layer? {
        layersHandled := Max(layersHandled, keys[k].name.no);
      }
      MergeEntry(chunks, c, k, stateDict);
      stateDict := stateDict[Renamed(keys[k].name, layersCum) := Source(c, keys[k].name)];
    }
    assert keys[..|keys|] == keys;
    ChunkDone(chunks, c, stateDict);
  }

  // ----- which global layer numbers are used -----

  ghost predicate HasLayer(chunk: Chunk, no: nat) {
    exists i: nat :: i < |chunk| && !chunk[i].skipped && chunk[i].name.Layer? && chunk[i].name.no == no
  }

  /** The chunk holds the local layers 0 .. n - 1, each at least once. */
  ghost predicate Dense(chunk: Chunk, n: nat) {
    forall no: nat :: HasLayer(chunk, no) <==> no < n
  }

  lemma {:induction false} HandledIsHeld(chunk: Chunk)
    ensures Handled(chunk) > 0 ==> HasLayer(chunk, Handled(chunk))
  {
    if chunk != [] {
      var front, e := chunk[..|chunk| - 1], chunk[|chunk| - 1];
      HandledIsHeld(front);
      if Handled(front) > 0 {
        var i: nat :| i < |front| && !front[i].skipped && front[i].name.Layer? && front[i].name.no == Handled(front);
        assert chunk[i] == front[i];
      }
      assert chunk[|chunk| - 1] == e;
    }
  }

  lemma HandledDense(chunk: Chunk, n: nat)
    requires Dense(chunk, n)
    ensures Handled(chunk) + 1 == Max(n, 1)
  {
    HandledIsHeld(chunk);
    if n > 0 {
      assert HasLayer(chunk, n - 1);
      var i: nat :| i < |chunk| && !chunk[i].skipped && chunk[i].name.Layer? && chunk[i].name.no == n - 1;
      HandledIsHighest(chunk, i);
    }
  }

  /** The first global number of chunk c when chunk b holds counts[b] layers: an empty chunk still takes one. */
  function Start(counts: seq<nat>, c: nat): nat
    requires c <= |counts|
  {
    if c == 0 then 0 else Start(counts, c - 1) + Max(counts[c - 1], 1)
  }

  ghost predicate AllDense(chunks: seq<Chunk>, counts: seq<nat>) {
    |chunks| == |counts| && forall c | 0 <= c < |chunks| :: Dense(chunks[c], counts[c])
  }

  lemma {:induction false} OffsetIsStart(chunks: seq<Chunk>, counts: seq<nat>, c: nat)
    requires AllDense(chunks, counts) && c <= |chunks|
    ensures Offset(chunks, c) == Start(counts, c)
  {
    if c > 0 {
      OffsetIsStart(chunks, counts, c - 1);
      HandledDense(chunks[c - 1], counts[c - 1]);
    }
  }

  predicate InRangeOf(counts: seq<nat>, c: nat, x: nat) {
    c < |counts| && Start(counts, c) <= x < Start(counts, c) + counts[c]
  }

  ghost predicate Used(counts: seq<nat>, x: nat) {
    exists c: nat :: InRangeOf(counts, c, x)
  }

  ghost predicate HasGlobal(stateDict: map<Name, Source>, x: nat) {
    exists rest :: Layer(x, rest) in stateDict
  }

  /** The merged dictionary holds global layer x exactly when x lies in the range of some chunk. */
  lemma GlobalLayers(chunks: seq<Chunk>, counts: seq<nat>, stateDict: map<Name, Source>, x: nat)
    requires AllDense(chunks, counts) && Merged(chunks, |chunks|, 0, stateDict)
    ensures HasGlobal(stateDict, x) <==> Used(counts, x)
  {
    if HasGlobal(stateDict, x) {
      var rest :| Layer(x, rest) in stateDict;
      GlobalIsUsed(chunks, counts, stateDict, x, rest);
    }
    if Used(counts, x) {
      var c: nat :| InRangeOf(counts, c, x);
      UsedIsGlobal(chunks, counts, stateDict, x, c);
    }
  }

  lemma GlobalIsUsed(chunks: seq<Chunk>, counts: seq<nat>, stateDict: map<Name, Source>, x: nat, rest: string)
    requires AllDense(chunks, counts) && Merged(chunks, |chunks|, 0, stateDict) && Layer(x, rest) in stateDict
    ensures Used(counts, x)
  {
    var name := Layer(x, rest);
    var source := stateDict[name];
    assert ComesFrom(chunks, |chunks|, 0, name, source);
    var i: nat :| Before(chunks, source.chunk, i, |chunks|, 0) && IsEntry(chunks, source, i, name);
    var c := source.chunk;
    OffsetIsStart(chunks, counts, c);
    assert HasLayer(chunks[c], source.name.no);
    assert InRangeOf(counts, c, x);
  }

  lemma UsedIsGlobal(chunks: seq<Chunk>, counts: seq<nat>, stateDict: map<Name, Source>, x: nat, c: nat)
    requires AllDense(chunks, counts) && Merged(chunks, |chunks|, 0, stateDict) && InRangeOf(counts, c, x)
    ensures HasGlobal(stateDict, x)
  {
    var no := x - Start(counts, c);
    OffsetIsStart(chunks, counts, c);
    assert HasLayer(chunks[c], no);
    var i: nat :| i < |chunks[c]| && !chunks[c][i].skipped && chunks[c][i].name.Layer? && chunks[c][i].name.no == no;
    assert Before(chunks, c, i, |chunks|, 0);
    assert GlobalName(chunks, c, i) == Layer(x, chunks[c][i].name.rest);
  }

  lemma {:induction false} StartsApart(counts: seq<nat>, b: nat, c: nat)
    requires b < c <= |counts|
    ensures Start(counts, b) + Max(counts[b], 1) <= Start(counts, c)
  {
    if b < c - 1 {
      StartsApart(counts, b, c - 1);
    }
  }

  /** Global numbers follow the order of the chunks, virtual stage first: a later chunk gets higher numbers. */
  lemma LaterChunkHigherNumbers(counts: seq<nat>, b: nat, c: nat, x: nat, y: nat)
    requires b < c && InRangeOf(counts, b, x) && InRangeOf(counts, c, y)
    ensures x < y
  {
    StartsApart(counts, b, c);
  }

  lemma {:induction false} SumSplit(counts: seq<nat>, c: nat)
    requires c < |counts|
    ensures Sum(counts[..c]) + counts[c] == Sum(counts[..c + 1]) <= Sum(counts)
    decreases |counts| - c
  {
    assert counts[..c + 1][..c] == counts[..c];
    if c + 1 < |counts| {
      SumSplit(counts, c + 1);
    } else {
      assert counts[..c + 1] == counts;
    }
  }

  lemma {:induction false} FullStart(counts: seq<nat>, c: nat)
    requires c <= |counts| && forall b | 0 <= b < c :: counts[b] > 0
    ensures Start(counts, c) == Sum(counts[..c])
  {
    if c > 0 {
      FullStart(counts, c - 1);
      assert counts[..c][..c - 1] == counts[..c - 1];
    }
  }

  lemma {:induction false} FindChunk(counts: seq<nat>, m: nat, x: nat) returns (c: nat)
    requires m <= |counts| && x < Sum(counts[..m])
    ensures c < m && Sum(counts[..c]) <= x < Sum(counts[..c]) + counts[c]
  {
    assert counts[..m][..m - 1] == counts[..m - 1];
    if x < Sum(counts[..m - 1]) {
      c := FindChunk(counts, m - 1, x);
    } else {
      c := m - 1;
    }
  }

  /** No empty chunk stands before a chunk with layers. */
  ghost predicate NoEmptyBefore(counts: seq<nat>) {
    forall b, c | 0 <= b < c < |counts| :: counts[c] > 0 ==> counts[b] > 0
  }

  ghost predicate NoHoles(counts: seq<nat>) {
    forall x: nat :: Used(counts, x) <==> x < Sum(counts)
  }

  lemma FullMeansNoHole(counts: seq<nat>, x: nat)
    requires NoEmptyBefore(counts)
    ensures Used(counts, x) <==> x < Sum(counts)
  {
    if x < Sum(counts) {
      assert counts[..|counts|] == counts;
      var c := FindChunk(counts, |counts|, x);
      FullStart(counts, c);
      assert InRangeOf(counts, c, x);
    }
    if Used(counts, x) {
      var c: nat :| InRangeOf(counts, c, x);
      FullStart(counts, c);
      SumSplit(counts, c);
    }
  }

  lemma {:induction false} FirstEmpty(counts: seq<nat>, b: nat) returns (a: nat)
    requires b < |counts| && counts[b] == 0
    ensures a <= b && counts[a] == 0 && forall e | 0 <= e < a :: counts[e] > 0
  {
    a := 0;
    while counts[a] > 0
      invariant a <= b && forall e | 0 <= e < a :: counts[e] > 0
      decreases b - a
    {
      a := a + 1;
    }
  }

  lemma {:induction false} LaterCounts(counts: seq<nat>, a: nat, c: nat)
    requires a <= c < |counts|
    ensures Sum(counts[..a]) + counts[c] <= Sum(counts)
  {
    SumSplit(counts, c);
    if a < c {
      SumSplit(counts[..c], a);
      assert counts[..c][..a] == counts[..a];
    }
  }

  /** The first empty chunk takes a number that no layer gets. */
  lemma EmptyMakesHole(counts: seq<nat>, b: nat, c: nat) returns (x: nat)
    requires b < c < |counts| && counts[b] == 0 && counts[c] > 0
    ensures x < Sum(counts) && !Used(counts, x)
  {
    var a := FirstEmpty(counts, b);
    x := Start(counts, a);
    FullStart(counts, a);
    LaterCounts(counts, a, c);
    forall e: nat
      ensures !InRangeOf(counts, e, Start(counts, a))
    {
      if e < a {
        StartsApart(counts, e, a);
      } else if a < e < |counts| {
        StartsApart(counts, a, e);
      }
    }
  }

  /** The global numbers are exactly 0 .. total - 1 if and only if no empty chunk stands before a chunk with
      layers. */
  lemma NoHolesIff(counts: seq<nat>)
    ensures NoHoles(counts) <==> NoEmptyBefore(counts)
  {
    if NoEmptyBefore(counts) {
      forall x: nat
        ensures Used(counts, x) <==> x < Sum(counts)
      {
        FullMeansNoHole(counts, x);
      }
    } else {
      var b, c :| 0 <= b < c < |counts| && counts[c] > 0 && counts[b] == 0;
      var x := EmptyMakesHole(counts, b, c);
    }
  }

  /** Renumbering yields the layers 0 .. total - 1 of a whole model if and only if no empty chunk stands before a
      chunk with layers; in particular whenever every chunk holds at least one layer. */
  lemma MergedLayersAreContiguousIff(chunks: seq<Chunk>, counts: seq<nat>, stateDict: map<Name, Source>)
    requires AllDense(chunks, counts) && Merged(chunks, |chunks|, 0, stateDict)
    ensures (forall x: nat :: HasGlobal(stateDict, x) <==> x < Sum(counts)) <==> NoEmptyBefore(counts)
  {
    forall x: nat
      ensures HasGlobal(stateDict, x) <==> Used(counts, x)
    {
      GlobalLayers(chunks, counts, stateDict, x);
    }
    NoHolesIff(counts);
    if forall x: nat :: HasGlobal(stateDict, x) <==> x < Sum(counts) {
      forall x: nat
        ensures Used(counts, x) <==> x < Sum(counts)
      {
        assert HasGlobal(stateDict, x) <==> x < Sum(counts);
      }
    }
  }
}
