/** The array operations that the batch protocol calls, as functions on the sequence of rows of an array, and
    what each of them does to row numbers. */
module TensorOps {

  // ----- arithmetic -----

  lemma NextMultiple(n: nat, r: nat)
    ensures (n + 1) * r == n * r + r
  {
  }

  lemma Scale(a: nat, b: nat, k: nat)
    requires a <= b
    ensures a * k <= b * k
  {
  }

  /** Block numbers and positions inside a block are unique. */
  lemma BlockIsUnique(b: nat, j: nat, c: nat, i: nat, k: nat)
    requires b * k + j == c * k + i && j < k && i < k
    ensures b == c && j == i
  {
    if b < c {
      Scale(b + 1, c, k);
      NextMultiple(b, k);
    } else if c < b {
      Scale(c + 1, b, k);
      NextMultiple(c, k);
    }
  }

  lemma DivMod(q: nat, k: nat, j: nat)
    requires j < k
    ensures (q * k + j) / k == q && (q * k + j) % k == j
  {
    var x := q * k + j;
    assert x == (x / k) * k + x % k;
    BlockIsUnique(q, j, x / k, x % k, k);
  }

  lemma Exact(n: nat, k: nat)
    requires k > 0 && n % k == 0
    ensures k * (n / k) == n && n / k * k == n
  {
  }

  // ----- arrays of rows -----

  ghost predicate Within(index: seq<nat>, n: nat) {
    forall i | 0 <= i < |index| :: index[i] < n
  }

  /** Integer-array indexing. */
  function Gather<T>(xs: seq<T>, index: seq<nat>): (r: seq<T>)
    requires Within(index, |xs|)
    ensures |r| == |index| && forall i | 0 <= i < |r| :: r[i] == xs[index[i]]
  {
    seq(|index|, i requires 0 <= i < |index| => xs[index[i]])
  }

  lemma GatherTwice<T>(xs: seq<T>, p: seq<nat>, q: seq<nat>)
    requires Within(p, |xs|) && Within(q, |p|)
    ensures Within(Gather(p, q), |xs|) && Gather(Gather(xs, p), q) == Gather(xs, Gather(p, q))
  {
  }

  function Iota(n: nat): (r: seq<nat>)
    ensures |r| == n && forall i | 0 <= i < n :: r[i] == i
  {
    seq(n, i => i)
  }

  function Copies<T>(x: T, k: nat): (r: seq<T>)
    ensures |r| == k && forall i | 0 <= i < k :: r[i] == x
  {
    seq(k, _ => x)
  }

  /** Concatenation along the first dimension. */
  function Flatten<T>(xss: seq<seq<T>>): seq<T> {
    if xss == [] then [] else Flatten(xss[..|xss| - 1]) + xss[|xss| - 1]
  }

  lemma FlattenSnoc<T>(xss: seq<seq<T>>, xs: seq<T>)
    ensures Flatten(xss + [xs]) == Flatten(xss) + xs
  {
    assert (xss + [xs])[..|xss|] == xss;
  }

  predicate Uniform<T>(xss: seq<seq<T>>, k: nat) {
    forall i | 0 <= i < |xss| :: |xss[i]| == k
  }

  lemma {:induction false} FlattenUniformSize<T>(xss: seq<seq<T>>, k: nat)
    requires Uniform(xss, k)
    ensures |Flatten(xss)| == |xss| * k
  {
    if xss != [] {
      FlattenUniformSize(xss[..|xss| - 1], k);
      NextMultiple(|xss| - 1, k);
    }
  }

  /** Row i of m blocks of k rows is row i % k of block i / k. */
  lemma {:induction false} FlattenUniformAt<T>(xss: seq<seq<T>>, k: nat, b: nat, j: nat)
    requires Uniform(xss, k) && b < |xss| && j < k
    ensures b * k + j < |Flatten(xss)| && Flatten(xss)[b * k + j] == xss[b][j]
  {
    var front := xss[..|xss| - 1];
    FlattenUniformSize(front, k);
    if b < |front| {
      FlattenUniformAt(front, k, b, j);
    }
  }

  // ----- repeating rows -----

  /** torch.repeat_interleave with one count. */
  function TorchRepeatInterleave<T>(xs: seq<T>, k: nat): seq<T> {
    Flatten(seq(|xs|, i requires 0 <= i < |xs| => Copies(xs[i], k)))
  }

  /** tensor.unsqueeze(0).expand(k, ...).reshape(-1, ...). */
  function TorchStack<T>(xs: seq<T>, k: nat): seq<T> {
    Flatten(Copies(xs, k))
  }

  /** torch.repeat_interleave and numpy.repeat with one count per row. */
  function RepeatEach<T>(xs: seq<T>, counts: seq<nat>): seq<T>
    requires |counts| == |xs|
  {
    if xs == [] then []
    else RepeatEach(xs[..|xs| - 1], counts[..|xs| - 1]) + Copies(xs[|xs| - 1], counts[|xs| - 1])
  }

  /** numpy.repeat with one count. */
  function NumpyRepeat<T>(xs: seq<T>, k: nat): seq<T> {
    RepeatEach(xs, Copies(k, |xs|))
  }

  /** numpy.tile along the first dimension. */
  function NumpyTile<T>(xs: seq<T>, k: nat): seq<T> {
    if xs == [] then [] else seq(k * |xs|, i requires 0 <= i < k * |xs| => xs[i % |xs|])
  }

  function InterleaveIndex(n: nat, k: nat): seq<nat> {
    NumpyRepeat(Iota(n), k)
  }

  function StackIndex(n: nat, k: nat): seq<nat> {
    NumpyTile(Iota(n), k)
  }

  /** The two libraries repeat alike. */
  lemma {:induction false} InterleaveAgrees<T>(xs: seq<T>, k: nat)
    ensures TorchRepeatInterleave(xs, k) == NumpyRepeat(xs, k)
  {
    if xs != [] {
      var front := xs[..|xs| - 1];
      InterleaveAgrees(front, k);
      var blocks := seq(|xs|, i requires 0 <= i < |xs| => Copies(xs[i], k));
      assert blocks[..|xs| - 1] == seq(|front|, i requires 0 <= i < |front| => Copies(front[i], k));
      assert Copies(k, |xs|)[..|xs| - 1] == Copies(k, |front|);
    }
  }

  lemma StackAgrees<T>(xs: seq<T>, k: nat)
    ensures TorchStack(xs, k) == NumpyTile(xs, k)
  {
    var blocks := Copies(xs, k);
    FlattenUniformSize(blocks, |xs|);
    if xs != [] {
      forall i | 0 <= i < k * |xs|
        ensures Flatten(blocks)[i] == xs[i % |xs|]
      {
        InBlock(i, k, |xs|);
        FlattenUniformAt(blocks, |xs|, i / |xs|, i % |xs|);
      }
    }
  }

  /** Every position lies in some block. */
  lemma Locate(r: nat, m: nat, k: nat) returns (b: nat, j: nat)
    requires r < m * k
    ensures b < m && j < k && r == b * k + j
  {
    InBlock(r, m, k);
    b, j := r / k, r % k;
  }

  lemma InBlock(i: nat, m: nat, k: nat)
    requires i < m * k
    ensures k > 0 && i / k < m && i == (i / k) * k + i % k && i % k < k
  {
    if k > 0 && i / k >= m {
      Scale(m, i / k, k);
    }
  }

  /** Row b * k + j of an interleaved repetition is row b; row b * n + j of a stacked one is row j. */
  lemma InterleaveAt<T>(xs: seq<T>, k: nat, b: nat, j: nat, m: nat, r: nat)
    requires b < |xs| && j < k && m == |xs| * k && r == b * k + j
    ensures r < m == |NumpyRepeat(xs, k)| && NumpyRepeat(xs, k)[r] == xs[b]
  {
    var blocks := seq(|xs|, i requires 0 <= i < |xs| => Copies(xs[i], k));
    InterleaveAgrees(xs, k);
    FlattenUniformSize(blocks, k);
    FlattenUniformAt(blocks, k, b, j);
  }

  lemma StackAt<T>(xs: seq<T>, k: nat, b: nat, j: nat, m: nat, r: nat)
    requires b < k && j < |xs| && m == k * |xs| && r == b * |xs| + j
    ensures r < m == |NumpyTile(xs, k)| && NumpyTile(xs, k)[r] == xs[j]
  {
    InRange(b, k, j, |xs|);
    DivMod(b, |xs|, j);
    TileIs(xs, k, m, r);
  }

  lemma TileIs<T>(xs: seq<T>, k: nat, m: nat, r: nat)
    requires xs != [] && m == k * |xs| && r < m
    ensures |NumpyTile(xs, k)| == m && NumpyTile(xs, k)[r] == xs[r % |xs|]
  {
  }

  lemma InRange(b: nat, m: nat, j: nat, k: nat)
    requires b < m && j < k
    ensures b * k + j < m * k
  {
    Scale(b + 1, m, k);
    NextMultiple(b, k);
  }

  // ----- every repetition is an index map -----

  lemma {:induction false} RepeatEachIsGather<T>(xs: seq<T>, counts: seq<nat>)
    requires |counts| == |xs|
    ensures Within(RepeatEach(Iota(|xs|), counts), |xs|)
    ensures RepeatEach(xs, counts) == Gather(xs, RepeatEach(Iota(|xs|), counts))
  {
    if xs != [] {
      var front := xs[..|xs| - 1];
      RepeatEachIsGather(front, counts[..|front|]);
      assert Iota(|xs|)[..|front|] == Iota(|front|);
    }
  }

  lemma TileIsGather<T>(xs: seq<T>, k: nat)
    ensures Within(StackIndex(|xs|, k), |xs|) && NumpyTile(xs, k) == Gather(xs, StackIndex(|xs|, k))
  {
    if xs != [] {
      forall i | 0 <= i < k * |xs|
        ensures StackIndex(|xs|, k)[i] == i % |xs| < |xs|
      {
        InBlock(i, k, |xs|);
      }
    }
  }

  lemma {:induction false} RepeatEachSize<T>(xs: seq<T>, counts: seq<nat>)
    requires |counts| == |xs|
    ensures |RepeatEach(xs, counts)| == Sum(counts)
  {
    if xs != [] {
      RepeatEachSize(xs[..|xs| - 1], counts[..|xs| - 1]);
    }
  }

  function Sum(counts: seq<nat>): nat {
    if counts == [] then 0 else Sum(counts[..|counts| - 1]) + counts[|counts| - 1]
  }

  /** Repetition by counts keeps the order of the rows and takes row b exactly counts[b] times. */
  lemma {:induction false} RepeatEachCounts(counts: seq<nat>, b: nat)
    requires b < |counts|
    ensures multiset(RepeatEach<nat>(Iota(|counts|), counts))[b] == counts[b]
  {
    var n := |counts| - 1;
    assert Iota(|counts|)[..n] == Iota(n);
    if b < n {
      RepeatEachCounts(counts[..n], b);
    } else {
      AbsentBeyond(counts[..n], b);
    }
    CopiesCount(n, counts[n], b);
  }

  lemma {:induction false} CopiesCount(x: nat, k: nat, y: nat)
    ensures multiset(Copies<nat>(x, k))[y] == if y == x then k else 0
  {
    if k > 0 {
      CopiesCount(x, k - 1, y);
      assert Copies<nat>(x, k) == Copies<nat>(x, k - 1) + [x];
    }
  }

  lemma AbsentBeyond(counts: seq<nat>, b: nat)
    requires b >= |counts|
    ensures multiset(RepeatEach<nat>(Iota(|counts|), counts))[b] == 0
  {
    RepeatEachIsGather(Iota(|counts|), counts);
    assert b !in RepeatEach<nat>(Iota(|counts|), counts);
  }

  lemma {:induction false} RepeatEachAscends(counts: seq<nat>, i: nat, j: nat)
    requires i < j < |RepeatEach(Iota(|counts|), counts)|
    ensures RepeatEach(Iota(|counts|), counts)[i] <= RepeatEach(Iota(|counts|), counts)[j]
  {
    var n := |counts| - 1;
    assert Iota(|counts|)[..n] == Iota(n);
    RepeatEachIsGather(Iota(n), counts[..n]);
    if j < |RepeatEach(Iota(n), counts[..n])| {
      RepeatEachAscends(counts[..n], i, j);
    }
  }

  // ----- cutting along the first dimension -----

  ghost predicate Cuts(bounds: seq<nat>, n: nat) {
    && |bounds| > 0 && bounds[0] == 0 && bounds[|bounds| - 1] == n
    && forall p, q | 0 <= p <= q < |bounds| :: bounds[p] <= bounds[q] <= n
  }

  function Pieces<T>(xs: seq<T>, bounds: seq<nat>): (r: seq<seq<T>>)
    requires Cuts(bounds, |xs|)
    ensures |r| == |bounds| - 1 && forall p | 0 <= p < |r| :: r[p] == xs[bounds[p]..bounds[p + 1]]
  {
    seq(|bounds| - 1, p requires 0 <= p < |bounds| - 1 => xs[bounds[p]..bounds[p + 1]])
  }

  lemma {:induction false} PiecesPrefix<T>(xs: seq<T>, bounds: seq<nat>, m: nat)
    requires Cuts(bounds, |xs|) && m < |bounds|
    ensures Flatten(Pieces(xs, bounds)[..m]) == xs[..bounds[m]]
  {
    if m > 0 {
      PiecesPrefix(xs, bounds, m - 1);
      assert Pieces(xs, bounds)[..m][..m - 1] == Pieces(xs, bounds)[..m - 1];
      assert bounds[m - 1] <= bounds[m];
      assert xs[..bounds[m]] == xs[..bounds[m - 1]] + xs[bounds[m - 1]..bounds[m]];
    }
  }

  /** Concatenating the pieces of any cut gives the array back. */
  lemma PiecesRejoin<T>(xs: seq<T>, bounds: seq<nat>)
    requires Cuts(bounds, |xs|)
    ensures Flatten(Pieces(xs, bounds)) == xs
  {
    PiecesPrefix(xs, bounds, |bounds| - 1);
    assert Pieces(xs, bounds)[..|bounds| - 1] == Pieces(xs, bounds);
  }

  // ----- equal pieces -----

  lemma GroupFits(g: nat, m: nat, w: nat)
    requires g < m
    ensures g * w + w <= m * w
  {
    Scale(g + 1, m, w);
    NextMultiple(g, w);
  }

  function EvenBounds(m: nat, w: nat): seq<nat> {
    seq(m + 1, g requires 0 <= g => g * w)
  }

  lemma EvenCuts(m: nat, w: nat)
    ensures Cuts(EvenBounds(m, w), m * w)
  {
    forall p, q | 0 <= p <= q <= m
      ensures EvenBounds(m, w)[p] <= EvenBounds(m, w)[q] <= m * w
    {
      Scale(p, q, w);
      Scale(q, m, w);
    }
  }

  /** Piece b of equal blocks joined together is block b. */
  lemma BlockOfJoined<T>(xss: seq<seq<T>>, w: nat, b: nat)
    requires Uniform(xss, w) && b < |xss|
    ensures b * w + w <= |Flatten(xss)| && Flatten(xss)[b * w..b * w + w] == xss[b]
  {
    FlattenUniformSize(xss, w);
    GroupFits(b, |xss|, w);
    forall x | b * w <= x < b * w + w
      ensures Flatten(xss)[x] == xss[b][x - b * w]
    {
      FlattenUniformAt(xss, w, b, x - b * w);
    }
  }

  // ----- torch.chunk -----

  /** torch.chunk makes pieces of the rounded-up size, so it may make fewer than k of them; with no rows it
      makes k empty pieces. */
  function TorchPieces(n: nat, k: nat): nat
    requires k > 0
  {
    if n == 0 then k else Ceil(n, Ceil(n, k))
  }

  function Ceil(n: nat, k: nat): (r: nat)
    requires k > 0
    ensures n > 0 ==> r > 0
  {
    (n + k - 1) / k
  }

  function Min(a: nat, b: nat): nat {
    if a < b then a else b
  }

  /** Where the tensors are cut. */
  function TorchBounds(n: nat, k: nat): seq<nat>
    requires k > 0
  {
    seq(TorchPieces(n, k) + 1, p requires 0 <= p => Min(p * Ceil(n, k), n))
  }

  lemma TorchCuts(n: nat, k: nat)
    requires k > 0
    ensures Cuts(TorchBounds(n, k), n) && |TorchBounds(n, k)| > 1
  {
    var c, m := Ceil(n, k), TorchPieces(n, k);
    if n > 0 {
      CeilCovers(n, c);
    }
    forall p, q | 0 <= p <= q <= m
      ensures TorchBounds(n, k)[p] <= TorchBounds(n, k)[q] <= n
    {
      Scale(p, q, c);
    }
  }

  lemma CeilCovers(n: nat, k: nat)
    requires k > 0
    ensures Ceil(n, k) * k >= n && (n > 0 ==> (Ceil(n, k) - 1) * k < n)
  {
    var x := n + k - 1;
    assert x == x / k * k + x % k;
    assert n > 0 ==> (Ceil(n, k) - 1) * k == Ceil(n, k) * k - k;
  }

  lemma CeilExact(n: nat, k: nat)
    requires k > 0 && n % k == 0
    ensures Ceil(n, k) == n / k
  {
    Exact(n, k);
    DivMod(n / k, k, k - 1);
  }

  /** torch.chunk of m * w rows into m makes m pieces of w. */
  lemma EvenTorchBounds(m: nat, w: nat)
    requires m > 0 && w > 0
    ensures TorchBounds(m * w, m) == EvenBounds(m, w)
  {
    var n := m * w;
    EvenPieces(m, w, n);
    forall p | 0 <= p <= m
      ensures Min(p * w, n) == p * w
    {
      Scale(p, m, w);
    }
    assert |TorchBounds(n, m)| == m + 1;
    assert forall p | 0 <= p <= m :: TorchBounds(n, m)[p] == EvenBounds(m, w)[p];
  }

  lemma EvenPieces(m: nat, w: nat, n: nat)
    requires m > 0 && w > 0 && n == m * w
    ensures Ceil(n, m) == w && TorchPieces(n, m) == m
  {
    DivMod(w, m, 0);
    CeilExact(n, m);
    DivMod(m, w, 0);
    CeilExact(n, w);
    Scale(1, m, w);
  }
}
