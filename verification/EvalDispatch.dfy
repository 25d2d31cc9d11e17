/** Spreading an evaluation over GPUs and putting the predictions back in order
    (Latent-GRPO/eval/eval_high_tasks_sglang.py:461-463,512-536,607-643).  `generate` stands for the engine: what
    the worker on a GPU answers to a prompt. */
module EvalDispatch {
  import opened Options
  import opened TensorOps
  import opened Strings
  import opened PredictionPaths

  type Prompt = int
  type Prediction = int

  /** A file of predictions; its path carries the number of the GPU. */
  datatype File = File(path: string, predictions: seq<Prediction>)

  /** What a path is sorted by; None makes the sort fail. */
  type Key = string -> Option<int>

  function Rank(key: Key): File -> int {
    (f: File) => if key(f.path).Some? then key(f.path).value else 0
  }

  predicate AllKeyed(files: seq<File>, key: Key) {
    forall f | f in files :: key(f.path).Some?
  }

  // ----- cutting -----

  /** The slices xs[i : i + size] for i in range(0, len(xs), size). */
  function Slices<T>(xs: seq<T>, size: nat): seq<seq<T>>
    requires size > 0
    decreases |xs|
  {
    if |xs| == 0 then [] else if |xs| <= size then [xs] else [xs[..size]] + Slices(xs[size..], size)
  }

  /** `batched_list`, and the chunks of `run_one_eval`. */
  method BatchedList<T>(lst: seq<T>, batchSize: nat) returns (batches: seq<seq<T>>)
    requires batchSize > 0
    ensures batches == Slices(lst, batchSize)
  {
    batches := [];
    var i := 0;
    assert lst[0..] == lst;
    while i < |lst|
      invariant 0 <= i && batches + Slices(lst[Min(i, |lst|)..], batchSize) == Slices(lst, batchSize)
      decreases |lst| - i
    {
      var hi := Min(i + batchSize, |lst|);
      FirstSlice(lst, i, batchSize);
      assert batches + ([lst[i..hi]] + Slices(lst[hi..], batchSize)) == batches + [lst[i..hi]] + Slices(lst[hi..], batchSize);
      batches := batches + [lst[i..hi]];
      i := i + batchSize;
    }
  }

  lemma FirstSlice<T>(xs: seq<T>, i: nat, size: nat)
    requires size > 0 && i < |xs|
    ensures Slices(xs[i..], size) == [xs[i..Min(i + size, |xs|)]] + Slices(xs[Min(i + size, |xs|)..], size)
  {
    if i + size < |xs| {
      assert xs[i..][..size] == xs[i..i + size] && xs[i..][size..] == xs[i + size..];
    } else {
      assert xs[i..|xs|] == xs[i..] && xs[|xs|..] == [];
    }
  }

  lemma {:induction false} SlicesRejoin<T>(xs: seq<T>, size: nat)
    requires size > 0
    ensures Flatten(Slices(xs, size)) == xs
    decreases |xs|
  {
    if |xs| == 0 {
    } else if |xs| <= size {
      FlattenSingle(xs);
    } else {
      SlicesRejoin(xs[size..], size);
      FlattenCons(xs[..size], Slices(xs[size..], size));
    }
  }

  lemma FlattenSingle<T>(xs: seq<T>)
    ensures Flatten([xs]) == xs
  {
    assert [xs][..0] == [];
  }

  lemma {:induction false} FlattenCons<T>(xs: seq<T>, xss: seq<seq<T>>)
    ensures Flatten([xs] + xss) == xs + Flatten(xss)
  {
    if xss == [] {
      FlattenSingle(xs);
      assert [xs] + xss == [xs];
    } else {
      var n := |xss| - 1;
      FlattenCons(xs, xss[..n]);
      assert ([xs] + xss)[..n + 1] == [xs] + xss[..n];
    }
  }

  /** There are never more slices than the rounded-up share allows. */
  lemma {:induction false} SliceCount<T>(xs: seq<T>, size: nat, g: nat)
    requires size > 0 && |xs| <= g * size
    ensures |Slices(xs, size)| <= g
    decreases g
  {
    if |xs| > size {
      NextMultiple(g - 1, size);
      SliceCount(xs[size..], size, g - 1);
    }
  }

  lemma CeilNext(n: nat, k: nat, m: nat)
    requires k > 0 && m == n + k
    ensures Ceil(m, k) == Ceil(n, k) + 1
  {
    var x := n + k - 1;
    var q, j := x / k, x % k;
    assert x == q * k + j;
    NextMultiple(q, k);
    DivMod(q + 1, k, j);
  }

  lemma CeilSmall(n: nat, k: nat)
    requires n <= k && k > 0
    ensures Ceil(n, k) == if n == 0 then 0 else 1
  {
    if n == 0 {
      DivMod(0, k, k - 1);
    } else {
      DivMod(1, k, n - 1);
    }
  }

  lemma {:induction false} SlicesCount<T>(xs: seq<T>, size: nat)
    requires size > 0
    ensures |Slices(xs, size)| == Ceil(|xs|, size)
    decreases |xs|
  {
    if |xs| <= size {
      CeilSmall(|xs|, size);
    } else {
      var rest := xs[size..];
      SlicesCount(rest, size);
      CeilNext(|rest|, size, |xs|);
    }
  }

  /** Slice p starts at row p * size. */
  lemma {:induction false} SliceAt<T>(xs: seq<T>, size: nat, p: nat, j: nat)
    requires size > 0 && p < |Slices(xs, size)| && j < |Slices(xs, size)[p]|
    ensures j < size && p * size + j < |xs| && Slices(xs, size)[p][j] == xs[p * size + j]
    decreases p
  {
    if p > 0 {
      SliceAt(xs[size..], size, p - 1, j);
      NextMultiple(p - 1, size);
    }
  }

  // ----- a worker -----

  function Answers(generate: (int, Prompt) -> Prediction, gpu: int, prompts: seq<Prompt>): (r: seq<Prediction>)
    ensures |r| == |prompts| && forall i | 0 <= i < |r| :: r[i] == generate(gpu, prompts[i])
  {
    seq(|prompts|, i requires 0 <= i < |prompts| => generate(gpu, prompts[i]))
  }

  lemma AnswersJoin(generate: (int, Prompt) -> Prediction, gpu: int, xs: seq<Prompt>, ys: seq<Prompt>)
    ensures Answers(generate, gpu, xs + ys) == Answers(generate, gpu, xs) + Answers(generate, gpu, ys)
  {
  }

  /** The batches of one worker, in order. */
  method RunWorker(generate: (int, Prompt) -> Prediction, gpu: int, prompts: seq<Prompt>, batchSize: nat)
    returns (local: seq<Prediction>)
    requires batchSize > 0
    ensures local == Answers(generate, gpu, prompts)
  {
    var batches := BatchedList(prompts, batchSize);
    local := [];
    for b := 0 to |batches|
      invariant local == Answers(generate, gpu, Flatten(batches[..b]))
    {
      assert batches[..b + 1][..b] == batches[..b];
      AnswersJoin(generate, gpu, Flatten(batches[..b]), batches[b]);
      local := local + Answers(generate, gpu, batches[b]);
    }
    assert batches[..|batches|] == batches;
    SlicesRejoin(prompts, batchSize);
  }

  // ----- sorting the files -----

  function InsertFile(files: seq<File>, f: File, rank: File -> int): seq<File> {
    if files == [] then [f]
    else if rank(f) < rank(files[|files| - 1]) then InsertFile(files[..|files| - 1], f, rank) + [files[|files| - 1]]
    else files + [f]
  }

  /** `temp_files.sort` by key, which keeps the order of equal keys. */
  function SortFiles(files: seq<File>, rank: File -> int): seq<File> {
    if files == [] then [] else InsertFile(SortFiles(files[..|files| - 1], rank), files[|files| - 1], rank)
  }

  ghost predicate NotDescending(files: seq<File>, rank: File -> int) {
    forall i, j | 0 <= i < j < |files| :: rank(files[i]) <= rank(files[j])
  }

  lemma {:induction false} InsertBag(files: seq<File>, f: File, rank: File -> int)
    ensures multiset(InsertFile(files, f, rank)) == multiset(files) + multiset{f}
  {
    if files != [] {
      InsertBag(files[..|files| - 1], f, rank);
      assert files == files[..|files| - 1] + [files[|files| - 1]];
    }
  }

  lemma {:induction false} InsertOrdered(files: seq<File>, f: File, rank: File -> int)
    requires NotDescending(files, rank)
    ensures NotDescending(InsertFile(files, f, rank), rank)
  {
    if files != [] && rank(f) < rank(files[|files| - 1]) {
      var front, last := files[..|files| - 1], files[|files| - 1];
      InsertOrdered(front, f, rank);
      InsertBag(front, f, rank);
      forall i | 0 <= i < |InsertFile(front, f, rank)|
        ensures rank(InsertFile(front, f, rank)[i]) <= rank(last)
      {
        assert InsertFile(front, f, rank)[i] in multiset(InsertFile(front, f, rank));
      }
    }
  }

  lemma {:induction false} SortBag(files: seq<File>, rank: File -> int)
    ensures multiset(SortFiles(files, rank)) == multiset(files)
  {
    if files != [] {
      var n := |files| - 1;
      SortBag(files[..n], rank);
      InsertBag(SortFiles(files[..n], rank), files[n], rank);
      SplitLast(files);
    }
  }

  lemma SplitLast(a: seq<File>)
    requires a != []
    ensures multiset(a) == multiset(a[..|a| - 1]) + multiset{a[|a| - 1]}
  {
    assert a == a[..|a| - 1] + [a[|a| - 1]];
  }

  lemma {:induction false} SortOrdered(files: seq<File>, rank: File -> int)
    ensures NotDescending(SortFiles(files, rank), rank)
  {
    if files != [] {
      SortOrdered(files[..|files| - 1], rank);
      InsertOrdered(SortFiles(files[..|files| - 1], rank), files[|files| - 1], rank);
    }
  }

  ghost predicate Ascending(files: seq<File>, rank: File -> int) {
    forall i, j | 0 <= i < j < |files| :: rank(files[i]) < rank(files[j])
  }

  /** When all ranks are equal, sorting changes nothing. */
  lemma {:induction false} SortEqual(files: seq<File>, rank: File -> int, n: int)
    requires forall f | f in files :: rank(f) == n
    ensures SortFiles(files, rank) == files
  {
    if files != [] {
      var front, last := files[..|files| - 1], files[|files| - 1];
      SortEqual(front, rank, n);
      assert last in files && (front != [] ==> front[|front| - 1] in files);
      assert files == front + [last];
    }
  }

  /** Only one ordering of files with distinct ranks is ordered. */
  lemma {:induction false} OrderIsUnique(a: seq<File>, b: seq<File>, rank: File -> int)
    requires NotDescending(a, rank) && Ascending(b, rank) && multiset(a) == multiset(b)
    ensures a == b
    decreases |a|
  {
    assert |a| == |multiset(a)| == |multiset(b)| == |b|;
    if a != [] {
      var n := |a| - 1;
      LastsAgree(a, b, rank);
      SameRest(a, b);
      OrderIsUnique(a[..n], b[..n], rank);
      SameEnds(a, b);
    }
  }

  lemma SameEnds(a: seq<File>, b: seq<File>)
    requires |a| == |b| > 0 && a[..|a| - 1] == b[..|b| - 1] && a[|a| - 1] == b[|b| - 1]
    ensures a == b
  {
    assert a == a[..|a| - 1] + [a[|a| - 1]] && b == b[..|b| - 1] + [b[|b| - 1]];
  }

  lemma SameRest(a: seq<File>, b: seq<File>)
    requires a != [] && b != [] && multiset(a) == multiset(b) && a[|a| - 1] == b[|b| - 1]
    ensures multiset(a[..|a| - 1]) == multiset(b[..|b| - 1])
  {
    SplitLast(a);
    SplitLast(b);
    assert multiset(a[..|a| - 1]) == multiset(a) - multiset{a[|a| - 1]};
    assert multiset(b[..|b| - 1]) == multiset(b) - multiset{b[|b| - 1]};
  }

  lemma LastsAgree(a: seq<File>, b: seq<File>, rank: File -> int)
    requires NotDescending(a, rank) && Ascending(b, rank) && multiset(a) == multiset(b) && |a| == |b| > 0
    ensures a[|a| - 1] == b[|b| - 1]
  {
    var n := |a| - 1;
    assert a[n] in multiset(b) && b[n] in multiset(a);
    var i :| 0 <= i < |b| && b[i] == a[n];
    var j :| 0 <= j < |a| && a[j] == b[n];
  }

  // ----- the whole evaluation -----

  function PredictionsIn(files: seq<File>): seq<Prediction> {
    if files == [] then [] else PredictionsIn(files[..|files| - 1]) + files[|files| - 1].predictions
  }

  /** The files the active workers write: chunk p goes to the p-th GPU. */
  function FilesOf(path: int -> string, generate: (int, Prompt) -> Prediction, gpus: seq<int>, chunks: seq<seq<Prompt>>): (r: seq<File>)
    requires |chunks| <= |gpus|
    ensures |r| == |chunks|
  {
    seq(|chunks|, p requires 0 <= p < |chunks| => File(path(gpus[p]), Answers(generate, gpus[p], chunks[p])))
  }

  ghost predicate StrictlyAscending(gpus: seq<int>) {
    forall i, j | 0 <= i < j < |gpus| :: gpus[i] < gpus[j]
  }

  /** The dispatch loop: one chunk for each active GPU; the worker runs on its own. */
  method Dispatch(path: int -> string, generate: (int, Prompt) -> Prediction, gpus: seq<int>, chunks: seq<seq<Prompt>>, batchSize: nat)
    returns (files: seq<File>)
    requires batchSize > 0 && |chunks| <= |gpus|
    ensures files == FilesOf(path, generate, gpus, chunks)
  {
    files := [];
    for i := 0 to |gpus|
      invariant files == FilesOf(path, generate, gpus, chunks)[..if i <= |chunks| then i else |chunks|]
    {
      if i >= |chunks| {
        break;
      }
      var local := RunWorker(generate, gpus[i], chunks[i], batchSize);
      files := files + [File(path(gpus[i]), local)];
    }
  }

  /** The merge loop over the sorted files. */
  method MergeFiles(files: seq<File>, rank: File -> int) returns (predictions: seq<Prediction>)
    ensures predictions == PredictionsIn(SortFiles(files, rank))
  {
    var sorted := SortFiles(files, rank);
    predictions := [];
    for f := 0 to |sorted|
      invariant predictions == PredictionsIn(sorted[..f])
    {
      assert sorted[..f + 1][..f] == sorted[..f];
      predictions := predictions + sorted[f].predictions;
    }
    assert sorted[..|sorted|] == sorted;
  }

  lemma {:induction false} FilesInOrder(path: int -> string, generate: (int, Prompt) -> Prediction, gpus: seq<int>,
                                        chunks: seq<seq<Prompt>>, p: nat, j: nat, i: nat)
    requires |chunks| <= |gpus| && p < |chunks| && j < |chunks[p]| && i == p * |chunks[0]| + j
    requires forall q | 0 <= q < |chunks| - 1 :: |chunks[q]| == |chunks[0]|
    ensures |PredictionsIn(FilesOf(path, generate, gpus, chunks))| == |Flatten(chunks)|
    ensures i < |Flatten(chunks)|
    ensures PredictionsIn(FilesOf(path, generate, gpus, chunks))[i] == generate(gpus[p], chunks[p][j])
  {
    var n := |chunks| - 1;
    assert FilesOf(path, generate, gpus, chunks)[..n] == FilesOf(path, generate, gpus, chunks[..n]);
    PredictionsSize(path, generate, gpus, chunks[..n]);
    if n > 0 {
      FlattenUniformSize(chunks[..n], |chunks[0]|);
    }
    if p < n {
      FilesInOrder(path, generate, gpus, chunks[..n], p, j, i);
    }
  }

  lemma {:induction false} PredictionsSize(path: int -> string, generate: (int, Prompt) -> Prediction, gpus: seq<int>,
                                           chunks: seq<seq<Prompt>>)
    requires |chunks| <= |gpus|
    ensures |PredictionsIn(FilesOf(path, generate, gpus, chunks))| == |Flatten(chunks)|
  {
    if chunks != [] {
      var n := |chunks| - 1;
      assert FilesOf(path, generate, gpus, chunks)[..n] == FilesOf(path, generate, gpus, chunks[..n]);
      PredictionsSize(path, generate, gpus, chunks[..n]);
    }
  }

  lemma {:induction false} SliceSizes<T>(xs: seq<T>, size: nat, q: nat)
    requires size > 0 && q < |Slices(xs, size)|
    ensures 0 < |Slices(xs, size)[q]| <= size
    ensures q < |Slices(xs, size)| - 1 ==> |Slices(xs, size)[q]| == size
    decreases q
  {
    if q > 0 {
      SliceSizes(xs[size..], size, q - 1);
    }
  }

  /** The share of a GPU, and the cut into at most one chunk per GPU. */
  lemma ChunksFitGpus(prompts: seq<Prompt>, g: nat)
    requires prompts != [] && g > 0
    ensures |Slices(prompts, Ceil(|prompts|, g))| <= g
  {
    CeilCovers(|prompts|, g);
    SliceCount(prompts, Ceil(|prompts|, g), g);
  }

  /** The files that the workers write for these prompts. */
  function FilesFor(path: int -> string, generate: (int, Prompt) -> Prediction, gpus: seq<int>, prompts: seq<Prompt>): seq<File>
    requires prompts != [] && gpus != []
  {
    ChunksFitGpus(prompts, |gpus|);
    FilesOf(path, generate, gpus, Slices(prompts, Ceil(|prompts|, |gpus|)))
  }

  /** The GPUs that get a chunk: as many as there are chunks, from the front of the list. */
  function ActiveGpus(gpus: seq<int>, n: nat): seq<int>
    requires n > 0 && gpus != []
  {
    var size := Ceil(n, |gpus|);
    gpus[..Min(Ceil(n, size), |gpus|)]
  }

  lemma ActiveGetChunks(prompts: seq<Prompt>, gpus: seq<int>)
    requires prompts != [] && gpus != []
    ensures |Slices(prompts, Ceil(|prompts|, |gpus|))| <= |gpus|
    ensures ActiveGpus(gpus, |prompts|) == gpus[..|Slices(prompts, Ceil(|prompts|, |gpus|))|]
  {
    ChunksFitGpus(prompts, |gpus|);
    SlicesCount(prompts, Ceil(|prompts|, |gpus|));
  }

  /** The merge of the files as they arrived; None when a key cannot be read. */
  function Merged(arrived: seq<File>, key: Key): Option<seq<Prediction>> {
    if AllKeyed(arrived, key) then Some(PredictionsIn(SortFiles(arrived, Rank(key)))) else None
  }

  function Paths(place: Place): int -> string {
    gpu => PathOf(place, gpu)
  }

  /** When the sort undoes every order of arrival: the directory does not hold the mark and the GPUs that got a chunk
      are listed in ascending order; or there is a single file, and its key can be read. */
  ghost predicate Sorts(place: Place, active: seq<int>) {
    if Contains(place.directory, MARK) then |active| == 1 && DirectoryKey(place.directory).Some?
    else StrictlyAscending(active)
  }

  /** The result of `run_one_eval` up to scoring; no prompts or no GPUs is an error, and so is a key that cannot be
      read.  `arrived` is what the result queue delivers. */
  method RunOneEval(place: Place, generate: (int, Prompt) -> Prediction, prompts: seq<Prompt>, gpus: seq<int>,
                    batchSize: nat, arrived: seq<File>) returns (r: Option<seq<Prediction>>)
    requires batchSize > 0
    requires prompts != [] && gpus != [] ==>
               multiset(arrived) == multiset(FilesFor(Paths(place), generate, gpus, prompts))
    ensures r.Some? <==> prompts != [] && gpus != []
                         && (Contains(place.directory, MARK) ==> DirectoryKey(place.directory).Some?)
    ensures r.Some? ==> r == Merged(arrived, SortKey) && |r.value| == |prompts|
    ensures r.Some? && Sorts(place, ActiveGpus(gpus, |prompts|)) ==> InPromptOrder(generate, gpus, prompts, r.value)
  {
    if prompts == [] || gpus == [] {
      return None;
    }
    var chunkSize := Ceil(|prompts|, |gpus|);
    ChunksFitGpus(prompts, |gpus|);
    var chunks := BatchedList(prompts, chunkSize);
    var files := Dispatch(Paths(place), generate, gpus, chunks, batchSize);
    KeysCanBeRead(place, generate, gpus, prompts, arrived);
    if !AllKeyed(arrived, SortKey) {
      return None;
    }
    var predictions := MergeFiles(arrived, Rank(SortKey));
    RightNumber(Paths(place), generate, gpus, prompts, arrived, Rank(SortKey));
    if Sorts(place, ActiveGpus(gpus, |prompts|)) {
      SortingKeepsOrder(place, generate, gpus, prompts, arrived);
    }
    if |predictions| != |prompts| {
      return None;
    }
    r := Some(predictions);
  }

  // ----- keys of the files -----

  /** Every active GPU is its own key. */
  ghost predicate OwnKeys(path: int -> string, key: Key, active: seq<int>) {
    forall p | 0 <= p < |active| :: key(path(active[p])) == Some(active[p])
  }

  /** All active GPUs have one key, or none has any. */
  ghost predicate CommonKey(path: int -> string, key: Key, active: seq<int>, common: Option<int>) {
    forall p | 0 <= p < |active| :: key(path(active[p])) == common
  }

  lemma PlaceKeys(place: Place, active: seq<int>)
    ensures !Contains(place.directory, MARK) ==> OwnKeys(Paths(place), SortKey, active)
    ensures Contains(place.directory, MARK) ==> CommonKey(Paths(place), SortKey, active, DirectoryKey(place.directory))
  {
    forall p | 0 <= p < |active|
      ensures SortKey(PathOf(place, active[p]))
              == if Contains(place.directory, MARK) then DirectoryKey(place.directory) else Some(active[p])
    {
      if Contains(place.directory, MARK) {
        ForeignKey(place, active[p]);
      } else {
        OwnKey(place, active[p]);
      }
    }
  }

  /** A file that arrived is the file of some active GPU. */
  lemma FileOfGpu(path: int -> string, generate: (int, Prompt) -> Prediction, gpus: seq<int>, prompts: seq<Prompt>,
                  arrived: seq<File>, f: File) returns (p: nat)
    requires prompts != [] && gpus != [] && multiset(arrived) == multiset(FilesFor(path, generate, gpus, prompts))
    requires f in arrived
    ensures p < |ActiveGpus(gpus, |prompts|)| && f.path == path(ActiveGpus(gpus, |prompts|)[p])
  {
    var files := FilesFor(path, generate, gpus, prompts);
    ActiveGetChunks(prompts, gpus);
    assert f in multiset(arrived);
    assert f in multiset(files);
    var k: nat :| k < |files| && files[k] == f;
    p := k;
  }

  lemma FirstArrived(path: int -> string, generate: (int, Prompt) -> Prediction, gpus: seq<int>, prompts: seq<Prompt>,
                     arrived: seq<File>)
    requires prompts != [] && gpus != [] && multiset(arrived) == multiset(FilesFor(path, generate, gpus, prompts))
    ensures |arrived| == |FilesFor(path, generate, gpus, prompts)| == |ActiveGpus(gpus, |prompts|)| > 0
  {
    var files := FilesFor(path, generate, gpus, prompts);
    ActiveGetChunks(prompts, gpus);
    SlicesNonempty(prompts, Ceil(|prompts|, |gpus|));
    assert |arrived| == |multiset(arrived)| == |multiset(files)| == |files|;
  }

  lemma ArrivedKeys(path: int -> string, generate: (int, Prompt) -> Prediction, gpus: seq<int>, prompts: seq<Prompt>,
                    arrived: seq<File>, key: Key, common: Option<int>)
    requires prompts != [] && gpus != [] && multiset(arrived) == multiset(FilesFor(path, generate, gpus, prompts))
    ensures OwnKeys(path, key, ActiveGpus(gpus, |prompts|)) ==> AllKeyed(arrived, key)
    ensures CommonKey(path, key, ActiveGpus(gpus, |prompts|), common) ==> forall f | f in arrived :: key(f.path) == common
    ensures CommonKey(path, key, ActiveGpus(gpus, |prompts|), common) ==> (AllKeyed(arrived, key) <==> common.Some?)
  {
    forall f | f in arrived
      ensures OwnKeys(path, key, ActiveGpus(gpus, |prompts|)) ==> key(f.path).Some?
      ensures CommonKey(path, key, ActiveGpus(gpus, |prompts|), common) ==> key(f.path) == common
    {
      var p := FileOfGpu(path, generate, gpus, prompts, arrived, f);
    }
    FirstArrived(path, generate, gpus, prompts, arrived);
    assert arrived[0] in arrived;
  }

  lemma KeysCanBeRead(place: Place, generate: (int, Prompt) -> Prediction, gpus: seq<int>, prompts: seq<Prompt>,
                      arrived: seq<File>)
    requires prompts != [] && gpus != [] && multiset(arrived) == multiset(FilesFor(Paths(place), generate, gpus, prompts))
    ensures AllKeyed(arrived, SortKey) <==> (Contains(place.directory, MARK) ==> DirectoryKey(place.directory).Some?)
  {
    PlaceKeys(place, ActiveGpus(gpus, |prompts|));
    ArrivedKeys(Paths(place), generate, gpus, prompts, arrived, SortKey,
                if Contains(place.directory, MARK) then DirectoryKey(place.directory) else None);
  }

  lemma SlicesNonempty<T>(xs: seq<T>, size: nat)
    requires size > 0 && xs != []
    ensures |Slices(xs, size)| > 0
  {
  }

  /** Prediction i answers prompt i, given by the GPU that owns it. */
  ghost predicate InPromptOrder(generate: (int, Prompt) -> Prediction, gpus: seq<int>, prompts: seq<Prompt>,
                                predictions: seq<Prediction>)
    requires prompts != [] && gpus != []
  {
    && |predictions| == |prompts|
    && forall i | 0 <= i < |prompts| ::
         OwnerOf(i, Ceil(|prompts|, |gpus|)) < |gpus|
         && predictions[i] == generate(gpus[OwnerOf(i, Ceil(|prompts|, |gpus|))], prompts[i])
  }

  lemma {:induction false} FilesSize(files: seq<File>, more: seq<File>)
    requires multiset(files) == multiset(more)
    ensures |PredictionsIn(files)| == |PredictionsIn(more)|
    decreases |files|
  {
    assert |files| == |multiset(files)| == |multiset(more)| == |more|;
    if files != [] {
      var n := |files| - 1;
      assert files[n] in multiset(more);
      var k :| 0 <= k < |more| && more[k] == files[n];
      TakeFile(more, k);
      SplitLast(files);
      assert multiset(files[..n]) == multiset(files) - multiset{files[n]};
      assert multiset(more[..k] + more[k + 1..]) == multiset(more) - multiset{more[k]};
      FilesSize(files[..n], more[..k] + more[k + 1..]);
    }
  }

  lemma TakeFile(files: seq<File>, k: nat)
    requires k < |files|
    ensures multiset(files) == multiset(files[..k] + files[k + 1..]) + multiset{files[k]}
    ensures |PredictionsIn(files)| == |PredictionsIn(files[..k] + files[k + 1..])| + |files[k].predictions|
  {
    assert files == files[..k] + [files[k]] + files[k + 1..];
    PredictionsJoin(files[..k], [files[k]]);
    PredictionsJoin(files[..k] + [files[k]], files[k + 1..]);
    PredictionsJoin(files[..k], files[k + 1..]);
    assert [files[k]][..0] == [];
  }

  lemma {:induction false} PredictionsJoin(a: seq<File>, b: seq<File>)
    ensures PredictionsIn(a + b) == PredictionsIn(a) + PredictionsIn(b)
  {
    if b == [] {
      assert a + b == a;
    } else {
      assert (a + b)[..|a + b| - 1] == a + b[..|b| - 1];
      PredictionsJoin(a, b[..|b| - 1]);
    }
  }

  /** Whatever the numbers of the GPUs, no prediction is lost. */
  lemma RightNumber(path: int -> string, generate: (int, Prompt) -> Prediction, gpus: seq<int>, prompts: seq<Prompt>, arrived: seq<File>,
                    rank: File -> int)
    requires prompts != [] && gpus != [] && multiset(arrived) == multiset(FilesFor(path, generate, gpus, prompts))
    ensures |PredictionsIn(SortFiles(arrived, rank))| == |prompts|
  {
    var size := Ceil(|prompts|, |gpus|);
    ChunksFitGpus(prompts, |gpus|);
    SortBag(arrived, rank);
    FilesSize(SortFiles(arrived, rank), FilesFor(path, generate, gpus, prompts));
    PredictionsSize(path, generate, gpus, Slices(prompts, size));
    SlicesRejoin(prompts, size);
  }

  /** The ranks of the files ascend: as their GPUs do, or because there is only one file. */
  lemma RanksAscend(path: int -> string, generate: (int, Prompt) -> Prediction, gpus: seq<int>, chunks: seq<seq<Prompt>>,
                    key: Key)
    requires |chunks| <= |gpus|
    requires |chunks| <= 1 || (OwnKeys(path, key, gpus[..|chunks|]) && StrictlyAscending(gpus[..|chunks|]))
    ensures Ascending(FilesOf(path, generate, gpus, chunks), Rank(key))
  {
    var files, active := FilesOf(path, generate, gpus, chunks), gpus[..|chunks|];
    forall i, j | 0 <= i < j < |files|
      ensures Rank(key)(files[i]) < Rank(key)(files[j])
    {
      assert key(path(active[i])) == Some(gpus[i]) && key(path(active[j])) == Some(gpus[j]);
    }
  }

  /** Then sorting undoes any order of arrival. */
  lemma ArrivalOrderDoesNotMatter(path: int -> string, generate: (int, Prompt) -> Prediction, gpus: seq<int>,
                                  chunks: seq<seq<Prompt>>, arrived: seq<File>, key: Key)
    requires |chunks| <= |gpus|
    requires |chunks| <= 1 || (OwnKeys(path, key, gpus[..|chunks|]) && StrictlyAscending(gpus[..|chunks|]))
    requires multiset(arrived) == multiset(FilesOf(path, generate, gpus, chunks))
    ensures SortFiles(arrived, Rank(key)) == FilesOf(path, generate, gpus, chunks)
  {
    SortBag(arrived, Rank(key));
    SortOrdered(arrived, Rank(key));
    RanksAscend(path, generate, gpus, chunks, key);
    OrderIsUnique(SortFiles(arrived, Rank(key)), FilesOf(path, generate, gpus, chunks), Rank(key));
  }

  lemma SortingKeepsOrder(place: Place, generate: (int, Prompt) -> Prediction, gpus: seq<int>, prompts: seq<Prompt>,
                          arrived: seq<File>)
    requires prompts != [] && gpus != [] && Sorts(place, ActiveGpus(gpus, |prompts|))
    requires multiset(arrived) == multiset(FilesFor(Paths(place), generate, gpus, prompts))
    ensures Merged(arrived, SortKey).Some? && InPromptOrder(generate, gpus, prompts, Merged(arrived, SortKey).value)
  {
    var size := Ceil(|prompts|, |gpus|);
    KeysCanBeRead(place, generate, gpus, prompts, arrived);
    PlaceKeys(place, ActiveGpus(gpus, |prompts|));
    ActiveGetChunks(prompts, gpus);
    ArrivalOrderDoesNotMatter(Paths(place), generate, gpus, Slices(prompts, size), arrived, SortKey);
    InOrder(Paths(place), generate, gpus, prompts, size);
  }

  /** The position of the GPU that owns prompt i. */
  function OwnerOf(i: nat, size: nat): nat
    requires size > 0
  {
    i / size
  }

  /** Prediction i answers prompt i. */
  lemma InOrder(path: int -> string, generate: (int, Prompt) -> Prediction, gpus: seq<int>, prompts: seq<Prompt>, size: nat)
    requires size > 0 && |Slices(prompts, size)| <= |gpus|
    ensures |PredictionsIn(FilesOf(path, generate, gpus, Slices(prompts, size)))| == |prompts|
    ensures forall i | 0 <= i < |prompts| ::
              OwnerOf(i, size) < |gpus|
              && PredictionsIn(FilesOf(path, generate, gpus, Slices(prompts, size)))[i] == generate(gpus[OwnerOf(i, size)], prompts[i])
  {
    PredictionsSize(path, generate, gpus, Slices(prompts, size));
    SlicesRejoin(prompts, size);
    forall i | 0 <= i < |prompts|
      ensures OwnerOf(i, size) < |gpus|
      ensures PredictionsIn(FilesOf(path, generate, gpus, Slices(prompts, size)))[i] == generate(gpus[OwnerOf(i, size)], prompts[i])
    {
      InOrderAt(path, generate, gpus, prompts, size, i);
    }
  }

  lemma {:induction false} SliceOf<T>(xs: seq<T>, size: nat, i: nat) returns (p: nat, j: nat)
    requires size > 0 && i < |xs|
    ensures p < |Slices(xs, size)| && j < |Slices(xs, size)[p]| && j < size && i == p * size + j
    decreases i
  {
    if i < size {
      p, j := 0, i;
    } else {
      p, j := SliceOf(xs[size..], size, i - size);
      NextMultiple(p, size);
      p := p + 1;
    }
  }

  lemma InOrderAt(path: int -> string, generate: (int, Prompt) -> Prediction, gpus: seq<int>, prompts: seq<Prompt>, size: nat, i: nat)
    requires size > 0 && |Slices(prompts, size)| <= |gpus| && i < |prompts|
    requires |PredictionsIn(FilesOf(path, generate, gpus, Slices(prompts, size)))| == |prompts|
    ensures OwnerOf(i, size) < |gpus|
    ensures PredictionsIn(FilesOf(path, generate, gpus, Slices(prompts, size)))[i] == generate(gpus[OwnerOf(i, size)], prompts[i])
  {
    var chunks := Slices(prompts, size);
    var p, j := SliceOf(prompts, size, i);
    DivMod(p, size, j);
    SliceAt(prompts, size, p, j);
    SlicesAreEven(prompts, size);
    SlicePlace(prompts, size, p, j, i);
    FilesInOrder(path, generate, gpus, chunks, p, j, i);
  }

  /** All slices but the last are as long as the first. */
  lemma SlicesAreEven<T>(xs: seq<T>, size: nat)
    requires size > 0
    ensures forall q | 0 <= q < |Slices(xs, size)| - 1 :: |Slices(xs, size)[q]| == |Slices(xs, size)[0]|
  {
    forall q | 0 <= q < |Slices(xs, size)| - 1
      ensures |Slices(xs, size)[q]| == |Slices(xs, size)[0]|
    {
      SliceSizes(xs, size, q);
      SliceSizes(xs, size, 0);
    }
  }

  /** The place of an element, counted in lengths of the first slice. */
  lemma SlicePlace<T>(xs: seq<T>, size: nat, p: nat, j: nat, i: nat)
    requires size > 0 && p < |Slices(xs, size)| && i == p * size + j
    ensures i == p * |Slices(xs, size)[0]| + j
  {
    if p > 0 {
      SliceSizes(xs, size, 0);
    } else {
      assert p * size == 0 && p * |Slices(xs, size)[0]| == 0;
    }
  }

  // ----- exactly when the order is kept -----

  /** Prompts that answer themselves show where each prediction comes from. */
  function Echo(gpu: int, prompt: Prompt): Prediction {
    prompt
  }

  function Numbers(n: nat): (r: seq<Prompt>)
    ensures |r| == n && forall i | 0 <= i < n :: r[i] == i
  {
    seq(n, i => i)
  }

  /** The first prediction of a file. */
  function FirstOf(f: File): int {
    if f.predictions == [] then -1 else f.predictions[0]
  }

  /** In a merge of nonempty files that counts up, first predictions ascend from file to file. */
  lemma {:induction false} CountingMeansAscending(files: seq<File>)
    requires forall f | f in files :: f.predictions != []
    requires forall i | 0 <= i < |PredictionsIn(files)| :: PredictionsIn(files)[i] == i
    ensures Ascending(files, FirstOf)
    ensures forall f | f in files :: FirstOf(f) < |PredictionsIn(files)|
  {
    if files != [] {
      var front, last := files[..|files| - 1], files[|files| - 1];
      var before := PredictionsIn(front);
      assert PredictionsIn(files) == before + last.predictions;
      forall i | 0 <= i < |before|
        ensures before[i] == i
      {
        assert PredictionsIn(files)[i] == before[i];
      }
      CountingMeansAscending(front);
      assert last in files && PredictionsIn(files)[|before|] == last.predictions[0];
      assert files == front + [last];
    }
  }

  lemma {:induction false} CountingChunks(n: nat, from: nat, size: nat, xs: seq<Prompt>, p: nat)
    requires size > 0 && |xs| == n && (forall i | 0 <= i < n :: xs[i] == from + i) && p < |Slices(xs, size)|
    ensures |Slices(xs, size)[p]| > 0 && Slices(xs, size)[p][0] == from + p * size
    decreases p
  {
    SliceSizes(xs, size, p);
    SliceAt(xs, size, p, 0);
  }

  /** The files of self-answering prompts ascend by their first predictions. */
  lemma EchoFiles(path: int -> string, gpus: seq<int>, n: nat)
    requires n > 0 && gpus != []
    ensures forall f | f in FilesFor(path, Echo, gpus, Numbers(n)) :: f.predictions != []
    ensures Ascending(FilesFor(path, Echo, gpus, Numbers(n)), FirstOf)
  {
    var size := Ceil(n, |gpus|);
    ChunksFitGpus(Numbers(n), |gpus|);
    var files := FilesFor(path, Echo, gpus, Numbers(n));
    forall p | 0 <= p < |files|
      ensures files[p].predictions != [] && FirstOf(files[p]) == p * size
    {
      CountingChunks(n, 0, size, Numbers(n), p);
    }
    forall i, j | 0 <= i < j < |files|
      ensures FirstOf(files[i]) < FirstOf(files[j])
    {
      Further(i, j, size);
    }
  }

  lemma Further(i: nat, j: nat, size: nat)
    requires i < j && size > 0
    ensures i * size < j * size
  {
  }

  ghost predicate Distinct(gpus: seq<int>) {
    forall i, j | 0 <= i < j < |gpus| :: gpus[i] != gpus[j]
  }

  /** Prediction i answers prompt i, whatever the engine, the n prompts and the order in which the workers finish. */
  ghost predicate OrderIsKept(path: int -> string, key: Key, gpus: seq<int>, n: nat)
    requires n > 0 && gpus != []
  {
    forall generate: (int, Prompt) -> Prediction, prompts: seq<Prompt>, arrived: seq<File>
      | |prompts| == n && multiset(arrived) == multiset(FilesFor(path, generate, gpus, prompts)) ::
        Merged(arrived, key).Some? && InPromptOrder(generate, gpus, prompts, Merged(arrived, key).value)
  }

  /** If self-answering prompts come back in order, the files were merged in the order of their chunks. */
  lemma EchoMeansFileOrder(path: int -> string, key: Key, gpus: seq<int>, n: nat, arrived: seq<File>)
    requires n > 0 && gpus != [] && OrderIsKept(path, key, gpus, n)
    requires multiset(arrived) == multiset(FilesFor(path, Echo, gpus, Numbers(n)))
    ensures AllKeyed(arrived, key) && SortFiles(arrived, Rank(key)) == FilesFor(path, Echo, gpus, Numbers(n))
  {
    var files := FilesFor(path, Echo, gpus, Numbers(n));
    assert Merged(arrived, key).Some? && InPromptOrder(Echo, gpus, Numbers(n), Merged(arrived, key).value);
    var sorted := SortFiles(arrived, Rank(key));
    SortBag(arrived, Rank(key));
    EchoFiles(path, gpus, n);
    forall f | f in sorted
      ensures f.predictions != []
    {
      assert f in multiset(sorted);
      assert f in multiset(files);
    }
    CountingMeansAscending(sorted);
    OrderIsUnique(sorted, files, FirstOf);
  }

  /** With every GPU its own key: if the order is kept, the active GPUs ascend. */
  lemma KeptMeansAscending(path: int -> string, key: Key, gpus: seq<int>, n: nat)
    requires n > 0 && gpus != [] && Distinct(ActiveGpus(gpus, n)) && OrderIsKept(path, key, gpus, n)
    requires OwnKeys(path, key, ActiveGpus(gpus, n))
    ensures StrictlyAscending(ActiveGpus(gpus, n))
  {
    var files, active := FilesFor(path, Echo, gpus, Numbers(n)), ActiveGpus(gpus, n);
    EchoMeansFileOrder(path, key, gpus, n, files);
    SortOrdered(files, Rank(key));
    ActiveGetChunks(Numbers(n), gpus);
    forall p | 0 <= p < |active|
      ensures Rank(key)(files[p]) == active[p]
    {
      assert files[p].path == path(active[p]);
    }
    forall i, j | 0 <= i < j < |active|
      ensures active[i] < active[j]
    {
      assert Rank(key)(files[i]) <= Rank(key)(files[j]);
    }
  }

  /** Two files in the other order. */
  function SwapFirst(files: seq<File>): (r: seq<File>)
    requires |files| >= 2
    ensures multiset(r) == multiset(files)
  {
    assert files == [files[0], files[1]] + files[2..];
    [files[1], files[0]] + files[2..]
  }

  /** With one key for all, the files stay in the order of their arrival, which keeps the order of a single file. */
  lemma KeptMeansSingle(path: int -> string, key: Key, gpus: seq<int>, n: nat, common: Option<int>)
    requires n > 0 && gpus != [] && OrderIsKept(path, key, gpus, n)
    requires CommonKey(path, key, ActiveGpus(gpus, n), common)
    ensures |ActiveGpus(gpus, n)| == 1 && common.Some?
  {
    var files := FilesFor(path, Echo, gpus, Numbers(n));
    FirstArrived(path, Echo, gpus, Numbers(n), files);
    EchoMeansFileOrder(path, key, gpus, n, files);
    ArrivedKeys(path, Echo, gpus, Numbers(n), files, key, common);
    if |files| >= 2 {
      var arrived := SwapFirst(files);
      ArrivedKeys(path, Echo, gpus, Numbers(n), arrived, key, common);
      SortEqual(arrived, Rank(key), common.value);
      EchoFiles(path, gpus, n);
      assert arrived[0] == files[1] && FirstOf(files[0]) < FirstOf(files[1]);
      EchoMeansFileOrder(path, key, gpus, n, arrived);
    }
  }

  /** The order is kept for every engine, all prompts and every order of completion, if and only if the output directory
      does not hold the mark and the GPUs that get a chunk are listed in ascending order, or there is only one chunk
      and the directory still leaves its file a key.  The numbers of the other GPUs do not matter. */
  lemma OrderIsKeptIff(place: Place, gpus: seq<int>, n: nat)
    requires n > 0 && gpus != [] && Distinct(ActiveGpus(gpus, n))
    ensures OrderIsKept(Paths(place), SortKey, gpus, n) <==> Sorts(place, ActiveGpus(gpus, n))
  {
    if Sorts(place, ActiveGpus(gpus, n)) {
      forall generate: (int, Prompt) -> Prediction, prompts: seq<Prompt>, arrived: seq<File>
        | |prompts| == n && multiset(arrived) == multiset(FilesFor(Paths(place), generate, gpus, prompts))
        ensures Merged(arrived, SortKey).Some? && InPromptOrder(generate, gpus, prompts, Merged(arrived, SortKey).value)
      {
        SortingKeepsOrder(place, generate, gpus, prompts, arrived);
      }
    } else if OrderIsKept(Paths(place), SortKey, gpus, n) {
      PlaceKeys(place, ActiveGpus(gpus, n));
      if Contains(place.directory, MARK) {
        KeptMeansSingle(Paths(place), SortKey, gpus, n, DirectoryKey(place.directory));
      } else {
        KeptMeansAscending(Paths(place), SortKey, gpus, n);
      }
    }
  }

  // ----- two ways to lose the order -----

  /** The files of two prompts on two GPUs, merged as the first and the second one arrive in this order. */
  lemma TwoFiles(path: int -> string, generate: (int, Prompt) -> Prediction, a: int, b: int, x: Prompt, y: Prompt)
    ensures FilesFor(path, generate, [a, b], [x, y]) == [File(path(a), [generate(a, x)]), File(path(b), [generate(b, y)])]
  {
    assert [x, y][..1] == [x] && [x, y][1..] == [y];
    assert Answers(generate, a, [x]) == [generate(a, x)] && Answers(generate, b, [y]) == [generate(b, y)];
    assert Slices([x, y], 1) == [[x], [y]];
  }

  lemma TwoPredictions(first: File, second: File)
    ensures PredictionsIn([first, second]) == first.predictions + second.predictions
  {
    assert [first, second][..1] == [first] && [first][..0] == [];
    assert PredictionsIn([first]) == first.predictions;
  }

  lemma MergeTwo(first: File, second: File, key: Key, m: int, n: int)
    requires key(first.path) == Some(m) && key(second.path) == Some(n)
    ensures Merged([first, second], key)
            == Some(if n < m then second.predictions + first.predictions else first.predictions + second.predictions)
  {
    assert [first, second][..1] == [first] && [first][..0] == [];
    assert SortFiles([first], Rank(key)) == [first];
    assert InsertFile([first], second, Rank(key)) == if n < m then [second, first] else [first, second];
    TwoPredictions(first, second);
    TwoPredictions(second, first);
  }

  /** Two GPUs, in the order of the list or the other one. */
  lemma TwoArrivals(path: int -> string, key: Key, generate: (int, Prompt) -> Prediction, a: int, b: int, m: int, n: int,
                    x: Prompt, y: Prompt, files: seq<File>)
    requires key(path(a)) == Some(m) && key(path(b)) == Some(n) && files == FilesFor(path, generate, [a, b], [x, y])
    ensures |files| == 2
    ensures n < m ==> Merged(files, key) == Some([generate(b, y), generate(a, x)])
    ensures m == n ==> Merged([files[1], files[0]], key) == Some([generate(b, y), generate(a, x)])
  {
    TwoFiles(path, generate, a, b, x, y);
    assert files == [files[0], files[1]];
    assert [generate(b, y)] + [generate(a, x)] == [generate(b, y), generate(a, x)];
    MergeTwo(files[0], files[1], key, m, n);
    MergeTwo(files[1], files[0], key, n, m);
  }

  lemma PlaceKey(place: Place, gpu: int)
    ensures SortKey(Paths(place)(gpu))
            == if Contains(place.directory, MARK) then DirectoryKey(place.directory) else Some(gpu)
  {
    PlaceKeys(place, [gpu]);
    assert [gpu][0] == gpu;
  }

  /** With the GPUs listed in descending order, two prompts come back swapped. */
  lemma DescendingGpusSwap(place: Place, generate: (int, Prompt) -> Prediction, x: Prompt, y: Prompt)
    requires !Contains(place.directory, MARK)
    ensures Merged(FilesFor(Paths(place), generate, [1, 0], [x, y]), SortKey) == Some([generate(0, y), generate(1, x)])
  {
    PlaceKey(place, 0);
    PlaceKey(place, 1);
    TwoArrivals(Paths(place), SortKey, generate, 1, 0, 1, 0, x, y, FilesFor(Paths(place), generate, [1, 0], [x, y]));
  }

  /** Under a directory with a number behind the mark, such as one for an experiment on GPU 8, the ids ascend, the
      second worker is faster, and two prompts come back swapped. */
  lemma NumberedDirectorySwaps(place: Place, a: string, number: int, b: string, generate: (int, Prompt) -> Prediction,
                               x: Prompt, y: Prompt)
    requires '_' !in a && place.directory == a + MARK + Decimal(number) + "_" + b
    ensures var files := FilesFor(Paths(place), generate, [0, 1], [x, y]);
            |files| == 2 && Merged([files[1], files[0]], SortKey) == Some([generate(1, y), generate(0, x)])
  {
    NumberedDirectory(a, number, b, place.directory);
    PlaceKey(place, 0);
    PlaceKey(place, 1);
    TwoArrivals(Paths(place), SortKey, generate, 0, 1, number, number, x, y,
                FilesFor(Paths(place), generate, [0, 1], [x, y]));
  }
}
