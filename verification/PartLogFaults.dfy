/** Exceptions that the appending process survives (latent_grpo_runner/metrics/storage.py:384-394).

    Crash safety is about the process dying.  When append raises and the same process keeps its writer,
    the memory can be left behind the directory; these laws say exactly when, and what follows. */
module PartLogFaults {
  import opened Options
  import opened PartLog
  import opened PartLogLaws

  /** Where the exception is raised: up to and including the rename; while syncing the directory; while writing the
      manifest, before or after its own replace; while writing the writer checkpoint, before or after its replace. */
  datatype Fault = BeforeRename | DirectorySync | ManifestWrite | ManifestSync | CheckpointWrite | CheckpointSync

  /** Directory and memory of a process that is still alive. */
  datatype Survivor = Survivor(dir: Dir, mem: Mem)

  /** What append does once its checks have passed, one effect after the other: half-written and complete temporary,
      rename, manifest entry in memory, manifest on disk, keys in memory, writer checkpoint on disk. */
  function DirTrace(d: Dir, images: seq<Dir>): (r: seq<Dir>)
    requires |images| == 5
    ensures |r| == 8
  {
    [d, images[0], images[1], images[2], images[2], images[3], images[3], images[4]]
  }

  function MemTrace(mem: Mem, after: Mem): (r: seq<Mem>)
    ensures |r| == 8
  {
    var listed := after.(keys := mem.keys);
    [mem, mem, mem, mem, listed, listed, after, after]
  }

  /** How many effects have happened when the exception is raised. */
  function Effects(fault: Fault): (r: nat)
    ensures r < 8
  {
    match fault
    case BeforeRename => 2
    case DirectorySync => 3
    case ManifestWrite => 4
    case ManifestSync => 5
    case CheckpointWrite => 6
    case CheckpointSync => 7
  }

  /** What the exception leaves; up to the rename the temporary file is removed again. */
  function Survive(d: Dir, schema: int, mem: Mem, rows: seq<Row>, uuid: Uuid, fault: Fault): Survivor {
    var dir := DirTrace(d, AppendImages(d, schema, mem, rows, uuid))[Effects(fault)];
    Survivor(if fault == BeforeRename then dir.(temporaries := d.temporaries) else dir,
             MemTrace(mem, AppendedMem(mem, rows, uuid))[Effects(fault)])
  }

  /** The effects on disk are the images of an append, in order, and the last ones complete disk and memory. */
  lemma TraceIsAppend(d: Dir, images: seq<Dir>, mem: Mem, after: Mem, n: nat)
    requires n < 8 && |images| == 5
    ensures DirTrace(d, images)[n] == At(d, images, if n <= 3 then n else if n == 4 then 3 else if n <= 6 then 4 else 5)
    ensures DirTrace(d, images)[7] == Last(d, images) && MemTrace(mem, after)[7] == after
  {
  }

  /** The window: the rename has happened and the keys are not yet updated. */
  predicate InWindow(fault: Fault) {
    fault == DirectorySync || fault == ManifestWrite || fault == ManifestSync
  }

  /** The writer is still usable exactly when the exception did not fall between the rename and the
      update of the key set. */
  lemma SurvivorIsCoherentIff(d: Dir, schema: int, mem: Mem, rows: seq<Row>, uuid: Uuid, fault: Fault)
    requires Sound(d, schema) && Coherent(d, mem) && AppendError(mem, rows) == None
    ensures var s := Survive(d, schema, mem, rows, uuid, fault);
            Coherent(s.dir, s.mem) <==> !InWindow(fault)
    ensures Sound(Survive(d, schema, mem, rows, uuid, fault).dir, schema)
    ensures Survive(d, schema, mem, rows, uuid, fault).dir.temporaries == d.temporaries
  {
    NoTemporary(d, schema, mem, rows, uuid, fault, Survive(d, schema, mem, rows, uuid, fault));
    AppendExtends(d, schema, mem, rows, uuid);
    SurvivorDir(d, schema, mem, rows, uuid, fault, Survive(d, schema, mem, rows, uuid, fault));
    SurvivorMem(mem, AppendedMem(mem, rows, uuid), fault);
    FreshKey(mem, rows);
  }

  /** The image of the append that the exception leaves. */
  function ImageOf(fault: Fault): nat {
    match fault
    case BeforeRename => 2
    case DirectorySync => 3
    case ManifestWrite => 3
    case ManifestSync => 4
    case CheckpointWrite => 4
    case CheckpointSync => 5
  }

  lemma SurvivorImage(d: Dir, images: seq<Dir>, fault: Fault)
    requires |images| == 5
    ensures DirTrace(d, images)[Effects(fault)] == At(d, images, ImageOf(fault))
  {
  }

  lemma NoTemporary(d: Dir, schema: int, mem: Mem, rows: seq<Row>, uuid: Uuid, fault: Fault, s: Survivor)
    requires s == Survive(d, schema, mem, rows, uuid, fault)
    ensures s.dir.temporaries == d.temporaries
  {
    var images := AppendImages(d, schema, mem, rows, uuid);
    SurvivorImage(d, images, fault);
    assert forall i | 2 <= i < 5 :: images[i].temporaries == d.temporaries;
  }

  lemma SurvivorDir(d: Dir, schema: int, mem: Mem, rows: seq<Row>, uuid: Uuid, fault: Fault, s: Survivor)
    requires Sound(d, schema) && Coherent(d, mem) && AppendError(mem, rows) == None
    requires s == Survive(d, schema, mem, rows, uuid, fault)
    ensures Sound(s.dir, schema)
    ensures s.dir.parts == if fault == BeforeRename then d.parts else d.parts + [NewPart(mem, rows, uuid)]
  {
    SurvivorImage(d, AppendImages(d, schema, mem, rows, uuid), fault);
    CrashedAppendImage(d, schema, mem, rows, uuid, ImageOf(fault));
  }

  lemma SurvivorMem(mem: Mem, after: Mem, fault: Fault)
    ensures var s := MemTrace(mem, after)[Effects(fault)];
            && s.keys == (if InWindow(fault) || fault == BeforeRename then mem.keys else after.keys)
            && s.entries == if fault == BeforeRename || fault == DirectorySync then mem.entries else after.entries
  {
  }

  lemma FreshKey(mem: Mem, rows: seq<Row>)
    requires AppendError(mem, rows) == None
    ensures KeySet(rows) != {} && mem.keys + KeySet(rows) != mem.keys
  {
    var row := rows[0];
    assert row in rows && row.key.Some?;
    assert row.key.value in KeySet(rows);
    assert forall k | k in KeySet(rows) :: k !in KeySet(rows) * mem.keys;
    assert row.key.value !in mem.keys;
  }

  /** What a part's fate becomes with a resume step: only a row of a later step can change it. */
  lemma FateWith(p: Part, resume: Option<int>)
    requires FateOf(p, None) == Keep
    ensures FateOf(p, resume) == if HasFuture(p.rows, resume) then FutureStep else Keep
  {
  }

  lemma KeptOneMore(parts: seq<Part>, p: Part, resume: Option<int>)
    requires FateOf(p, None) == Keep
    ensures HasFuture(p.rows, resume) ==> Kept(parts + [p], resume) == Kept(parts, resume)
    ensures !HasFuture(p.rows, resume) ==> Kept(parts + [p], resume) == Kept(parts, resume) + [p]
  {
    FateWith(p, resume);
    assert (parts + [p])[..|parts|] == parts;
  }

  /** Two good parts with the same rows: both are kept, or both are moved aside. */
  lemma KeptTwice(parts: seq<Part>, p: Part, p': Part, resume: Option<int>)
    requires FateOf(p, None) == Keep && FateOf(p', None) == Keep && p'.rows == p.rows
    ensures HasFuture(p.rows, resume) ==> Kept(parts + [p, p'], resume) == Kept(parts, resume)
    ensures !HasFuture(p.rows, resume) ==> Kept(parts + [p, p'], resume) == Kept(parts, resume) + [p, p']
  {
    var both := parts + [p];
    KeptOneMore(parts, p, resume);
    KeptOneMore(both, p', resume);
    assert both + [p'] == parts + [p, p'];
    assert (Kept(parts, resume) + [p]) + [p'] == Kept(parts, resume) + [p, p'];
  }

  /** If both are kept, every key of the batch is in the table twice. */
  lemma PublishedTwice(parts: seq<Part>, p: Part, p': Part)
    requires p'.rows == p.rows != []
    ensures !UniqueKeys(RowsOf(parts + [p, p']))
  {
    var both := parts + [p];
    assert parts + [p, p'] == both + [p'];
    RowsOfOne(parts, p);
    RowsOfOne(both, p');
    UniqueSplit(RowsOf(both), p'.rows);
    assert p.rows[0] in RowsOf(both) && p.rows[0] in p'.rows;
  }

  lemma LateSurvivor(d: Dir, schema: int, mem: Mem, rows: seq<Row>, uuid: Uuid, fault: Fault, s: Survivor)
    requires Sound(d, schema) && Coherent(d, mem) && AppendError(mem, rows) == None
    requires InWindow(fault) && s == Survive(d, schema, mem, rows, uuid, fault)
    ensures Sound(s.dir, schema) && s.dir.parts == d.parts + [NewPart(mem, rows, uuid)] && s.mem.keys == mem.keys
    ensures s.mem.entries == if fault == DirectorySync then mem.entries
                             else mem.entries + [EntryOf(NewPart(mem, rows, uuid))]
  {
    SurvivorDir(d, schema, mem, rows, uuid, fault, s);
    SurvivorMem(mem, AppendedMem(mem, rows, uuid), fault);
  }

  /** The number the next part gets. */
  lemma NextNumber(mem: Mem, rows: seq<Row>, uuid: Uuid, mem': Mem, rows': seq<Row>, uuid': Uuid)
    ensures mem'.entries == mem.entries ==> NewPart(mem', rows', uuid').number == NewPart(mem, rows, uuid).number
    ensures mem'.entries == mem.entries + [EntryOf(NewPart(mem, rows, uuid))] ==>
              NewPart(mem', rows', uuid').number > NewPart(mem, rows, uuid).number
  {
    if mem'.entries == mem.entries + [EntryOf(NewPart(mem, rows, uuid))] {
      MaxIsLargest(mem'.entries);
      assert mem'.entries[|mem.entries|].number == NewPart(mem, rows, uuid).number;
    }
  }

  lemma InsertLast(parts: seq<Part>, p: Part, p': Part)
    requires p'.number >= p.number
    ensures Insert(parts + [p], p') == parts + [p, p']
  {
    assert parts + [p, p'] == (parts + [p]) + [p'];
  }

  lemma AcceptedBatch(mem: Mem, mem': Mem, rows: seq<Row>, uuid: Uuid)
    requires AppendError(mem, rows) == None && mem'.keys == mem.keys
    ensures AppendError(mem', rows) == None
    ensures FateOf(NewPart(mem', rows, uuid), None) == Keep && rows != []
  {
  }

  /** After a late exception the writer accepts the same batch again, and once the retry has been published every key
      of the batch is on disk twice.  Opening the table is then refused, whatever the resume step, if and only if the
      resume step does not reach before the batch; a resume at an earlier step moves both copies aside and opens the
      table with what it held before the batch, cut at that step. */
  lemma RetryAfterLateFault(d: Dir, schema: int, mem: Mem, rows: seq<Row>, uuid: Uuid, uuid': Uuid, fault: Fault,
                            resume: Option<int>)
    requires Sound(d, schema) && Coherent(d, mem) && AppendError(mem, rows) == None && InWindow(fault)
    ensures var s := Survive(d, schema, mem, rows, uuid, fault);
            var retried := Last(s.dir, AppendImages(s.dir, schema, s.mem, rows, uuid'));
            && AppendError(s.mem, rows) == None
            && retried.parts == d.parts + [NewPart(mem, rows, uuid), NewPart(s.mem, rows, uuid')]
            && OpenOutcome(retried, schema, resume)
               == if HasFuture(rows, resume) then Opened(MemOf(Kept(d.parts, resume))) else Refused(DuplicateCommitted)
  {
    var s := Survive(d, schema, mem, rows, uuid, fault);
    var p, p' := NewPart(mem, rows, uuid), NewPart(s.mem, rows, uuid');
    LateSurvivor(d, schema, mem, rows, uuid, fault, s);
    AcceptedBatch(mem, mem, rows, uuid);
    AcceptedBatch(mem, s.mem, rows, uuid');
    NextListing(d, schema, mem, rows, uuid, s, rows, uuid');
    OpenTwice(d, schema, p, p', resume, Last(s.dir, AppendImages(s.dir, schema, s.mem, rows, uuid')));
  }

  lemma OpenTwice(d: Dir, schema: int, p: Part, p': Part, resume: Option<int>, x: Dir)
    requires Sound(d, schema) && x.parts == d.parts + [p, p'] && !SchemaClash(x, schema)
    requires FateOf(p, None) == Keep && FateOf(p', None) == Keep && p'.rows == p.rows != []
    ensures OpenOutcome(x, schema, resume)
            == if HasFuture(p.rows, resume) then Opened(MemOf(Kept(d.parts, resume))) else Refused(DuplicateCommitted)
  {
    KeptTwice(d.parts, p, p', resume);
    KeptIsSound(d.parts, resume);
    PublishedTwice(Kept(d.parts, resume), p, p');
  }

  /** The listing after the next batch of a writer that has survived a late exception. */
  lemma NextListing(d: Dir, schema: int, mem: Mem, rows: seq<Row>, uuid: Uuid, s: Survivor, rows': seq<Row>, uuid': Uuid)
    requires s.dir.parts == d.parts + [NewPart(mem, rows, uuid)] && !SchemaClash(s.dir, schema)
    requires s.mem.entries == mem.entries || s.mem.entries == mem.entries + [EntryOf(NewPart(mem, rows, uuid))]
    ensures var next := Last(s.dir, AppendImages(s.dir, schema, s.mem, rows', uuid'));
            && next.parts == d.parts + [NewPart(mem, rows, uuid), NewPart(s.mem, rows', uuid')]
            && !SchemaClash(next, schema)
  {
    NextNumber(mem, rows, uuid, s.mem, rows', uuid');
    InsertLast(d.parts, NewPart(mem, rows, uuid), NewPart(s.mem, rows', uuid'));
    AppendImageParts(s.dir, schema, s.mem, rows', uuid', 5);
  }

  /** A different batch after a late exception is published without harm to the rows: whatever the resume step, the
      table opens, and without one it holds both batches.  Its part number is new if and only if the manifest entry of
      the first part had been appended in memory, that is, unless the exception was raised while syncing the
      directory. */
  lemma NextBatchAfterLateFault(d: Dir, schema: int, mem: Mem, rows: seq<Row>, uuid: Uuid, fault: Fault,
                                rows': seq<Row>, uuid': Uuid, resume: Option<int>)
    requires Sound(d, schema) && Coherent(d, mem) && AppendError(mem, rows) == None && InWindow(fault)
    requires AppendError(mem, rows') == None && KeySet(rows') !! KeySet(rows)
    ensures var s := Survive(d, schema, mem, rows, uuid, fault);
            var next := Last(s.dir, AppendImages(s.dir, schema, s.mem, rows', uuid'));
            && AppendError(s.mem, rows') == None
            && next.parts == d.parts + [NewPart(mem, rows, uuid), NewPart(s.mem, rows', uuid')]
            && OpenOutcome(next, schema, resume) == Opened(MemOf(Kept(next.parts, resume)))
            && Kept(next.parts, None) == next.parts
            && (Increasing(next.parts) <==> fault != DirectorySync)
  {
    var s := Survive(d, schema, mem, rows, uuid, fault);
    var p, p' := NewPart(mem, rows, uuid), NewPart(s.mem, rows', uuid');
    LateSurvivor(d, schema, mem, rows, uuid, fault, s);
    AcceptedBatch(mem, s.mem, rows', uuid');
    NextListing(d, schema, mem, rows, uuid, s, rows', uuid');
    BothOpen(d, schema, mem, rows, rows', p, p');
    KeptIsSound(d.parts + [p, p'], resume);
    NextNumber(mem, rows, uuid, s.mem, rows', uuid');
    NextIncreasing(d.parts, p, p');
  }

  lemma NextIncreasing(parts: seq<Part>, p: Part, p': Part)
    requires Increasing(parts + [p])
    ensures Increasing(parts + [p, p']) <==> p.number < p'.number
  {
    IncreasingByOne(parts + [p], p, p');
    assert (parts + [p]) + [p'] == parts + [p, p'];
  }

  lemma BothOpen(d: Dir, schema: int, mem: Mem, rows: seq<Row>, rows': seq<Row>, p: Part, p': Part)
    requires Sound(d, schema) && Coherent(d, mem) && AppendError(mem, rows) == None
    requires AppendError(mem, rows') == None && KeySet(rows') !! KeySet(rows)
    requires p.rows == rows && p'.rows == rows' && FateOf(p, None) == Keep && FateOf(p', None) == Keep
    ensures var all := d.parts + [p, p'];
            Kept(all, None) == all && UniqueKeys(RowsOf(all))
  {
    var both, all := d.parts + [p], d.parts + [p, p'];
    BothKept(d.parts, p, p');
    assert all == both + [p'];
    RowsOfOne(d.parts, p);
    RowsOfOne(both, p');
    BothUnique(d, mem, rows, rows');
  }

  lemma BothKept(parts: seq<Part>, p: Part, p': Part)
    requires AllKept(parts, None) && FateOf(p, None) == Keep && FateOf(p', None) == Keep
    ensures Kept(parts + [p, p'], None) == parts + [p, p']
  {
    KeptAll(parts + [p, p'], None);
  }

  lemma BothUnique(d: Dir, mem: Mem, rows: seq<Row>, rows': seq<Row>)
    requires Coherent(d, mem) && UniqueKeys(RowsOf(d.parts)) && AppendError(mem, rows) == None
    requires AppendError(mem, rows') == None && KeySet(rows') !! KeySet(rows)
    ensures UniqueKeys(RowsOf(d.parts) + rows + rows')
  {
    NewKeysJoin(d, mem, rows);
    NewKeysApart(d, mem, rows');
    BatchesApart(rows, rows');
    UniqueJoin(RowsOf(d.parts) + rows, rows');
  }

  lemma BatchesApart(rows: seq<Row>, rows': seq<Row>)
    requires KeySet(rows') !! KeySet(rows) && (forall r | r in rows :: r.key.Some?) && forall s | s in rows' :: s.key.Some?
    ensures forall r, s | r in rows && s in rows' :: r.key != s.key
  {
    forall r, s | r in rows && s in rows'
      ensures r.key != s.key
    {
      assert r.key.value in KeySet(rows) && s.key.value in KeySet(rows');
    }
  }

  lemma RowsOfOne(parts: seq<Part>, p: Part)
    ensures RowsOf(parts + [p]) == RowsOf(parts) + p.rows
  {
    assert (parts + [p])[..|parts|] == parts;
  }

  /** One more part at the end of an increasing listing. */
  lemma IncreasingByOne(parts: seq<Part>, p: Part, p': Part)
    requires Increasing(parts) && parts != [] && parts[|parts| - 1] == p
    ensures Increasing(parts + [p']) <==> p.number < p'.number
  {
    var all := parts + [p'];
    if p.number < p'.number {
      forall i, j | 0 <= i < j < |all|
        ensures all[i].number < all[j].number
      {
        if j == |parts| && i < |parts| - 1 {
          assert parts[i].number < p.number;
        }
      }
    } else {
      assert all[|parts| - 1] == p && all[|parts|] == p';
    }
  }
}
