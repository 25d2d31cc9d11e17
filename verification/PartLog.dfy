/** The append-only part table on disk (latent_grpo_runner/metrics/storage.py).

    A table directory is a value of type Dir.  Every change the program makes to the directory is one
    atomic action (a rename, or a replace of a JSON file), so an operation is described by the list of
    directory images it leaves behind, one per action; a process that dies leaves one of them. */
module PartLog {
  import opened Options

  type Key = seq<int>
  type Uuid = (nat, nat)

  /** A row: its primary key (None when a key column is missing), its checkpoint_step or global_step
      (None when that is not an integer), whether it satisfies the column checks, and its columns. */
  datatype Row = Row(key: Option<Key>, step: Option<int>, conforms: bool,
                     optimizerStep: int, resumeMark: Option<int>, payload: int)

  /** A part file: `readable` and `schemaMatches` say what a read-back of the file finds. */
  datatype Part = Part(number: int, uuid: Uuid, rows: seq<Row>, readable: bool, schemaMatches: bool)
  datatype Entry = Entry(number: int, uuid: Uuid, rowCount: nat)
  datatype Manifest = Manifest(schema: int, entries: seq<Entry>)
  datatype Summary = Summary(lastNumber: int, partCount: nat)
  datatype Fate = Keep | FutureStep | Unreadable
  datatype Quarantined = Quarantined(fate: Fate, part: Part)

  /** `parts` is the listing of part files in part-number order; `temporaries` are files no open looks at. */
  datatype Dir = Dir(parts: seq<Part>, temporaries: seq<Part>, quarantine: seq<Quarantined>,
                     schema: Option<int>, manifest: Option<Manifest>, checkpoint: Option<Summary>)

  /** What a writer keeps in memory: the manifest entries and the committed keys. */
  datatype Mem = Mem(entries: seq<Entry>, keys: set<Key>)

  datatype Error = EmptyBatch | MissingKey | DuplicateInBatch | DuplicateCommitted | SchemaMismatch
  datatype Outcome = Opened(mem: Mem) | Refused(error: Error)

  const EMPTY_DIR := Dir([], [], [], None, None, None)

  // ----- reading a directory -----

  predicate IsFuture(row: Row, limit: int) {
    row.step.Some? && row.step.value > limit
  }

  predicate HasFuture(rows: seq<Row>, resume: Option<int>) {
    resume.Some? && exists row | row in rows :: IsFuture(row, resume.value)
  }

  predicate WellKeyed(rows: seq<Row>) {
    forall row | row in rows :: row.conforms && row.key.Some?
  }

  /** The branch the reconciliation loop takes for one part. */
  function FateOf(p: Part, resume: Option<int>): Fate {
    if !p.readable then Unreadable
    else if HasFuture(p.rows, resume) then FutureStep
    else if p.schemaMatches && WellKeyed(p.rows) then Keep
    else Unreadable
  }

  function Kept(parts: seq<Part>, resume: Option<int>): seq<Part> {
    if parts == [] then []
    else
      var rest := Kept(parts[..|parts| - 1], resume);
      var p := parts[|parts| - 1];
      if FateOf(p, resume) == Keep then rest + [p] else rest
  }

  function Removed(parts: seq<Part>, resume: Option<int>): seq<Quarantined> {
    if parts == [] then []
    else
      var rest := Removed(parts[..|parts| - 1], resume);
      var p := parts[|parts| - 1];
      if FateOf(p, resume) == Keep then rest else rest + [Quarantined(FateOf(p, resume), p)]
  }

  function EntryOf(p: Part): Entry {
    Entry(p.number, p.uuid, |p.rows|)
  }

  function Entries(parts: seq<Part>): (r: seq<Entry>)
    ensures |r| == |parts|
    ensures forall i | 0 <= i < |parts| :: r[i] == EntryOf(parts[i])
  {
    seq(|parts|, i requires 0 <= i < |parts| => EntryOf(parts[i]))
  }

  function RowsOf(parts: seq<Part>): seq<Row> {
    if parts == [] then [] else RowsOf(parts[..|parts| - 1]) + parts[|parts| - 1].rows
  }

  function KeySet(rows: seq<Row>): set<Key> {
    set row | row in rows && row.key.Some? :: row.key.value
  }

  predicate UniqueKeys(rows: seq<Row>) {
    forall i, j | 0 <= i < j < |rows| :: rows[i].key != rows[j].key
  }

  function MaxNumber(entries: seq<Entry>): int {
    if entries == [] then -1
    else
      var last := entries[|entries| - 1].number;
      var rest := MaxNumber(entries[..|entries| - 1]);
      if |entries| == 1 || last > rest then last else rest
  }

  /** It is at least every number, and one of them. */
  lemma {:induction false} MaxIsLargest(entries: seq<Entry>)
    ensures forall i | 0 <= i < |entries| :: entries[i].number <= MaxNumber(entries)
    ensures entries != [] ==> exists i :: 0 <= i < |entries| && entries[i].number == MaxNumber(entries)
  {
    if entries != [] {
      var n := |entries| - 1;
      MaxIsLargest(entries[..n]);
      if n == 0 || entries[n].number > MaxNumber(entries[..n]) {
        assert entries[n].number == MaxNumber(entries);
      } else {
        var i :| 0 <= i < n && entries[..n][i].number == MaxNumber(entries[..n]);
        assert entries[i].number == MaxNumber(entries);
      }
    }
  }

  function SummaryOf(entries: seq<Entry>): Summary {
    Summary(MaxNumber(entries), |entries|)
  }

  // ----- opening a table -----

  /** The directory after the first bad part at or after listing position i has been moved aside. */
  function MoveAside(d: Dir, i: nat, fate: Fate): Dir
    requires i < |d.parts|
  {
    d.(parts := d.parts[..i] + d.parts[i + 1..], quarantine := d.quarantine + [Quarantined(fate, d.parts[i])])
  }

  /** One image per part moved aside, scanning the listing from position i. */
  function QuarantineImages(d: Dir, i: nat, resume: Option<int>): seq<Dir>
    requires i <= |d.parts|
    decreases |d.parts| - i
  {
    if i == |d.parts| then []
    else
      var fate := FateOf(d.parts[i], resume);
      if fate == Keep then QuarantineImages(d, i + 1, resume)
      else [MoveAside(d, i, fate)] + QuarantineImages(MoveAside(d, i, fate), i, resume)
  }

  predicate SchemaClash(d: Dir, schema: int) {
    || (d.schema.Some? && d.schema.value != schema)
    || (d.manifest.Some? && d.manifest.value.schema != schema)
  }

  /** The directory once a table has been opened. */
  function Settled(d: Dir, schema: int, resume: Option<int>): Dir {
    var kept := Kept(d.parts, resume);
    Dir(kept, d.temporaries, d.quarantine + Removed(d.parts, resume),
        Some(schema), Some(Manifest(schema, Entries(kept))), d.checkpoint)
  }

  /** Writing the schema file, unless it exists. */
  function SchemaImages(d: Dir, schema: int): seq<Dir> {
    if d.schema.None? then [d.(schema := Some(schema))] else []
  }

  /** Quarantine moves, then the manifest unless it is already right. */
  function RebuildImages(d: Dir, schema: int, resume: Option<int>): seq<Dir> {
    if d.manifest.Some? && d.manifest.value.schema != schema then []
    else
      var settled := Settled(d, schema, resume);
      QuarantineImages(d, 0, resume) + (if d.manifest == settled.manifest then [] else [settled])
  }

  /** All images left behind by opening a table. */
  function OpenImages(d: Dir, schema: int, resume: Option<int>): seq<Dir> {
    if d.schema.Some? && d.schema.value != schema then []
    else SchemaImages(d, schema) + RebuildImages(d.(schema := Some(schema)), schema, resume)
  }

  function MemOf(parts: seq<Part>): Mem {
    Mem(Entries(parts), KeySet(RowsOf(parts)))
  }

  function OpenOutcome(d: Dir, schema: int, resume: Option<int>): Outcome {
    if SchemaClash(d, schema) then Refused(SchemaMismatch)
    else
      var kept := Kept(d.parts, resume);
      if UniqueKeys(RowsOf(kept)) then Opened(MemOf(kept)) else Refused(DuplicateCommitted)
  }

  // ----- appending a batch -----

  /** The checks append makes before it publishes anything, in the program's order. */
  function AppendError(mem: Mem, rows: seq<Row>): Option<Error> {
    if rows == [] then Some(EmptyBatch)
    else if exists row | row in rows :: row.key.None? then Some(MissingKey)
    else if !UniqueKeys(rows) then Some(DuplicateInBatch)
    else if KeySet(rows) * mem.keys != {} then Some(DuplicateCommitted)
    else if exists row | row in rows :: !row.conforms then Some(SchemaMismatch)
    else None
  }

  function NewPart(mem: Mem, rows: seq<Row>, uuid: Uuid): Part {
    Part(MaxNumber(mem.entries) + 1, uuid, rows, true, true)
  }

  /** Publishing a file puts it in the listing after every part whose number is not larger. */
  function Insert(parts: seq<Part>, p: Part): seq<Part> {
    if parts == [] || parts[|parts| - 1].number <= p.number then parts + [p]
    else Insert(parts[..|parts| - 1], p) + [parts[|parts| - 1]]
  }

  function AppendedMem(mem: Mem, rows: seq<Row>, uuid: Uuid): Mem {
    Mem(mem.entries + [EntryOf(NewPart(mem, rows, uuid))], mem.keys + KeySet(rows))
  }

  /** The images of a successful append: half-written temporary, complete temporary, rename,
      manifest, writer checkpoint.  The third one is the commit point. */
  function AppendImages(d: Dir, schema: int, mem: Mem, rows: seq<Row>, uuid: Uuid): (r: seq<Dir>)
    ensures |r| == 5
  {
    var p := NewPart(mem, rows, uuid);
    var entries := mem.entries + [EntryOf(p)];
    var partial := d.(temporaries := d.temporaries + [p.(readable := false)]);
    var written := d.(temporaries := d.temporaries + [p]);
    var renamed := d.(parts := Insert(d.parts, p));
    var listed := renamed.(manifest := Some(Manifest(schema, entries)));
    [partial, written, renamed, listed, listed.(checkpoint := Some(SummaryOf(entries)))]
  }

  // ----- crash images -----

  /** The last image of a list of images that starts from `start`. */
  function Last<S>(start: S, images: seq<S>): S {
    if images == [] then start else images[|images| - 1]
  }

  /** What is on disk when the process dies after `fuel` of the actions. */
  function At<S>(start: S, images: seq<S>, fuel: nat): S {
    if fuel == 0 then start else if fuel < |images| then images[fuel - 1] else Last(start, images)
  }

  lemma AtConcat<S>(start: S, first: seq<S>, second: seq<S>, fuel: nat)
    ensures Last(start, first + second) == Last(Last(start, first), second)
    ensures At(start, first + second, fuel) ==
            if fuel <= |first| then At(start, first, fuel) else At(Last(start, first), second, fuel - |first|)
  {
    if second == [] {
      assert first + second == first;
    }
  }
}
