/** The single writer of one table (latent_grpo_runner/metrics/storage.py:225-401). */
module PartWriter {
  import opened Options
  import opened PartLog
  import opened PartLogLaws
  import opened OutputDisk

  datatype Failure = WriterAuthority | Storage(error: Error) | Died

  class AppendOnlyPartWriter {
    const disk: OutputRoot
    const table: Table
    const schema: int
    var manifest: seq<Entry>
    var keys: set<Key>
    var holdsLock: bool

    constructor (disk: OutputRoot, table: Table, schema: int)
      ensures this.disk == disk && this.table == table && this.schema == schema && !holdsLock
    {
      this.disk, this.table, this.schema := disk, table, schema;
      manifest, keys, holdsLock := [], {}, false;
    }

    ghost function Dir(): Dir
      requires table in disk.image.tables
      reads disk
    {
      disk.image.tables[table]
    }

    function Memory(): Mem
      reads this
    {
      Mem(manifest, keys)
    }

    /** Give the lock back, once. */
    method Close()
      modifies this, disk
      ensures !holdsLock
      ensures disk.locks == if old(holdsLock) then old(disk.locks) - {table} else old(disk.locks)
      ensures disk.image == old(disk.image) && disk.fuel == old(disk.fuel) && disk.crashed == old(disk.crashed)
      ensures Memory() == old(Memory())
    {
      if holdsLock {
        disk.locks := disk.locks - {table};
        holdsLock := false;
      }
    }

    /** Take the lock, reconcile the directory with the parts found in it, load the committed keys. */
    method Open(writerRank: int, resume: Option<int>) returns (failure: Option<Failure>)
      requires table in disk.image.tables && !disk.crashed && !holdsLock
      modifies this, disk
      ensures (writerRank != 0 || table in old(disk.locks)) ==>
                failure == Some(WriterAuthority) && unchanged(this) && unchanged(disk)
      ensures writerRank == 0 && table !in old(disk.locks) ==>
                && Ran(old(disk.image), old(disk.fuel), Lift(old(disk.image), table, OpenImages(old(Dir()), schema, resume)),
                       disk.image, disk.fuel, disk.crashed)
                && (disk.crashed ==> failure == Some(Died))
                && (!disk.crashed ==>
                      match OpenOutcome(old(Dir()), schema, resume)
                         case Opened(mem) =>
                           failure == None && Memory() == mem && holdsLock && disk.locks == old(disk.locks) + {table}
                         case Refused(error) =>
                           failure == Some(Storage(error)) && !holdsLock && disk.locks == old(disk.locks))
      ensures writerRank == 0 && table !in old(disk.locks) && !disk.crashed ==>
                && table in disk.image.tables
                && OpenedRight(old(Dir()), Dir(), schema, resume, failure, Memory())
    {
      if writerRank != 0 || table in disk.locks {
        return Some(WriterAuthority);
      }
      disk.locks, holdsLock := disk.locks + {table}, true;
      failure := Reconcile(resume);
      if !disk.crashed {
        LiftAt(old(disk.image), table, OpenImages(old(Dir()), schema, resume), old(disk.fuel));
        OpenEnds(old(Dir()), schema, resume, old(disk.fuel), Dir(), failure, Memory());
        if failure.Some? {
          Close();
        }
      }
    }

    /** What is done under the lock. */
    method Reconcile(resume: Option<int>) returns (failure: Option<Failure>)
      requires table in disk.image.tables && !disk.crashed
      modifies this`manifest, this`keys, disk`image, disk`fuel, disk`crashed
      ensures Ran(old(disk.image), old(disk.fuel), Lift(old(disk.image), table, OpenImages(old(Dir()), schema, resume)),
                  disk.image, disk.fuel, disk.crashed)
      ensures disk.crashed ==> failure == Some(Died)
      ensures !disk.crashed ==>
                match OpenOutcome(old(Dir()), schema, resume)
                case Opened(mem) => failure == None && Memory() == mem
                case Refused(error) => failure == Some(Storage(error))
    {
      ghost var d1 := old(Dir()).(schema := Some(schema));
      ghost var head, rest := SchemaImages(old(Dir()), schema), RebuildImages(d1, schema, resume);
      AtConcat(old(Dir()), head, rest, old(disk.fuel));
      LiftAt(old(disk.image), table, OpenImages(old(Dir()), schema, resume), old(disk.fuel));
      var error := VerifyOrWriteSchema();
      if disk.crashed {
        return Some(Died);
      }
      if error == None {
        WithDirAgain(old(disk.image), table, d1, At(d1, rest, disk.fuel));
        error := LoadOrRebuildManifest(resume);
        if disk.crashed {
          return Some(Died);
        }
      }
      if error == None {
        KeptKept(old(Dir()).parts, resume);
        error := LoadKeys();
      }
      return if error.Some? then Some(Storage(error.value)) else None;
    }

    method VerifyOrWriteSchema() returns (error: Option<Error>)
      requires table in disk.image.tables && !disk.crashed
      modifies disk`image, disk`fuel, disk`crashed
      ensures var d := old(Dir());
              if d.schema.Some? && d.schema.value != schema
              then error == Some(SchemaMismatch) && unchanged(disk)
              else
                && error == None
                && disk.image == WithDir(old(disk.image), table, At(d, SchemaImages(d, schema), old(disk.fuel)))
                && (disk.crashed <==> old(disk.fuel) < |SchemaImages(d, schema)|)
                && (!disk.crashed ==> disk.fuel == old(disk.fuel) - |SchemaImages(d, schema)|
                                      && Dir() == d.(schema := Some(schema)))
    {
      var dir := disk.image.tables[table];
      WithSameDir(disk.image, table);
      if dir.schema.Some? {
        return if dir.schema.value == schema then None else Some(SchemaMismatch);
      }
      disk.Act(WithDir(disk.image, table, dir.(schema := Some(schema))));
      return None;
    }

    /** Rebuild the manifest from the parts that are there, moving bad and future parts aside. */
    method LoadOrRebuildManifest(resume: Option<int>) returns (error: Option<Error>)
      requires table in disk.image.tables && !disk.crashed && Dir().schema == Some(schema)
      modifies this`manifest, disk`image, disk`fuel, disk`crashed
      ensures var images := RebuildImages(old(Dir()), schema, resume);
              && disk.image == WithDir(old(disk.image), table, At(old(Dir()), images, old(disk.fuel)))
              && (disk.crashed <==> old(disk.fuel) < |images|)
              && (!disk.crashed ==> disk.fuel == old(disk.fuel) - |images|)
      ensures !disk.crashed && SchemaClash(old(Dir()), schema) ==> error == Some(SchemaMismatch)
      ensures !disk.crashed && !SchemaClash(old(Dir()), schema) ==>
                && error == None
                && manifest == Entries(Kept(old(Dir()).parts, resume))
                && Dir() == Settled(old(Dir()), schema, resume)
      ensures !disk.crashed ==>
                (error.Some? <==> old(Dir()).manifest.Some? && old(Dir()).manifest.value.schema != schema)
      ensures !disk.crashed && error == None ==>
                && Reconciled(old(Dir()), Dir(), resume)
                && Describe(manifest, Dir().parts) && Dir().manifest == Some(Manifest(schema, manifest))
    {
      var dir := disk.image.tables[table];
      ghost var root, fuel := disk.image, disk.fuel;
      WithSameDir(root, table);
      if dir.manifest.Some? && dir.manifest.value.schema != schema {
        return Some(SchemaMismatch);
      }
      ScanSettles(dir, resume, 0);
      var entries, settled := ScanListing(dir, resume);
      var rebuilt := settled.(manifest := Some(Manifest(schema, entries)));
      ghost var moves := QuarantineImages(dir, 0, resume);
      AtConcat(dir, moves, if dir.manifest == Settled(dir, schema, resume).manifest then [] else [Settled(dir, schema, resume)], fuel);
      if disk.crashed {
        return None;
      }
      if settled.manifest != rebuilt.manifest {
        WithDirAgain(root, table, settled, rebuilt);
        disk.Act(WithDir(disk.image, table, rebuilt));
      }
      manifest := entries;
      SettledReconciles(dir, Settled(dir, schema, resume), resume);
      return None;
    }

    /** Walk the listing in part-number order, move every bad part aside, describe the good ones. */
    method ScanListing(start: Dir, resume: Option<int>) returns (entries: seq<Entry>, dir: Dir)
      requires table in disk.image.tables && disk.image.tables[table] == start && !disk.crashed
      modifies disk`image, disk`fuel, disk`crashed
      ensures disk.image == WithDir(old(disk.image), table, At(start, QuarantineImages(start, 0, resume), old(disk.fuel)))
      ensures disk.crashed <==> old(disk.fuel) < |QuarantineImages(start, 0, resume)|
      ensures !disk.crashed ==> disk.fuel == old(disk.fuel) - |QuarantineImages(start, 0, resume)|
      ensures !disk.crashed ==> entries == Entries(Kept(start.parts, resume))
      ensures !disk.crashed ==> dir == Last(start, QuarantineImages(start, 0, resume))
      ensures !disk.crashed ==> Reconciled(start, dir, resume) && Describe(entries, dir.parts)
      ensures !disk.crashed ==> dir.schema == start.schema && dir.manifest == start.manifest
    {
      ghost var moves, fuel, root := QuarantineImages(start, 0, resume), disk.fuel, disk.image;
      var listing := start.parts;
      entries, dir := [], start;
      ghost var trail: seq<Dir> := [];
      ScanStart(start, resume);
      WithSameDir(root, table);
      var position := 0;
      while position < |listing|
        invariant position <= |listing| && !disk.crashed
        invariant ScanState(start, resume, position, entries, dir, trail)
        invariant disk.image == WithDir(root, table, dir) && disk.fuel + |trail| == fuel
      {
        var part := listing[position];
        var fate := FateOf(part, resume);
        var next := position + 1;
        if fate == Keep {
          var more := entries + [EntryOf(part)];
          ScanPasses(start, resume, position, entries, dir, trail, next, more);
          entries := more;
        } else {
          ghost var moved', trail' := ScanMoves(start, resume, position, entries, dir, trail, next);
          var moved := MoveAside(dir, |entries|, fate);
          WithDirAgain(root, table, dir, moved);
          disk.Act(WithDir(disk.image, table, moved));
          if disk.crashed {
            assert fuel == |trail| && At(start, moves, fuel) == dir;
            return;
          }
          trail, dir := trail', moved;
        }
        position := next;
      }
      ScanEnds(start, resume, entries, dir, trail);
      assert At(start, moves, fuel) == dir;
      SettledReconciles(start, dir, resume);
    }

    /** Collect the primary keys of all committed rows; a key met twice is an error. */
    method LoadKeys() returns (error: Option<Error>)
      requires table in disk.image.tables && AllKept(Dir().parts, None)
      modifies this`keys
      ensures error == if UniqueKeys(RowsOf(Dir().parts)) then None else Some(DuplicateCommitted)
      ensures error == None ==> keys == KeySet(RowsOf(Dir().parts))
    {
      var parts := disk.image.tables[table].parts;
      keys := {};
      ghost var seen: seq<Row> := [];
      for i := 0 to |parts|
        invariant seen == RowsOf(parts[..i]) && UniqueKeys(seen) && keys == KeySet(seen)
        invariant forall row | row in seen :: row.key.Some?
      {
        var rows := parts[i].rows;
        assert parts[..i + 1][..i] == parts[..i];
        assert FateOf(parts[i], None) == Keep;
        for j := 0 to |rows|
          invariant seen == RowsOf(parts[..i]) + rows[..j] && UniqueKeys(seen) && keys == KeySet(seen)
          invariant forall row | row in seen :: row.key.Some?
        {
          var key := rows[j].key.value;
          assert rows[..j + 1] == rows[..j] + [rows[j]];
          assert RowsOf(parts[..i]) + rows[..j + 1] == seen + [rows[j]];
          UniqueSplit(seen, [rows[j]]);
          if key in keys {
            DuplicateStays(parts, i, rows[..j + 1]);
            return Some(DuplicateCommitted);
          }
          keys := keys + {key};
          seen := seen + [rows[j]];
        }
        assert rows[..|rows|] == rows;
      }
      assert parts[..|parts|] == parts;
      return None;
    }

    /** Publish one batch: half-written and complete temporary, rename, manifest, writer checkpoint. */
    method Append(rows: seq<Row>, uuid: Uuid) returns (failure: Option<Failure>)
      requires table in disk.image.tables && !disk.crashed
      modifies this`manifest, this`keys, disk`image, disk`fuel, disk`crashed
      ensures AppendError(old(Memory()), rows).Some? ==>
                failure == Some(Storage(AppendError(old(Memory()), rows).value)) && unchanged(this) && unchanged(disk)
      ensures AppendError(old(Memory()), rows) == None ==>
                && Ran(old(disk.image), old(disk.fuel),
                       Lift(old(disk.image), table, AppendImages(old(Dir()), schema, old(Memory()), rows, uuid)),
                       disk.image, disk.fuel, disk.crashed)
                && failure == (if disk.crashed then Some(Died) else None)
                && (!disk.crashed ==> Memory() == AppendedMem(old(Memory()), rows, uuid))
      ensures failure == None || failure == Some(Died) || (failure.value.Storage? && Refuses(failure.value.error, old(keys), rows))
      ensures failure == None || failure == Some(Died) <==> Acceptable(old(keys), rows)
      ensures failure == None ==>
                && table in disk.image.tables
                && Published(old(Dir()), Dir(), schema, old(manifest), manifest, rows, uuid)
                && forall k :: k in keys <==> k in old(keys) || exists row | row in rows :: row.key == Some(k)
    {
      var error := AppendError(Memory(), rows);
      RefusalMeans(Memory(), rows);
      if error.Some? {
        return Some(Storage(error.value));
      }
      AppendMeans(Dir(), schema, Memory(), rows, uuid);
      LiftAt(disk.image, table, AppendImages(Dir(), schema, Memory(), rows, uuid), disk.fuel);
      failure := CommitPart(rows, uuid);
    }

    /** What append does once its checks have passed. */
    method CommitPart(rows: seq<Row>, uuid: Uuid) returns (failure: Option<Failure>)
      requires table in disk.image.tables && !disk.crashed
      modifies this`manifest, this`keys, disk`image, disk`fuel, disk`crashed
      ensures Ran(old(disk.image), old(disk.fuel),
                  Lift(old(disk.image), table, AppendImages(old(Dir()), schema, old(Memory()), rows, uuid)),
                  disk.image, disk.fuel, disk.crashed)
      ensures failure == if disk.crashed then Some(Died) else None
      ensures !disk.crashed ==> Memory() == AppendedMem(old(Memory()), rows, uuid)
    {
      var dir := disk.image.tables[table];
      var part := NewPart(Memory(), rows, uuid);
      ghost var root, start, fuel := disk.image, dir, disk.fuel;
      ghost var images := AppendImages(dir, schema, Memory(), rows, uuid);
      WithSameDir(root, table);
      Publish(root, start, images, fuel, 0, 1, dir.(temporaries := dir.temporaries + [part.(readable := false)]));
      Publish(root, start, images, fuel, 1, 2, dir.(temporaries := dir.temporaries + [part]));
      dir := dir.(parts := Insert(dir.parts, part));
      Publish(root, start, images, fuel, 2, 3, dir);
      manifest := manifest + [EntryOf(part)];
      dir := dir.(manifest := Some(Manifest(schema, manifest)));
      Publish(root, start, images, fuel, 3, 4, dir);
      keys := keys + KeySet(rows);
      Publish(root, start, images, fuel, 4, 5, dir.(checkpoint := Some(WriterCheckpoint())));
      LiftAt(root, table, images, fuel);
      return if disk.crashed then Some(Died) else None;
    }

    function WriterCheckpoint(): Summary
      reads this
    {
      SummaryOf(manifest)
    }

    /** k actions of a list of images have been attempted with the given fuel. */
    ghost predicate Attempted(root: Root, start: PartLog.Dir, images: seq<PartLog.Dir>, fuel: nat, k: nat)
      reads disk
    {
      && (if disk.crashed then fuel < k else fuel == disk.fuel + k)
      && disk.image == WithDir(root, table, At(start, images, if disk.crashed then fuel else k))
    }

    /** The next action; after the process has died nothing happens. */
    method Publish(ghost root: Root, ghost start: PartLog.Dir, ghost images: seq<PartLog.Dir>,
                   ghost fuel: nat, ghost k: nat, ghost k': nat, next: PartLog.Dir)
      requires k < |images| && k' == k + 1 && next == images[k] && Attempted(root, start, images, fuel, k)
      modifies disk`image, disk`fuel, disk`crashed
      ensures Attempted(root, start, images, fuel, k')
    {
      WithDirAgain(root, table, At(start, images, k), next);
      disk.Act(WithDir(disk.image, table, next));
    }
  }

  /** What an open that has not been killed does to a directory, and when it fails. */
  ghost predicate OpenedRight(before: Dir, after: Dir, schema: int, resume: Option<int>, failure: Option<Failure>, mem: Mem) {
    if before.schema.Some? && before.schema.value != schema then
      failure == Some(Storage(SchemaMismatch)) && after == before
    else if before.manifest.Some? && before.manifest.value.schema != schema then
      failure == Some(Storage(SchemaMismatch)) && after == before.(schema := Some(schema))
    else
      && Reconciled(before, after, resume) && after.schema == Some(schema)
      && after.manifest.Some? && after.manifest.value.schema == schema && Describe(after.manifest.value.entries, after.parts)
      && failure == (if DistinctKeys(after.parts) then None else Some(Storage(DuplicateCommitted)))
      && (failure == None ==> Remembers(mem, after.parts))
  }

  /** The directory after an open has gone through all its images. */
  lemma OpenEnds(d: Dir, schema: int, resume: Option<int>, fuel: nat, x: Dir, failure: Option<Failure>, mem: Mem)
    requires fuel >= |OpenImages(d, schema, resume)| && x == At(d, OpenImages(d, schema, resume), fuel)
    requires match OpenOutcome(d, schema, resume)
             case Opened(m) => failure == None && mem == m
             case Refused(error) => failure == Some(Storage(error))
    ensures OpenedRight(d, x, schema, resume, failure, mem)
  {
    if !SchemaClash(d, schema) {
      OpenLast(d, schema, resume, fuel);
      SettledRight(d, schema, resume, failure, mem);
    }
  }

  lemma OpenLast(d: Dir, schema: int, resume: Option<int>, fuel: nat)
    requires fuel >= |OpenImages(d, schema, resume)| && !SchemaClash(d, schema)
    ensures At(d, OpenImages(d, schema, resume), fuel) == Settled(d, schema, resume)
  {
    CrashedOpenConverges(d, schema, resume, fuel);
  }

  lemma SettledRight(d: Dir, schema: int, resume: Option<int>, failure: Option<Failure>, mem: Mem)
    requires !SchemaClash(d, schema)
    requires match OpenOutcome(d, schema, resume)
             case Opened(m) => failure == None && mem == m
             case Refused(error) => failure == Some(Storage(error))
    ensures OpenedRight(d, Settled(d, schema, resume), schema, resume, failure, mem)
  {
    OpenMeans(d, schema, resume);
    assert Describe(Entries(Kept(d.parts, resume)), Kept(d.parts, resume));
  }

  /** The directory when the scan stands at listing position i. */
  ghost function Scanned(start: Dir, resume: Option<int>, i: nat): Dir
    requires i <= |start.parts|
  {
    start.(parts := Kept(start.parts[..i], resume) + start.parts[i..],
           quarantine := start.quarantine + Removed(start.parts[..i], resume))
  }

  /** The loop invariant of the listing scan; `trail` holds the images left so far. */
  ghost predicate ScanState(start: Dir, resume: Option<int>, i: nat, entries: seq<Entry>, dir: Dir, trail: seq<Dir>) {
    && i <= |start.parts|
    && entries == Entries(Kept(start.parts[..i], resume))
    && dir == Scanned(start, resume, i) && dir == Last(start, trail)
    && trail + QuarantineImages(dir, |entries|, resume) == QuarantineImages(start, 0, resume)
  }

  lemma ScanStart(start: Dir, resume: Option<int>)
    ensures ScanState(start, resume, 0, [], start, [])
  {
    assert Kept(start.parts[..0], resume) == [];
    assert [] + start.parts == start.parts && start.quarantine + [] == start.quarantine;
    assert [] + QuarantineImages(start, 0, resume) == QuarantineImages(start, 0, resume);
  }

  lemma KeptStep(parts: seq<Part>, i: nat, resume: Option<int>)
    requires i < |parts|
    ensures Kept(parts[..i + 1], resume)
            == Kept(parts[..i], resume) + if FateOf(parts[i], resume) == Keep then [parts[i]] else []
    ensures Removed(parts[..i + 1], resume)
            == Removed(parts[..i], resume)
               + if FateOf(parts[i], resume) == Keep then [] else [Quarantined(FateOf(parts[i], resume), parts[i])]
  {
    assert parts[..i + 1][..i] == parts[..i];
  }

  lemma NextOver(kept: seq<Part>, parts: seq<Part>, i: nat)
    requires i < |parts|
    ensures kept + parts[i..] == (kept + [parts[i]]) + parts[i + 1..]
  {
    assert parts[i..] == [parts[i]] + parts[i + 1..];
  }

  lemma ScanPasses(start: Dir, resume: Option<int>, i: nat, entries: seq<Entry>, dir: Dir, trail: seq<Dir>,
                   next: nat, entries': seq<Entry>)
    requires i < |start.parts| && ScanState(start, resume, i, entries, dir, trail)
    requires FateOf(start.parts[i], resume) == Keep
    requires next == i + 1 && entries' == entries + [EntryOf(start.parts[i])]
    ensures ScanState(start, resume, next, entries', dir, trail)
  {
    var p, kept := start.parts[i], Kept(start.parts[..i], resume);
    KeptStep(start.parts, i, resume);
    NextOver(kept, start.parts, i);
    assert dir == Scanned(start, resume, i + 1);
    assert Entries(kept + [p]) == entries + [EntryOf(p)];
    assert dir.parts[|entries|] == p;
  }

  lemma ScannedMove(start: Dir, resume: Option<int>, i: nat)
    requires i < |start.parts| && FateOf(start.parts[i], resume) != Keep
    ensures var dir, kept := Scanned(start, resume, i), |Kept(start.parts[..i], resume)|;
            && dir.parts[kept] == start.parts[i]
            && MoveAside(dir, kept, FateOf(start.parts[i], resume)) == Scanned(start, resume, i + 1)
    ensures Kept(start.parts[..i + 1], resume) == Kept(start.parts[..i], resume)
  {
    var p, kept := start.parts[i], Kept(start.parts[..i], resume);
    KeptStep(start.parts, i, resume);
    var dir := Scanned(start, resume, i);
    assert dir.parts == kept + [p] + start.parts[i + 1..];
    assert dir.parts[..|kept|] == kept && dir.parts[|kept| + 1..] == start.parts[i + 1..];
  }

  lemma ScanMoves(start: Dir, resume: Option<int>, i: nat, entries: seq<Entry>, dir: Dir, trail: seq<Dir>, next: nat)
    returns (moved: Dir, trail': seq<Dir>)
    requires i < |start.parts| && ScanState(start, resume, i, entries, dir, trail)
    requires FateOf(start.parts[i], resume) != Keep && next == i + 1
    ensures |entries| < |dir.parts| && dir.parts[|entries|] == start.parts[i]
    ensures moved == MoveAside(dir, |entries|, FateOf(start.parts[i], resume)) && trail' == trail + [moved]
    ensures ScanState(start, resume, next, entries, moved, trail')
    ensures |trail| < |QuarantineImages(start, 0, resume)|
    ensures At(start, QuarantineImages(start, 0, resume), |trail|) == dir
  {
    ScannedMove(start, resume, i);
    moved := MoveAside(dir, |entries|, FateOf(start.parts[i], resume));
    trail' := trail + [moved];
    TrailGrows(start, QuarantineImages(start, 0, resume), dir, trail, moved, QuarantineImages(moved, |entries|, resume));
  }

  lemma TrailGrows(start: Dir, images: seq<Dir>, dir: Dir, trail: seq<Dir>, moved: Dir, rest: seq<Dir>)
    requires images == trail + ([moved] + rest) && dir == Last(start, trail)
    ensures images == (trail + [moved]) + rest && moved == Last(start, trail + [moved])
    ensures |trail| < |images| && At(start, images, |trail|) == dir
  {
  }

  lemma ScanEnds(start: Dir, resume: Option<int>, entries: seq<Entry>, dir: Dir, trail: seq<Dir>)
    requires ScanState(start, resume, |start.parts|, entries, dir, trail)
    ensures trail == QuarantineImages(start, 0, resume)
    ensures entries == Entries(Kept(start.parts, resume))
    ensures dir == start.(parts := Kept(start.parts, resume),
                          quarantine := start.quarantine + Removed(start.parts, resume))
  {
    assert start.parts[..|start.parts|] == start.parts;
    assert Kept(start.parts, resume) + [] == Kept(start.parts, resume);
    assert trail + [] == trail;
  }

  lemma UniquePrefix(a: seq<Row>, b: seq<Row>)
    requires UniqueKeys(a + b)
    ensures UniqueKeys(a)
  {
    UniqueSplit(a, b);
  }

  lemma PrefixOfPart(parts: seq<Part>, i: nat, prefix: seq<Row>) returns (rest: seq<Row>)
    requires i < |parts| && prefix <= parts[i].rows
    ensures RowsOf(parts[..i + 1]) == (RowsOf(parts[..i]) + prefix) + rest
  {
    rest := parts[i].rows[|prefix|..];
    assert parts[i].rows == prefix + rest;
    assert parts[..i + 1][..i] == parts[..i];
  }

  /** A duplicate in a prefix of the rows is a duplicate of the whole. */
  lemma DuplicateStays(parts: seq<Part>, i: nat, prefix: seq<Row>)
    requires i < |parts| && prefix <= parts[i].rows
    requires !UniqueKeys(RowsOf(parts[..i]) + prefix)
    ensures !UniqueKeys(RowsOf(parts))
  {
    if UniqueKeys(RowsOf(parts)) {
      RowsPrefix(parts, i + 1);
      UniquePrefix(RowsOf(parts[..i + 1]), RowsOf(parts[i + 1..]));
      var rest := PrefixOfPart(parts, i, prefix);
      UniquePrefix(RowsOf(parts[..i]) + prefix, rest);
    }
  }

  lemma RowsPrefix(parts: seq<Part>, i: nat)
    requires i <= |parts|
    ensures RowsOf(parts) == RowsOf(parts[..i]) + RowsOf(parts[i..])
  {
    var a, b := parts[..i], parts[i..];
    assert parts == a + b;
    RowsConcat(a, b);
  }
}
