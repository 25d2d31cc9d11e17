/** The metrics driver as an object (latent_grpo_runner/metrics/integration.py:47-442): it owns one writer
    per table and the running optimizer step, and every call does on disk what RunModel says it does. */
module Observer {
  import opened Options
  import opened PartLog
  import opened OutputDisk
  import opened PartWriter
  import opened RunModel
  import opened RunSteps
  import opened StartLaws
  import opened EmitLaws
  import opened PartLogLaws
  import RunTheorems

  datatype Error = NotUsable | ConflictingResume | IncompatibleCheckpoint | InvalidEvent | WriterFailed(failure: Failure)

  type Writers = map<Table, AppendOnlyPartWriter>

  /** The memory of a set of writers. */
  ghost function MemsOf(writers: Writers): map<Table, Mem>
    reads writers.Values
  {
    map t | t in writers :: writers[t].Memory()
  }

  lemma MemsUpdate(writers: Writers, t: Table, writer: AppendOnlyPartWriter)
    ensures MemsOf(writers[t := writer]) == MemsOf(writers)[t := writer.Memory()]
  {
  }

  /** Every writer works on its own table of the same output root, and holds that table's lock. */
  ghost predicate WritersOf(writers: Writers, disk: OutputRoot)
    reads writers.Values, disk
  {
    forall t | t in writers ::
      writers[t].table == t && writers[t].disk == disk && writers[t].schema == SchemaOf(t)
      && writers[t].holdsLock && t in disk.locks
  }

  /** The first i tables, and no others of the list. */
  predicate AreFirst(keys: set<Table>, tables: seq<Table>, i: nat) {
    forall j | 0 <= j < |tables| :: tables[j] in keys <==> j < i
  }

  lemma FirstGrow(keys: set<Table>, tables: seq<Table>, i: nat, keys': set<Table>, next: nat)
    requires AreFirst(keys, tables, i) && i < |tables| && next == i + 1 && keys' == keys + {tables[i]}
    requires forall i, j | 0 <= i < j < |tables| :: tables[i] != tables[j]
    ensures AreFirst(keys', tables, next)
  {
  }

  /** These writers are open, and nobody else but `held` holds a lock. */
  ghost predicate Owning(writers: Writers, disk: OutputRoot, held: set<Table>)
    reads writers.Values, disk
  {
    WritersOf(writers, disk) && disk.locks == held + writers.Keys && held !! writers.Keys
  }

  lemma OwningOneMore(writers: Writers, disk: OutputRoot, held: set<Table>, t: Table, writer: AppendOnlyPartWriter)
    requires WritersOf(writers, disk) && held !! writers.Keys && t !in held && t !in writers
    requires disk.locks == held + writers.Keys + {t}
    requires writer.table == t && writer.disk == disk && writer.schema == SchemaOf(t) && writer.holdsLock
    ensures Owning(writers[t := writer], disk, held)
    ensures MemsOf(writers[t := writer]) == MemsOf(writers)[t := writer.Memory()]
  {
    MemsUpdate(writers, t, writer);
  }

  // ----- opening all tables -----

  /** The first i tables have been opened; `trail` holds the images left so far. */
  ghost predicate OpenProgress(root0: Root, tables: seq<Table>, requested: set<Table>, live: Live, resume: Option<int>,
                               i: nat, trail: seq<Root>, root: Root, mems: map<Table, Mem>)
    requires HasAllTables(root0)
  {
    && i <= |tables| && HasAllTables(root)
    && OpenAll(root0, tables, requested, live, resume)
       == Prepend(trail, OpenAll(root, tables[i..], requested, live.(mems := mems), resume))
  }

  /** What remains after opening one table: nothing if it is refused. */
  ghost function AfterOne(root: Root, t: Table, tables: seq<Table>, requested: set<Table>, live: Live, resume: Option<int>): Run
    requires HasAllTables(root)
  {
    match OpenOutcome(root.tables[t], SchemaOf(t), resume)
    case Refused(_) => Run([], None)
    case Opened(mem) =>
      OpenAll(WithDir(root, t, Last(root.tables[t], OpenImages(root.tables[t], SchemaOf(t), resume))),
              tables, requested, live.(mems := live.mems[t := mem]), resume)
  }

  /** The images of opening one table. */
  ghost function OneOpening(root: Root, t: Table, resume: Option<int>): seq<Root>
    requires HasAllTables(root)
  {
    Lift(root, t, OpenImages(root.tables[t], SchemaOf(t), resume))
  }

  lemma OpenHead(root: Root, tables: seq<Table>, requested: set<Table>, live: Live, resume: Option<int>)
    requires HasAllTables(root) && tables != [] && tables[0] in requested
    ensures OpenAll(root, tables, requested, live, resume)
            == Prepend(OneOpening(root, tables[0], resume), AfterOne(root, tables[0], tables[1..], requested, live, resume))
  {
    var images := OneOpening(root, tables[0], resume);
    assert images + [] == images;
  }

  /** A table the sidecar does not list ends the opening. */
  lemma OpenStops(root0: Root, tables: seq<Table>, requested: set<Table>, live: Live, resume: Option<int>,
                  i: nat, trail: seq<Root>, root: Root, mems: map<Table, Mem>)
    requires HasAllTables(root0) && OpenProgress(root0, tables, requested, live, resume, i, trail, root, mems)
    requires i < |tables| && tables[i] !in requested
    ensures OpenAll(root0, tables, requested, live, resume) == Run(trail, None)
  {
    assert tables[i..][0] == tables[i];
    assert trail + [] == trail;
  }

  /** Opening the next table, and what remains after it. */
  lemma OpenNext(root0: Root, tables: seq<Table>, requested: set<Table>, live: Live, resume: Option<int>,
                 i: nat, trail: seq<Root>, root: Root, mems: map<Table, Mem>)
    requires HasAllTables(root0) && OpenProgress(root0, tables, requested, live, resume, i, trail, root, mems)
    requires i < |tables| && tables[i] in requested
    ensures var t := tables[i];
            OpenAll(root0, tables, requested, live, resume)
            == Prepend(trail + OneOpening(root, t, resume),
                       AfterOne(root, t, tables[i + 1..], requested, live.(mems := mems), resume))
  {
    var t := tables[i];
    assert tables[i..][0] == t && tables[i..][1..] == tables[i + 1..];
    OpenHead(root, tables[i..], requested, live.(mems := mems), resume);
    PrependTwice(trail, OneOpening(root, t, resume), AfterOne(root, t, tables[i + 1..], requested, live.(mems := mems), resume));
  }

  lemma PrependTwice(first: seq<Root>, second: seq<Root>, run: Run)
    ensures Prepend(first, Prepend(second, run)) == Prepend(first + second, run)
  {
    assert first + (second + run.images) == (first + second) + run.images;
  }

  /** An opened table takes the progress one table further. */
  lemma OpenGoesOn(root0: Root, tables: seq<Table>, requested: set<Table>, live: Live, resume: Option<int>,
                   i: nat, trail: seq<Root>, root: Root, mems: map<Table, Mem>, root': Root, mems': map<Table, Mem>,
                   next: nat, trail': seq<Root>)
    requires HasAllTables(root0) && HasAllTables(root) && i < |tables|
    requires next == i + 1 && trail' == trail + OneOpening(root, tables[i], resume)
    requires var t := tables[i];
             && OpenAll(root0, tables, requested, live, resume)
                == Prepend(trail + OneOpening(root, t, resume),
                           AfterOne(root, t, tables[i + 1..], requested, live.(mems := mems), resume))
             && OpenOutcome(root.tables[t], SchemaOf(t), resume).Opened?
             && mems' == mems[t := OpenOutcome(root.tables[t], SchemaOf(t), resume).mem]
             && root' == Last(root, OneOpening(root, t, resume))
    ensures OpenProgress(root0, tables, requested, live, resume, next, trail', root', mems')
  {
    var t := tables[i];
    LiftAt(root, t, OpenImages(root.tables[t], SchemaOf(t), resume), 0);
  }

  lemma StartProgress(root0: Root, tables: seq<Table>, requested: set<Table>, live: Live, resume: Option<int>)
    requires HasAllTables(root0) && live.mems == map[]
    ensures OpenProgress(root0, tables, requested, live, resume, 0, [], root0, map[])
  {
    var run := OpenAll(root0, tables, requested, live, resume);
    assert tables[0..] == tables && live.(mems := map[]) == live;
    assert [] + run.images == run.images;
  }

  lemma EndProgress(root0: Root, tables: seq<Table>, requested: set<Table>, live: Live, resume: Option<int>,
                    trail: seq<Root>, root: Root, mems: map<Table, Mem>)
    requires HasAllTables(root0) && OpenProgress(root0, tables, requested, live, resume, |tables|, trail, root, mems)
    ensures OpenAll(root0, tables, requested, live, resume) == Run(trail, Some(live.(mems := mems)))
  {
    assert tables[|tables|..] == [];
    assert trail + [] == trail;
  }

  /** An opening that succeeds, with its images on disk. */
  lemma SucceededOpening(root0: Root, tables: seq<Table>, free: set<Table>, live: Live, resume: Option<int>,
                         i: nat, trail: seq<Root>, root: Root, mems: map<Table, Mem>,
                         fuel: nat, left: nat, after: Root, left': nat, mems': map<Table, Mem>, next: nat, trail': seq<Root>)
    requires HasAllTables(root0) && OpenProgress(root0, tables, free, live, resume, i, trail, root, mems) && i < |tables|
    requires Ran(root0, fuel, trail, root, left, false) && tables[i] in free && next == i + 1
    requires Ran(root, left, OneOpening(root, tables[i], resume), after, left', false)
    requires OpenOutcome(root.tables[tables[i]], SchemaOf(tables[i]), resume).Opened?
    requires mems' == mems[tables[i] := OpenOutcome(root.tables[tables[i]], SchemaOf(tables[i]), resume).mem]
    requires trail' == trail + OneOpening(root, tables[i], resume)
    ensures OpenProgress(root0, tables, free, live, resume, next, trail', after, mems')
    ensures Ran(root0, fuel, trail', after, left', false)
  {
    OpenNext(root0, tables, free, live, resume, i, trail, root, mems);
    RanThen(root0, fuel, trail, root, left, OneOpening(root, tables[i], resume), after, left', false);
    OpenGoesOn(root0, tables, free, live, resume, i, trail, root, mems, after, mems', next, trail');
  }

  /** An opening that fails is the last one: nothing is done for a table that is not available, and nothing remains
      to be done after a table that is refused, or after the process has died. */
  lemma FailedOpening(root0: Root, tables: seq<Table>, free: set<Table>, live: Live, resume: Option<int>,
                      i: nat, trail: seq<Root>, root: Root, mems: map<Table, Mem>,
                      fuel: nat, left: nat, after: Root, left': nat, crashed: bool)
    requires HasAllTables(root0) && OpenProgress(root0, tables, free, live, resume, i, trail, root, mems) && i < |tables|
    requires Ran(root0, fuel, trail, root, left, false)
    requires tables[i] !in free ==> after == root && left' == left && !crashed
    requires tables[i] in free ==> Ran(root, left, OneOpening(root, tables[i], resume), after, left', crashed)
    requires tables[i] in free && !crashed ==> OpenOutcome(root.tables[tables[i]], SchemaOf(tables[i]), resume).Refused?
    ensures Ran(root0, fuel, OpenAll(root0, tables, free, live, resume).images, after, left', crashed)
    ensures !crashed ==> OpenAll(root0, tables, free, live, resume).live.None?
  {
    if tables[i] !in free {
      OpenStops(root0, tables, free, live, resume, i, trail, root, mems);
    } else {
      OpenNext(root0, tables, free, live, resume, i, trail, root, mems);
      var images := OneOpening(root, tables[i], resume);
      var rest := AfterOne(root, tables[i], tables[i + 1..], free, live.(mems := mems), resume).images;
      RanThen(root0, fuel, trail, root, left, images, after, left', crashed);
      if crashed {
        RanDead(root0, fuel, trail + images, rest, after, left');
      } else {
        assert (trail + images) + rest == trail + images;
      }
    }
  }

  /** The appends of one support or probe event. */
  function MetricOps(rowsTable: Table, benchmarkTable: Table, step: int, rows: seq<Row>, benchmark: Row): seq<Op> {
    (if rows == [] then [] else [BatchOp(rowsTable, step, rows)]) + [BatchOp(benchmarkTable, step, [benchmark])]
  }

  lemma LastOp(plan: Plan, root: Root, live: Live, n: nat, nonce: nat)
    requires n + 1 == |plan.ops| && HasAllTables(root) && Complete(live)
    ensures var op, uuid := plan.ops[n], (nonce, n);
            OpsRun(plan, root, live, n, nonce)
            == if OpError(plan.config, live, op).Some? then Run([], None)
               else Run(OpImages(plan.config, root, live, op, uuid), Some(OpLive(plan.config, live, op, uuid)))
  {
    var images := OpImages(plan.config, root, live, plan.ops[n], (nonce, n));
    assert images + [] == images;
  }

  ghost function AfterFirst(plan: Plan, root: Root, live: Live, nonce: nat): Run
    requires |plan.ops| == 2 && HasAllTables(root) && Complete(live)
  {
    var op, uuid := plan.ops[0], (nonce, 0);
    OpKeepsTables(plan.config, root, live, op, uuid);
    OpsRun(plan, Last(root, OpImages(plan.config, root, live, op, uuid)), OpLive(plan.config, live, op, uuid), 1, nonce)
  }

  lemma FirstOp(plan: Plan, root: Root, live: Live, nonce: nat)
    requires |plan.ops| == 2 && HasAllTables(root) && Complete(live)
    ensures OpsRun(plan, root, live, 0, nonce)
            == if OpError(plan.config, live, plan.ops[0]).Some? then Run([], None)
               else Prepend(OpImages(plan.config, root, live, plan.ops[0], (nonce, 0)), AfterFirst(plan, root, live, nonce))
  {
  }

  /** First the rows, if there are any, and then the benchmark row. */
  ghost predicate RowsThenBenchmark(root: Root, x: Root, mems: map<Table, Mem>, mems': map<Table, Mem>, rowsTable: Table,
                                    benchmarkTable: Table, rows: seq<Row>, benchmark: Row, nonce: nat)
  {
    if rows == [] then TableGrew(root, x, mems, mems', benchmarkTable, [benchmark], (nonce, 0))
    else
      exists middle, between ::
        && TableGrew(root, middle, mems, between, rowsTable, rows, (nonce, 0))
        && TableGrew(middle, x, between, mems', benchmarkTable, [benchmark], (nonce, 1))
  }

  lemma MetricRowsMean(plan: Plan, root: Root, live: Live, rowsTable: Table, benchmarkTable: Table, step: int, rows: seq<Row>,
                       benchmark: Row, nonce: nat)
    requires HasAllTables(root) && Complete(live) && plan.ops == MetricOps(rowsTable, benchmarkTable, step, rows, benchmark)
    ensures var run := OpsRun(plan, root, live, 0, nonce);
            run.live.Some? ==>
              RowsThenBenchmark(root, Last(root, run.images), live.mems, run.live.value.mems, rowsTable, benchmarkTable, rows,
                                benchmark, nonce)
  {
    if rows == [] {
      LastOp(plan, root, live, 0, nonce);
      BatchMeans(plan.config, root, live, plan.ops[0], (nonce, 0));
    } else {
      FirstOp(plan, root, live, nonce);
      BatchMeans(plan.config, root, live, plan.ops[0], (nonce, 0));
      OpKeepsTables(plan.config, root, live, plan.ops[0], (nonce, 0));
      var images := OpImages(plan.config, root, live, plan.ops[0], (nonce, 0));
      var middle, between := Last(root, images), OpLive(plan.config, live, plan.ops[0], (nonce, 0));
      LastOp(plan, middle, between, 1, nonce);
      BatchMeans(plan.config, middle, between, plan.ops[1], (nonce, 1));
      AtConcat(root, images, OpsRun(plan, middle, between, 1, nonce).images, 0);
    }
  }

  lemma RanToEnd(root: Root, images: seq<Root>, fuel: nat, x: Root)
    requires x == At(root, images, fuel) && fuel >= |images|
    ensures x == Last(root, images)
  {
  }

  /** The tables a start can open: those asked for whose lock is free.  Only a fresh start looks at the rank of the
      process; a resume opens its writers with the default rank (latent_grpo_runner/checkpointing.py:79). */
  function Available(requested: set<Table>, held: set<Table>, writerRank: int, resume: Option<int>): set<Table> {
    if resume.None? && writerRank != 0 then {} else requested - held
  }

  /** What starting does while some locks are held by others: it opens table by table until one is not available. */
  function StartAmong(config: Config, root: Root, resume: Option<int>, held: set<Table>, writerRank: int): Run
    requires HasAllTables(root)
  {
    match Admit(config, root, resume)
    case Denied => Run([], None)
    case Admitted(requested, step) =>
      OpenAll(root, WRITER_TABLES, Available(requested, held, writerRank, resume), Live(map[], step, resume), resume)
  }

  /** Alone, and with rank 0, it is the start of a session. */
  lemma StartAlone(config: Config, root: Root, resume: Option<int>)
    requires HasAllTables(root)
    ensures StartAmong(config, root, resume, {}, 0) == RunModel.StartRun(config, root, resume)
  {
    match Admit(config, root, resume)
    case Denied =>
    case Admitted(requested, step) => assert requested - {} == requested;
  }

  /** A sidecar of step s that a resume accepts. */
  predicate Compatible(config: Config, root: Root, s: int) {
    s >= 1 && s in root.sidecars && root.sidecars[s].configHash == config.hash && root.sidecars[s].optimizerStep >= 0
  }

  /** A start can succeed: a fresh one on rank 0; a resume from a compatible sidecar that lists every table; and in both
      cases no lock is held elsewhere and every table can be opened. */
  ghost predicate CanStart(config: Config, root: Root, resume: Option<int>, held: set<Table>, writerRank: int)
    requires HasAllTables(root)
  {
    && (match resume
        case None => writerRank == 0
        case Some(s) => Compatible(config, root, s) && forall t: Table :: t in root.sidecars[s].partCounts)
    && (forall t: Table :: t !in held)
    && forall t: Table :: Openable(root.tables[t], SchemaOf(t), resume)
  }

  /** What a start leaves behind: every table opened, sidecars and tracker untouched, and the optimizer step of the
      sidecar, or 0. */
  ghost predicate StartedFrom(root: Root, x: Root, resume: Option<int>, live: Live)
    requires HasAllTables(root)
  {
    && AllOpened(root, x, resume, live)
    && (match resume
        case None => live.optimizerStep == 0
        case Some(s) => s in root.sidecars && live.optimizerStep == root.sidecars[s].optimizerStep)
  }

  lemma StartMeans(config: Config, root: Root, resume: Option<int>, held: set<Table>, writerRank: int)
    requires HasAllTables(root)
    ensures var run := StartAmong(config, root, resume, held, writerRank);
            && (run.live.Some? <==> CanStart(config, root, resume, held, writerRank))
            && (run.live.Some? ==> StartedFrom(root, Last(root, run.images), resume, run.live.value))
    ensures resume.Some? && !Compatible(config, root, resume.value) ==>
              StartAmong(config, root, resume, held, writerRank) == Run([], None)
  {
    match Admit(config, root, resume)
    case Denied =>
    case Admitted(requested, step) =>
      var run := StartAmong(config, root, resume, held, writerRank);
      OpenEveryMeans(root, Available(requested, held, writerRank, resume), Live(map[], step, resume), resume, run);
      AvailableMeans(config, root, resume, held, writerRank, requested);
  }

  lemma AvailableMeans(config: Config, root: Root, resume: Option<int>, held: set<Table>, writerRank: int, requested: set<Table>)
    requires HasAllTables(root)
    requires Admit(config, root, resume).Admitted? && Admit(config, root, resume).requested == requested
    ensures EveryOpenable(root, Available(requested, held, writerRank, resume), resume)
            <==> CanStart(config, root, resume, held, writerRank)
  {
    AllListed();
    var free := Available(requested, held, writerRank, resume);
    if CanStart(config, root, resume, held, writerRank) {
      forall t: Table
        ensures t in free && Openable(root.tables[t], SchemaOf(t), resume)
      {
        assert t !in held && t in requested;
      }
    }
    if EveryOpenable(root, free, resume) {
      assert TrainStep in free;
      forall t: Table
        ensures t in requested && t !in held && Openable(root.tables[t], SchemaOf(t), resume)
      {
        assert t in free;
      }
    }
  }

  class DurableMetricsObserver {
    const disk: OutputRoot
    const config: Config
    const writerRank: int
    var writers: Writers
    var started: bool
    var closed: bool
    var isResumeRun: bool
    var resumeFromStep: Option<int>
    var optimizerStep: int

    constructor (disk: OutputRoot, config: Config, writerRank: int)
      ensures this.disk == disk && this.config == config && this.writerRank == writerRank
      ensures !started && !closed && !isResumeRun && resumeFromStep == None && optimizerStep == 0 && writers == map[]
    {
      this.disk, this.config, this.writerRank := disk, config, writerRank;
      writers, started, closed, isResumeRun, resumeFromStep, optimizerStep := map[], false, false, false, None, 0;
    }

    /** A started observer: one writer for every table. */
    ghost predicate Ready()
      reads this, writers.Values, disk
    {
      && started && !closed && !disk.crashed && HasAllTables(disk.image)
      && (forall t: Table :: t in writers)
      && WritersOf(writers, disk)
    }

    ghost function Memory(): Live
      reads this, writers.Values
    {
      Live(MemsOf(writers), optimizerStep, resumeFromStep)
    }

    /** A new writer; a fresh one looks at the rank. */
    method OpenWriter(t: Table, resume: Option<int>, ghost available: bool)
      returns (failure: Option<Failure>, writer: AppendOnlyPartWriter)
      requires HasAllTables(disk.image) && !disk.crashed
      requires available <==> t !in disk.locks && (writerRank == 0 || resume.Some?)
      modifies disk
      ensures fresh(writer) && writer.disk == disk && writer.table == t && writer.schema == SchemaOf(t)
      ensures !available ==> failure == Some(WriterAuthority) && unchanged(disk)
      ensures available ==>
                && Ran(old(disk.image), old(disk.fuel), OneOpening(old(disk.image), t, resume), disk.image, disk.fuel, disk.crashed)
                && (disk.crashed ==> failure.Some?)
      ensures available && !disk.crashed ==>
                match OpenOutcome(old(disk.image).tables[t], SchemaOf(t), resume)
                case Opened(mem) =>
                  failure == None && writer.Memory() == mem && writer.holdsLock && disk.locks == old(disk.locks) + {t}
                case Refused(_) => failure.Some? && disk.locks == old(disk.locks)
    {
      writer := new AppendOnlyPartWriter(disk, t, SchemaOf(t));
      failure := writer.Open(if resume.None? then writerRank else 0, resume);
    }

    /** Open one more writer, which fails without touching anything when the table is not available. */
    method OpenOne(t: Table, resume: Option<int>, owned: Writers, ghost held: set<Table>, ghost available: bool)
      returns (failure: Option<Failure>, all: Writers)
      requires HasAllTables(disk.image) && !disk.crashed && t !in owned
      requires Owning(owned, disk, held)
      requires available <==> t !in held && (writerRank == 0 || resume.Some?)
      modifies disk
      ensures !available ==> failure == Some(WriterAuthority) && unchanged(disk)
      ensures available ==>
                && Ran(old(disk.image), old(disk.fuel), OneOpening(old(disk.image), t, resume), disk.image, disk.fuel, disk.crashed)
                && (disk.crashed ==> failure.Some?)
                && (!disk.crashed ==> (failure == None <==> OpenOutcome(old(disk.image).tables[t], SchemaOf(t), resume).Opened?))
      ensures failure.Some? && !disk.crashed ==> Owning(owned, disk, held)
      ensures failure == None ==>
                && Owning(all, disk, held) && all.Keys == owned.Keys + {t}
                && (forall writer | writer in all.Values :: writer in owned.Values || fresh(writer))
                && MemsOf(all) == old(MemsOf(owned))[t := OpenOutcome(old(disk.image).tables[t], SchemaOf(t), resume).mem]
    {
      var writer;
      failure, writer := OpenWriter(t, resume, available);
      all := owned[t := writer];
      assert forall u | u in owned :: owned[u] != writer && owned[u].Memory() == old(owned[u].Memory());
      assert MemsOf(owned) == old(MemsOf(owned));
      if failure == None {
        OwningOneMore(owned, disk, held, t, writer);
      }
    }

    /** Open the next table; if that fails, close those already open. */
    method OpenOrClose(t: Table, resume: Option<int>, owned: Writers, ghost held: set<Table>, ghost available: bool)
      returns (failure: Option<Failure>, all: Writers)
      requires HasAllTables(disk.image) && !disk.crashed && t !in owned
      requires Owning(owned, disk, held)
      requires available <==> t !in held && (writerRank == 0 || resume.Some?)
      modifies disk, owned.Values
      ensures !available ==>
                failure.Some? && disk.image == old(disk.image) && disk.fuel == old(disk.fuel) && !disk.crashed
      ensures available ==>
                && Ran(old(disk.image), old(disk.fuel), OneOpening(old(disk.image), t, resume), disk.image, disk.fuel, disk.crashed)
                && (disk.crashed ==> failure.Some?)
                && (!disk.crashed ==> (failure == None <==> OpenOutcome(old(disk.image).tables[t], SchemaOf(t), resume).Opened?))
      ensures failure.Some? && !disk.crashed ==> disk.locks == held
      ensures failure == None ==>
                && Owning(all, disk, held) && all.Keys == owned.Keys + {t}
                && (forall writer | writer in all.Values :: writer in owned.Values || fresh(writer))
                && MemsOf(all) == old(MemsOf(owned))[t := OpenOutcome(old(disk.image).tables[t], SchemaOf(t), resume).mem]
    {
      failure, all := OpenOne(t, resume, owned, held, available);
      if failure.Some? && !disk.crashed {
        CloseAll(owned);
      }
    }

    /** Open the writers of the given tables in order; if one fails, close those already open. */
    method OpenWriters(tables: seq<Table>, requested: set<Table>, resume: Option<int>, ghost live: Live,
                       ghost held: set<Table>, ghost free: set<Table>)
      returns (error: Option<Error>, owned: Writers)
      requires HasAllTables(disk.image) && !disk.crashed && live.mems == map[]
      requires forall i, j | 0 <= i < j < |tables| :: tables[i] != tables[j]
      requires disk.locks == held && free == Available(requested, held, writerRank, resume)
      modifies disk
      ensures Ran(old(disk.image), old(disk.fuel), OpenAll(old(disk.image), tables, free, live, resume).images,
                  disk.image, disk.fuel, disk.crashed)
      ensures !disk.crashed ==> (error == None <==> OpenAll(old(disk.image), tables, free, live, resume).live.Some?)
      ensures error == None ==>
                && !disk.crashed && HasAllTables(disk.image)
                && OpenAll(old(disk.image), tables, free, live, resume).live == Some(live.(mems := MemsOf(owned)))
                && fresh(owned.Values) && WritersOf(owned, disk) && forall t | t in tables :: t in owned
      ensures error.Some? && !disk.crashed ==> disk.locks == held
    {
      ghost var root0, fuel := disk.image, disk.fuel;
      ghost var trail: seq<Root> := [];
      owned := map[];
      RanNothing(root0, fuel);
      StartProgress(root0, tables, free, live, resume);
      var i := 0;
      while i < |tables|
        invariant i <= |tables|
        invariant !disk.crashed && Ran(root0, fuel, trail, disk.image, disk.fuel, false)
        invariant fresh(owned.Values) && Owning(owned, disk, held)
        invariant AreFirst(owned.Keys, tables, i)
        invariant OpenProgress(root0, tables, free, live, resume, i, trail, disk.image, MemsOf(owned))
      {
        ghost var root, left, mems := disk.image, disk.fuel, MemsOf(owned);
        var t, next := tables[i], i + 1;
        if t !in requested {
          OpenStops(root0, tables, free, live, resume, i, trail, root, mems);
          CloseAll(owned);
          return Some(IncompatibleCheckpoint), map[];
        }
        ghost var images := OneOpening(root, t, resume);
        var failure, all := OpenOrClose(t, resume, owned, held, t in free);
        if failure.Some? {
          FailedOpening(root0, tables, free, live, resume, i, trail, root, mems, fuel, left, disk.image, disk.fuel, disk.crashed);
          return Some(WriterFailed(failure.value)), map[];
        }
        FirstGrow(owned.Keys, tables, i, all.Keys, next);
        ghost var trail' := trail + images;
        SucceededOpening(root0, tables, free, live, resume, i, trail, root, mems, fuel, left, disk.image, disk.fuel,
                         MemsOf(all), next, trail');
        owned, trail, i := all, trail', next;
      }
      EndProgress(root0, tables, free, live, resume, trail, disk.image, MemsOf(owned));
      return None, owned;
    }

    /** Give the locks of these writers back. */
    method CloseAll(owned: Writers)
      requires WritersOf(owned, disk)
      modifies disk, owned.Values
      ensures disk.locks == old(disk.locks) - owned.Keys
      ensures disk.image == old(disk.image) && disk.fuel == old(disk.fuel) && disk.crashed == old(disk.crashed)
    {
      for i := 0 to |WRITER_TABLES|
        invariant forall t | t in owned :: owned[t].table == t && owned[t].disk == disk
        invariant forall t | t in owned :: owned[t].holdsLock <==> t in disk.locks
        invariant disk.locks == old(disk.locks) - (set t | t in WRITER_TABLES[..i] && t in owned)
        invariant disk.image == old(disk.image) && disk.fuel == old(disk.fuel) && disk.crashed == old(disk.crashed)
      {
        var t := WRITER_TABLES[i];
        if t in owned {
          owned[t].Close();
        }
      }
      forall t: Table
        ensures t in WRITER_TABLES[..|WRITER_TABLES|]
      {
        assert WRITER_TABLES[..|WRITER_TABLES|] == WRITER_TABLES;
        RunTheorems.EveryTableListed(t);
      }
    }

    /** Open the writers of all tables. */
    method OpenEvery(requested: set<Table>, resume: Option<int>, ghost live: Live, ghost held: set<Table>, ghost free: set<Table>)
      returns (error: Option<Error>, owned: Writers)
      requires HasAllTables(disk.image) && !disk.crashed && live.mems == map[]
      requires disk.locks == held && free == Available(requested, held, writerRank, resume)
      modifies disk
      ensures Ran(old(disk.image), old(disk.fuel), OpenAll(old(disk.image), WRITER_TABLES, free, live, resume).images,
                  disk.image, disk.fuel, disk.crashed)
      ensures !disk.crashed ==>
                (error == None <==> OpenAll(old(disk.image), WRITER_TABLES, free, live, resume).live.Some?)
      ensures error == None ==>
                && !disk.crashed && HasAllTables(disk.image)
                && OpenAll(old(disk.image), WRITER_TABLES, free, live, resume).live == Some(live.(mems := MemsOf(owned)))
                && WritersOf(owned, disk) && forall t: Table :: t in owned
      ensures error.Some? && !disk.crashed ==> disk.locks == held
    {
      error, owned := OpenWriters(WRITER_TABLES, requested, resume, live, held, free);
      forall t: Table
        ensures t in WRITER_TABLES
      {
        RunTheorems.EveryTableListed(t);
      }
    }

    /** Open the only authoritative writers, fresh or from the sidecar of a checkpoint.  Tables whose lock is held
        elsewhere end the start, after the tables before them have been reconciled. */
    method StartRun(resume: Option<int>) returns (error: Option<Error>)
      requires HasAllTables(disk.image) && !disk.crashed
      modifies this, disk
      ensures old(closed) ==> error == Some(NotUsable) && unchanged(this) && unchanged(disk)
      ensures !old(closed) && old(started) ==>
                && unchanged(this) && unchanged(disk)
                && error == if resume == (if isResumeRun then resumeFromStep else None) then None else Some(ConflictingResume)
      ensures !old(closed) && !old(started) ==>
                var run := StartAmong(config, old(disk.image), resume, old(disk.locks), writerRank);
                && Ran(old(disk.image), old(disk.fuel), run.images, disk.image, disk.fuel, disk.crashed)
                && (!disk.crashed ==> (error == None <==> run.live.Some?))
                && (error == None ==> Ready() && run.live == Some(Memory()) && isResumeRun == resume.Some?)
                && (error.Some? ==> !started)
                && (error.Some? && !disk.crashed ==> disk.locks == old(disk.locks))
      ensures !old(closed) && !old(started) && !disk.crashed ==>
                (error == None <==> CanStart(config, old(disk.image), resume, old(disk.locks), writerRank))
      ensures !old(closed) && !old(started) && error == None ==>
                && StartedFrom(old(disk.image), disk.image, resume, Memory())
                && resumeFromStep == resume && isResumeRun == resume.Some?
      ensures !old(closed) && !old(started) && resume.Some? && !Compatible(config, old(disk.image), resume.value) ==>
                error == Some(IncompatibleCheckpoint) && unchanged(this) && unchanged(disk)
    {
      if closed {
        return Some(NotUsable);
      }
      if started {
        return if resume == (if isResumeRun then resumeFromStep else None) then None else Some(ConflictingResume);
      }
      RanNothing(disk.image, disk.fuel);
      StartMeans(config, disk.image, resume, disk.locks, writerRank);
      var admission := Admit(config, disk.image, resume);
      if admission.Denied? {
        return Some(IncompatibleCheckpoint);
      }
      var step := admission.optimizerStep;
      ghost var live, held := Live(map[], step, resume), disk.locks;
      var owned;
      error, owned := OpenEvery(admission.requested, resume, live, held, Available(admission.requested, held, writerRank, resume));
      if error == None {
        Adopt(owned, step, resume);
      }
    }

    method Adopt(owned: Writers, step: int, resume: Option<int>)
      requires WritersOf(owned, disk)
      modifies this
      ensures started && closed == old(closed) && writers == owned && WritersOf(writers, disk)
      ensures isResumeRun == resume.Some?
      ensures Memory() == Live(old(MemsOf(owned)), step, resume)
    {
      writers, started, optimizerStep, isResumeRun, resumeFromStep := owned, true, step, resume.Some?, resume;
      assert forall t | t in owned :: owned[t] as object != this;
      assert forall t | t in owned :: owned[t].Memory() == old(owned[t].Memory());
    }

    /** Append rows with one writer. */
    method AppendRows(writer: AppendOnlyPartWriter, rows: seq<Row>, uuid: Uuid) returns (failure: Option<Failure>)
      requires writer.disk == disk && writer.table in disk.image.tables && !disk.crashed
      modifies writer`manifest, writer`keys, disk`image, disk`fuel, disk`crashed
      ensures AppendError(old(writer.Memory()), rows).Some? ==>
                && failure == Some(Storage(AppendError(old(writer.Memory()), rows).value))
                && unchanged(writer) && unchanged(disk)
      ensures AppendError(old(writer.Memory()), rows) == None ==>
                && Ran(old(disk.image), old(disk.fuel),
                       Lift(old(disk.image), writer.table,
                            AppendImages(old(writer.Dir()), writer.schema, old(writer.Memory()), rows, uuid)),
                       disk.image, disk.fuel, disk.crashed)
                && failure == (if disk.crashed then Some(Died) else None)
                && (!disk.crashed ==> writer.Memory() == AppendedMem(old(writer.Memory()), rows, uuid))
    {
      failure := writer.Append(rows, uuid);
    }

    /** Append one op's rows to its table. */
    method Commit(op: Op, uuid: Uuid) returns (failure: Option<Failure>)
      requires Ready() && !op.CheckpointOp?
      modifies disk, writers.Values
      ensures match OpError(config, old(Memory()), op)
              case Some(e) => failure == Some(Storage(e)) && unchanged(disk) && MemsOf(writers) == old(MemsOf(writers))
              case None =>
                && Ran(old(disk.image), old(disk.fuel), OpImages(config, old(disk.image), old(Memory()), op, uuid),
                       disk.image, disk.fuel, disk.crashed)
                && failure == (if disk.crashed then Some(Died) else None)
                && (!disk.crashed ==>
                      HasAllTables(disk.image)
                      && Memory() == OpLive(config, old(Memory()), op, uuid).(optimizerStep := optimizerStep))
      ensures WritersOf(writers, disk)
    {
      var t := OpTable(op);
      var writer := writers[t];
      ghost var before := Memory();
      failure := AppendRows(writer, OpRows(config, op, optimizerStep, resumeFromStep), uuid);
      assert forall u | u in writers && u != t :: writers[u] != writer;
      assert forall u | u in writers && u != t :: writers[u].Memory() == old(writers[u].Memory());
      MemsOfUpdate(before.mems, writers, t);
    }

    /** One train step: the row carries the running optimizer step after this step's updates, and the running
        step moves only when the row has been appended. */
    method CommitTrainStep(step: int, updates: int, updateAvailable: bool, preBackward: bool, workers: int,
                           payload: int, uuid: Uuid)
      returns (error: Option<Error>)
      requires Ready()
      modifies this`optimizerStep, disk, writers.Values
      ensures step < 1 || !updateAvailable || updates < 0 || (preBackward && updates != 0) || workers < 1 ==>
                error == Some(InvalidEvent) && Memory() == old(Memory()) && unchanged(disk)
      ensures step >= 1 && updateAvailable && updates >= 0 && (preBackward ==> updates == 0) && workers >= 1 ==>
                var op := TrainOp(step, updates, payload);
                match OpError(config, old(Memory()), op)
                case Some(e) => error == Some(WriterFailed(Storage(e))) && Memory() == old(Memory()) && unchanged(disk)
                case None =>
                  && Ran(old(disk.image), old(disk.fuel), OpImages(config, old(disk.image), old(Memory()), op, uuid),
                         disk.image, disk.fuel, disk.crashed)
                  && (!disk.crashed ==> error == None && Ready() && Memory() == OpLive(config, old(Memory()), op, uuid))
      ensures step >= 1 && updateAvailable && updates >= 0 && (preBackward ==> updates == 0) && workers >= 1 && !disk.crashed ==>
                (error == None <==> [config.run, step] !in old(writers[TrainStep].keys))
      ensures error == None && !disk.crashed ==>
                exists row ::
                  && IsTrainRow(row, config.run, step, optimizerStep, resumeFromStep, payload)
                  && TableGrew(old(disk.image), disk.image, old(MemsOf(writers)), MemsOf(writers), TrainStep, [row], uuid)
      ensures !disk.crashed ==> optimizerStep == old(optimizerStep) + if error == None then updates else 0
    {
      if step < 1 || !updateAvailable || updates < 0 || (preBackward && updates != 0) || workers < 1 {
        return Some(InvalidEvent);
      }
      ghost var root, live, op := disk.image, Memory(), TrainOp(step, updates, payload);
      ghost var row := TrainStepMeans(config, root, live, op, uuid);
      error := CommitTrainRow(TrainOp(step, updates, payload), uuid);
      if !disk.crashed && error == None {
        RanToEnd(root, OpImages(config, root, live, op, uuid), old(disk.fuel), disk.image);
        assert MemsOf(writers) == OpLive(config, live, op, uuid).mems && optimizerStep == OpLive(config, live, op, uuid).optimizerStep;
      }
    }

    method CommitTrainRow(op: Op, uuid: Uuid) returns (error: Option<Error>)
      requires Ready() && op.TrainOp?
      modifies this`optimizerStep, disk, writers.Values
      ensures match OpError(config, old(Memory()), op)
              case Some(e) => error == Some(WriterFailed(Storage(e))) && Memory() == old(Memory()) && unchanged(disk)
              case None =>
                && Ran(old(disk.image), old(disk.fuel), OpImages(config, old(disk.image), old(Memory()), op, uuid),
                       disk.image, disk.fuel, disk.crashed)
                && (!disk.crashed ==> error == None && Ready() && Memory() == OpLive(config, old(Memory()), op, uuid))
    {
      var failure := Commit(op, uuid);
      if failure.Some? {
        return Some(WriterFailed(failure.value));
      }
      Advance(op.updates);
      assert Memory() == OpLive(config, old(Memory()), op, uuid);
      return None;
    }

    method Advance(updates: int)
      modifies this`optimizerStep
      ensures Memory() == old(Memory()).(optimizerStep := old(optimizerStep) + updates)
      ensures WritersOf(writers, disk) == old(WritersOf(writers, disk))
    {
      optimizerStep := optimizerStep + updates;
    }

    /** Support or probe rows: the row table first, if there are rows, then the benchmark table.  The two
        appends are separate commits; a failure or a crash can fall between them. */
    method CommitMetricRows(rowsTable: Table, benchmarkTable: Table, step: int, rows: seq<Row>, benchmark: Row, nonce: nat)
      returns (error: Option<Error>)
      requires Ready()
      modifies disk, writers.Values
      ensures var run := OpsRun(Plan(config, MetricOps(rowsTable, benchmarkTable, step, rows, benchmark)),
                                old(disk.image), old(Memory()), 0, nonce);
              && Ran(old(disk.image), old(disk.fuel), run.images, disk.image, disk.fuel, disk.crashed)
              && (!disk.crashed ==> (error == None <==> run.live.Some?))
              && (error == None ==> Ready() && run.live == Some(Memory()))
      ensures error == None && !disk.crashed ==>
                RowsThenBenchmark(old(disk.image), disk.image, old(MemsOf(writers)), MemsOf(writers), rowsTable, benchmarkTable,
                                  rows, benchmark, nonce)
    {
      error := CommitInTurn(rowsTable, benchmarkTable, step, rows, benchmark, nonce);
      if error == None && !disk.crashed {
        ghost var plan := Plan(config, MetricOps(rowsTable, benchmarkTable, step, rows, benchmark));
        MetricRowsMean(plan, old(disk.image), old(Memory()), rowsTable, benchmarkTable, step, rows, benchmark, nonce);
        RanToEnd(old(disk.image), OpsRun(plan, old(disk.image), old(Memory()), 0, nonce).images, old(disk.fuel), disk.image);
      }
    }

    method CommitInTurn(rowsTable: Table, benchmarkTable: Table, step: int, rows: seq<Row>, benchmark: Row, nonce: nat)
      returns (error: Option<Error>)
      requires Ready()
      modifies disk, writers.Values
      ensures var run := OpsRun(Plan(config, MetricOps(rowsTable, benchmarkTable, step, rows, benchmark)),
                                old(disk.image), old(Memory()), 0, nonce);
              && Ran(old(disk.image), old(disk.fuel), run.images, disk.image, disk.fuel, disk.crashed)
              && (!disk.crashed ==> (error == None <==> run.live.Some?))
              && (error == None ==> Ready() && run.live == Some(Memory()))
    {
      ghost var plan := Plan(config, MetricOps(rowsTable, benchmarkTable, step, rows, benchmark));
      ghost var root, fuel, live := disk.image, disk.fuel, Memory();
      RanNothing(root, fuel);
      if rows == [] {
        error := CommitBenchmark(benchmarkTable, step, benchmark, plan, 0, nonce);
        return;
      }
      FirstOp(plan, root, live, nonce);
      var first := Commit(BatchOp(rowsTable, step, rows), (nonce, 0));
      if first.Some? {
        if disk.crashed {
          RanDead(root, fuel, OpImages(config, root, live, plan.ops[0], (nonce, 0)), AfterFirst(plan, root, live, nonce).images,
                  disk.image, disk.fuel);
        }
        return Some(WriterFailed(first.value));
      }
      ghost var root', fuel', live' := disk.image, disk.fuel, Memory();
      error := CommitBenchmark(benchmarkTable, step, benchmark, plan, 1, nonce);
      RanThen(root, fuel, OpImages(config, root, live, plan.ops[0], (nonce, 0)), root', fuel',
              OpsRun(plan, root', live', 1, nonce).images, disk.image, disk.fuel, disk.crashed);
    }

    /** The benchmark row, which comes last. */
    method CommitBenchmark(table: Table, step: int, benchmark: Row, ghost plan: Plan, n: nat, nonce: nat)
      returns (error: Option<Error>)
      requires Ready() && plan.config == config && n + 1 == |plan.ops| && plan.ops[n] == BatchOp(table, step, [benchmark])
      modifies disk, writers.Values
      ensures var run := OpsRun(plan, old(disk.image), old(Memory()), n, nonce);
              && Ran(old(disk.image), old(disk.fuel), run.images, disk.image, disk.fuel, disk.crashed)
              && (!disk.crashed ==> (error == None <==> run.live.Some?))
              && (error == None ==> Ready() && run.live == Some(Memory()))
    {
      RanNothing(disk.image, disk.fuel);
      LastOp(plan, disk.image, Memory(), n, nonce);
      var failure := Commit(BatchOp(table, step, [benchmark]), (nonce, n));
      return if failure.Some? then Some(WriterFailed(failure.value)) else None;
    }

    method BuildSidecar() returns (sidecar: Sidecar)
      requires forall t: Table :: t in writers
      ensures sidecar == SidecarOf(config, Memory())
    {
      sidecar := Sidecar(config.hash, optimizerStep,
                         map t | t in WRITER_TABLES :: writers[t].WriterCheckpoint().partCount);
    }

    /** Write the sidecar of a checkpoint: the running optimizer step and the writers' part counts. */
    method Checkpoint(step: int) returns (error: Option<Error>)
      requires Ready()
      modifies disk`image, disk`fuel, disk`crashed
      ensures step < 1 ==> error == Some(InvalidEvent) && unchanged(disk)
      ensures step >= 1 ==>
                && Ran(old(disk.image), old(disk.fuel),
                       OpImages(config, old(disk.image), Memory(), CheckpointOp(step), (0, 0))[..1],
                       disk.image, disk.fuel, disk.crashed)
                && (!disk.crashed ==> error == None && Ready())
      ensures step >= 1 && !disk.crashed ==> SavedSidecar(config, old(disk.image), disk.image, Memory(), step)
    {
      if step < 1 {
        return Some(InvalidEvent);
      }
      CheckpointMeans(config, disk.image, Memory(), step, (0, 0));
      var sidecar := BuildSidecar();
      disk.Act(disk.image.(sidecars := disk.image.sidecars[step := sidecar]));
      return None;
    }

    /** Give back all locks; a closed observer refuses every further call. */
    method Close()
      requires closed || WritersOf(writers, disk)
      modifies this, disk, writers.Values
      ensures closed && (old(closed) ==> unchanged(disk))
      ensures !old(closed) ==> disk.locks == old(disk.locks - writers.Keys) && writers == map[]
      ensures disk.image == old(disk.image) && disk.fuel == old(disk.fuel) && disk.crashed == old(disk.crashed)
    {
      if !closed {
        CloseAll(writers);
        writers, closed := map[], true;
      }
    }
  }

  /** The trainer publishes the sidecar before it moves its latest-checkpoint tracker, which it empties and then
      writes (verl/trainer/ppo/ray_trainer.py:985-1000). */
  method SaveCheckpoint(observer: DurableMetricsObserver, step: int)
    requires observer.Ready() && step >= 1
    modifies observer.disk`image, observer.disk`fuel, observer.disk`crashed
    ensures var disk := observer.disk;
            Ran(old(disk.image), old(disk.fuel),
                OpImages(observer.config, old(disk.image), old(observer.Memory()), CheckpointOp(step), (0, 0)),
                disk.image, disk.fuel, disk.crashed)
  {
    var disk := observer.disk;
    ghost var root, fuel := disk.image, disk.fuel;
    ghost var images := OpImages(observer.config, root, observer.Memory(), CheckpointOp(step), (0, 0));
    var _ := observer.Checkpoint(step);
    if disk.crashed {
      assert images[..1] + images[1..] == images;
      RanDead(root, fuel, images[..1], images[1..], disk.image, disk.fuel);
    } else {
      ghost var middle, left := disk.image, disk.fuel;
      WriteTracker(disk, step);
      RanThen(root, fuel, images[..1], middle, left, [middle.(latest := Truncated), middle.(latest := Latest(step))],
              disk.image, disk.fuel, disk.crashed);
      assert images[..1] + [middle.(latest := Truncated), middle.(latest := Latest(step))] == images;
    }
  }

  /** Opening the file for writing empties it. */
  method WriteTracker(disk: OutputRoot, step: int)
    requires !disk.crashed
    modifies disk`image, disk`fuel, disk`crashed
    ensures Ran(old(disk.image), old(disk.fuel),
                [old(disk.image).(latest := Truncated), old(disk.image).(latest := Latest(step))],
                disk.image, disk.fuel, disk.crashed)
  {
    disk.Act(disk.image.(latest := Truncated));
    disk.Act(disk.image.(latest := Latest(step)));
  }

  lemma MemsOfUpdate(mems: map<Table, Mem>, writers: Writers, t: Table)
    requires t in writers && mems.Keys == writers.Keys
    requires forall u | u in writers && u != t :: mems[u] == writers[u].Memory()
    ensures MemsOf(writers) == mems[t := writers[t].Memory()]
  {
  }
}
