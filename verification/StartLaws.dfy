/** What opening all tables, and so starting a session, comes to (latent_grpo_runner/metrics/integration.py:112-152). */
module StartLaws {
  import opened Options
  import opened PartLog
  import opened PartLogLaws
  import opened OutputDisk
  import opened RunModel

  /** A table can be opened: the schemas on disk agree or are missing, and no key is repeated among the parts that
      belong. */
  ghost predicate Openable(d: Dir, schema: int, resume: Option<int>) {
    && (d.schema.Some? ==> d.schema.value == schema)
    && (d.manifest.Some? ==> d.manifest.value.schema == schema)
    && DistinctAmong(d.parts, resume)
  }

  /** Exactly the parts that belong are listed, without a repeated key; the manifest and the memory say so. */
  ghost predicate OpenedTable(before: Dir, after: Dir, schema: int, resume: Option<int>, mem: Mem) {
    && Reconciled(before, after, resume) && DistinctKeys(after.parts) && Remembers(mem, after.parts)
    && after.schema == Some(schema) && after.manifest == Some(Manifest(schema, mem.entries))
  }

  lemma OpenableOpens(d: Dir, schema: int, resume: Option<int>)
    ensures OpenOutcome(d, schema, resume).Opened? <==> Openable(d, schema, resume)
    ensures OpenOutcome(d, schema, resume).Opened? ==>
              OpenedTable(d, Settled(d, schema, resume), schema, resume, OpenOutcome(d, schema, resume).mem)
  {
    OpenMeans(d, schema, resume);
    DistinctKept(d.parts, resume);
  }

  predicate DistinctTables(tables: seq<Table>) {
    forall i, j | 0 <= i < j < |tables| :: tables[i] != tables[j]
  }

  /** Every table of the list is asked for and can be opened. */
  ghost predicate CanOpen(root: Root, tables: seq<Table>, requested: set<Table>, resume: Option<int>)
    requires HasAllTables(root)
  {
    forall t | t in tables :: t in requested && Openable(root.tables[t], SchemaOf(t), resume)
  }

  /** The tables of the list have been opened, and nothing else has changed. */
  ghost predicate OpenedTables(root: Root, x: Root, tables: seq<Table>, resume: Option<int>, live: Live, live': Live)
    requires HasAllTables(root)
  {
    && HasAllTables(x) && x.sidecars == root.sidecars && x.latest == root.latest
    && live'.optimizerStep == live.optimizerStep && live'.resumeMark == live.resumeMark
    && forall t: Table ::
         if t in tables then t in live'.mems && OpenedTable(root.tables[t], x.tables[t], SchemaOf(t), resume, live'.mems[t])
         else x.tables[t] == root.tables[t] && (t in live.mems ==> t in live'.mems && live'.mems[t] == live.mems[t])
  }

  /** The directory and the memory after opening the first table. */
  lemma FirstOpened(root: Root, t: Table, live: Live, resume: Option<int>) returns (root': Root, live': Live)
    requires HasAllTables(root) && Openable(root.tables[t], SchemaOf(t), resume)
    ensures OpenOutcome(root.tables[t], SchemaOf(t), resume).Opened?
    ensures root' == WithDir(root, t, Last(root.tables[t], OpenImages(root.tables[t], SchemaOf(t), resume)))
    ensures root' == Last(root, Lift(root, t, OpenImages(root.tables[t], SchemaOf(t), resume)))
    ensures live' == live.(mems := live.mems[t := OpenOutcome(root.tables[t], SchemaOf(t), resume).mem])
    ensures HasAllTables(root') && root'.sidecars == root.sidecars && root'.latest == root.latest
    ensures OpenedTable(root.tables[t], root'.tables[t], SchemaOf(t), resume, live'.mems[t])
    ensures forall u: Table | u != t :: root'.tables[u] == root.tables[u]
  {
    var d := root.tables[t];
    OpenableOpens(d, SchemaOf(t), resume);
    CrashedOpenConverges(d, SchemaOf(t), resume, 0);
    LiftAt(root, t, OpenImages(d, SchemaOf(t), resume), 0);
    root' := WithDir(root, t, Last(d, OpenImages(d, SchemaOf(t), resume)));
    live' := live.(mems := live.mems[t := OpenOutcome(d, SchemaOf(t), resume).mem]);
  }

  lemma OpenHeadThenRest(root: Root, tables: seq<Table>, requested: set<Table>, live: Live, resume: Option<int>,
                         root': Root, live': Live, rest: Run)
    requires HasAllTables(root) && tables != [] && tables[0] in requested && HasAllTables(root')
    requires OpenOutcome(root.tables[tables[0]], SchemaOf(tables[0]), resume).Opened?
    requires var t := tables[0];
             var images := OpenImages(root.tables[t], SchemaOf(t), resume);
             && root' == WithDir(root, t, Last(root.tables[t], images)) && root' == Last(root, Lift(root, t, images))
             && live' == live.(mems := live.mems[t := OpenOutcome(root.tables[t], SchemaOf(t), resume).mem])
    requires rest == OpenAll(root', tables[1..], requested, live', resume)
    ensures OpenAll(root, tables, requested, live, resume).live == rest.live
    ensures Last(root, OpenAll(root, tables, requested, live, resume).images) == Last(root', rest.images)
  {
    var t := tables[0];
    AtConcat(root, Lift(root, t, OpenImages(root.tables[t], SchemaOf(t), resume)), rest.images, 0);
  }

  lemma CannotOpenHead(root: Root, tables: seq<Table>, requested: set<Table>, live: Live, resume: Option<int>)
    requires HasAllTables(root) && tables != []
    requires !(tables[0] in requested && Openable(root.tables[tables[0]], SchemaOf(tables[0]), resume))
    ensures OpenAll(root, tables, requested, live, resume).live == None
  {
    OpenableOpens(root.tables[tables[0]], SchemaOf(tables[0]), resume);
  }

  lemma OpenedTablesStep(root: Root, root': Root, x: Root, tables: seq<Table>, resume: Option<int>, live: Live, live': Live,
                         live'': Live, t: Table)
    requires HasAllTables(root) && HasAllTables(root') && tables != [] && DistinctTables(tables) && t == tables[0]
    requires root'.sidecars == root.sidecars && root'.latest == root.latest
    requires t in live'.mems && live' == live.(mems := live.mems[t := live'.mems[t]])
    requires OpenedTable(root.tables[t], root'.tables[t], SchemaOf(t), resume, live'.mems[t])
    requires forall u: Table | u != t :: root'.tables[u] == root.tables[u]
    requires OpenedTables(root', x, tables[1..], resume, live', live'')
    ensures OpenedTables(root, x, tables, resume, live, live'')
  {
    assert tables == [t] + tables[1..];
    assert t !in tables[1..];
  }

  lemma CanOpenStep(root: Root, root': Root, tables: seq<Table>, requested: set<Table>, resume: Option<int>, t: Table)
    requires HasAllTables(root) && HasAllTables(root') && tables != [] && DistinctTables(tables) && t == tables[0]
    requires t in requested && Openable(root.tables[t], SchemaOf(t), resume)
    requires forall u: Table | u != t :: root'.tables[u] == root.tables[u]
    ensures CanOpen(root, tables, requested, resume) <==> CanOpen(root', tables[1..], requested, resume)
  {
    assert tables == [t] + tables[1..];
    assert t !in tables[1..];
  }

  /** Opening a list of tables succeeds if and only if every table is asked for and can be opened. */
  lemma {:induction false} OpenAllMeans(root: Root, tables: seq<Table>, requested: set<Table>, live: Live, resume: Option<int>)
    requires HasAllTables(root) && DistinctTables(tables)
    ensures var run := OpenAll(root, tables, requested, live, resume);
            && (run.live.Some? <==> CanOpen(root, tables, requested, resume))
            && (run.live.Some? ==> OpenedTables(root, Last(root, run.images), tables, resume, live, run.live.value))
    decreases |tables|
  {
    if tables != [] {
      var t := tables[0];
      if t in requested && Openable(root.tables[t], SchemaOf(t), resume) {
        var root', live' := FirstOpened(root, t, live, resume);
        var rest := OpenAll(root', tables[1..], requested, live', resume);
        OpenAllMeans(root', tables[1..], requested, live', resume);
        OpenHeadThenRest(root, tables, requested, live, resume, root', live', rest);
        CanOpenStep(root, root', tables, requested, resume, t);
        if rest.live.Some? {
          OpenedTablesStep(root, root', Last(root', rest.images), tables, resume, live, live', rest.live.value, t);
        }
      } else {
        CannotOpenHead(root, tables, requested, live, resume);
      }
    }
  }

  lemma AllListed()
    ensures DistinctTables(WRITER_TABLES) && forall t: Table :: t in WRITER_TABLES
  {
    forall t: Table
      ensures t in WRITER_TABLES
    {
      assert t == WRITER_TABLES[match t case TrainStep => 0 case TrainGroup => 1 case Support => 2 case SupportBenchmark => 3
                                        case Probe => 4 case ProbeBenchmark => 5];
    }
  }

  /** Every table has been opened, and sidecars and tracker are untouched. */
  ghost predicate AllOpened(root: Root, x: Root, resume: Option<int>, live: Live)
    requires HasAllTables(root)
  {
    && HasAllTables(x) && x.sidecars == root.sidecars && x.latest == root.latest && Complete(live)
    && forall t: Table :: OpenedTable(root.tables[t], x.tables[t], SchemaOf(t), resume, live.mems[t])
  }

  ghost predicate EveryOpenable(root: Root, requested: set<Table>, resume: Option<int>)
    requires HasAllTables(root)
  {
    forall t: Table :: t in requested && Openable(root.tables[t], SchemaOf(t), resume)
  }

  /** Opening the tables of the driver. */
  lemma OpenEveryMeans(root: Root, requested: set<Table>, live: Live, resume: Option<int>, run: Run)
    requires HasAllTables(root) && run == OpenAll(root, WRITER_TABLES, requested, live, resume)
    ensures run.live.Some? <==> EveryOpenable(root, requested, resume)
    ensures run.live.Some? ==>
              && AllOpened(root, Last(root, run.images), resume, run.live.value)
              && run.live.value.optimizerStep == live.optimizerStep
  {
    AllListed();
    OpenAllMeans(root, WRITER_TABLES, requested, live, resume);
  }
}
