/** What one observer call does to the output root and to the driver's memory
    (latent_grpo_runner/metrics/integration.py:268-404). */
module EmitLaws {
  import opened Options
  import opened PartLog
  import opened PartLogLaws
  import opened OutputDisk
  import opened RunModel

  /** Rows have been appended to table t, on disk and in memory, and nothing else has changed. */
  ghost predicate TableGrew(root: Root, x: Root, mems: map<Table, Mem>, mems': map<Table, Mem>, t: Table, rows: seq<Row>,
                            uuid: Uuid)
  {
    && HasAllTables(root) && HasAllTables(x) && (forall u: Table :: u in mems && u in mems')
    && x.sidecars == root.sidecars && x.latest == root.latest
    && Published(root.tables[t], x.tables[t], SchemaOf(t), mems[t].entries, mems'[t].entries, rows, uuid)
    && (forall k :: k in mems'[t].keys <==> k in mems[t].keys || exists row | row in rows :: row.key == Some(k))
    && forall u: Table | u != t :: x.tables[u] == root.tables[u] && mems'[u] == mems[u]
  }

  /** The row of a train step: the run and the step as its key, and the optimizer step after the step's updates. */
  ghost predicate IsTrainRow(row: Row, run: int, step: int, optimizerStep: int, resumeMark: Option<int>, payload: int) {
    && row.key == Some([run, step]) && row.step == Some(step) && row.conforms
    && row.optimizerStep == optimizerStep && row.resumeMark == resumeMark && row.payload == payload
  }

  lemma AppendedOp(config: Config, root: Root, live: Live, op: Op, uuid: Uuid, t: Table, rows: seq<Row>)
    requires HasAllTables(root) && Complete(live) && !op.CheckpointOp?
    requires t == OpTable(op) && rows == OpRows(config, op, live.optimizerStep, live.resumeMark)
    ensures Last(root, OpImages(config, root, live, op, uuid))
            == WithDir(root, t, Last(root.tables[t], AppendImages(root.tables[t], SchemaOf(t), live.mems[t], rows, uuid)))
    ensures OpLive(config, live, op, uuid).mems == live.mems[t := AppendedMem(live.mems[t], rows, uuid)]
  {
    LiftAt(root, t, AppendImages(root.tables[t], SchemaOf(t), live.mems[t], rows, uuid), 5);
  }

  lemma OneTableGrew(root: Root, mems: map<Table, Mem>, t: Table, rows: seq<Row>, uuid: Uuid, d: Dir, mem: Mem)
    requires HasAllTables(root) && forall u: Table :: u in mems
    requires Published(root.tables[t], d, SchemaOf(t), mems[t].entries, mem.entries, rows, uuid)
    requires forall k :: k in mem.keys <==> k in mems[t].keys || exists row | row in rows :: row.key == Some(k)
    ensures TableGrew(root, WithDir(root, t, d), mems, mems[t := mem], t, rows, uuid)
  {
  }

  lemma RowsAppended(config: Config, root: Root, live: Live, op: Op, uuid: Uuid, t: Table, rows: seq<Row>)
    requires HasAllTables(root) && Complete(live) && !op.CheckpointOp?
    requires t == OpTable(op) && rows == OpRows(config, op, live.optimizerStep, live.resumeMark)
    ensures TableGrew(root, Last(root, OpImages(config, root, live, op, uuid)), live.mems,
                      OpLive(config, live, op, uuid).mems, t, rows, uuid)
  {
    var d, mem := root.tables[t], live.mems[t];
    AppendedOp(config, root, live, op, uuid, t, rows);
    AppendMeans(d, SchemaOf(t), mem, rows, uuid);
    OneTableGrew(root, live.mems, t, rows, uuid, Last(d, AppendImages(d, SchemaOf(t), mem, rows, uuid)),
                 AppendedMem(mem, rows, uuid));
  }

  /** A train step. */
  lemma TrainStepMeans(config: Config, root: Root, live: Live, op: Op, uuid: Uuid) returns (row: Row)
    requires HasAllTables(root) && Complete(live) && op.TrainOp?
    ensures IsTrainRow(row, config.run, op.step, live.optimizerStep + op.updates, live.resumeMark, op.payload)
    ensures OpError(config, live, op) == None <==> [config.run, op.step] !in live.mems[TrainStep].keys
    ensures TableGrew(root, Last(root, OpImages(config, root, live, op, uuid)), live.mems,
                      OpLive(config, live, op, uuid).mems, TrainStep, [row], uuid)
    ensures OpLive(config, live, op, uuid).optimizerStep == live.optimizerStep + op.updates
  {
    row := TrainRow(config, op.step, live.optimizerStep + op.updates, live.resumeMark, op.payload);
    RowsAppended(config, root, live, op, uuid, TrainStep, [row]);
    RefusalMeans(live.mems[TrainStep], [row]);
    assert [row][0] == row;
  }

  /** A batch of rows. */
  lemma BatchMeans(config: Config, root: Root, live: Live, op: Op, uuid: Uuid)
    requires HasAllTables(root) && Complete(live) && op.BatchOp?
    ensures OpError(config, live, op) == None <==> Acceptable(live.mems[op.table].keys, op.rows)
    ensures TableGrew(root, Last(root, OpImages(config, root, live, op, uuid)), live.mems,
                      OpLive(config, live, op, uuid).mems, op.table, op.rows, uuid)
    ensures OpLive(config, live, op, uuid).optimizerStep == live.optimizerStep
  {
    RowsAppended(config, root, live, op, uuid, op.table, op.rows);
    RefusalMeans(live.mems[op.table], op.rows);
  }

  /** A checkpoint: its sidecar holds the configuration hash, the running optimizer step and the number of parts that each
      writer's manifest lists; then the tracker names it. */
  lemma CheckpointMeans(config: Config, root: Root, live: Live, step: int, uuid: Uuid)
    requires HasAllTables(root) && Complete(live)
    ensures var images := OpImages(config, root, live, CheckpointOp(step), uuid);
            && |images| == 3
            && SavedSidecar(config, root, images[0], live, step)
            && images[1] == images[0].(latest := Truncated) && images[2] == images[0].(latest := Latest(step))
  {
    forall t: Table
      ensures t in WRITER_TABLES
    {
      assert t == WRITER_TABLES[match t case TrainStep => 0 case TrainGroup => 1 case Support => 2 case SupportBenchmark => 3
                                        case Probe => 4 case ProbeBenchmark => 5];
    }
  }

  ghost predicate SavedSidecar(config: Config, root: Root, x: Root, live: Live, step: int)
    requires Complete(live)
  {
    && x.tables == root.tables && x.latest == root.latest
    && step in x.sidecars && (forall s | s != step :: s in x.sidecars <==> s in root.sidecars)
    && (forall s | s in root.sidecars && s != step :: x.sidecars[s] == root.sidecars[s])
    && x.sidecars[step].configHash == config.hash && x.sidecars[step].optimizerStep == live.optimizerStep
    && forall t: Table :: t in x.sidecars[step].partCounts && x.sidecars[step].partCounts[t] == |live.mems[t].entries|
  }
}
