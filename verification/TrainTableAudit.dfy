/** The validator accepts what the metrics driver writes, after any crashes and resumes. */
module TrainTableAudit {
  import opened Options
  import opened PartLog
  import opened PartLogLaws
  import opened OutputDisk
  import opened RunModel
  import opened Subsequences
  import opened RunLaws
  import opened RunSteps
  import V = OutputValidator

  /** The key and step columns of a train-step row, for a run given by its profile name and seed. */
  function RecordOf(row: Row, profile: string, seed: int): V.Record {
    map["profile_name" := V.Text(profile), "seed" := V.Int(seed),
        "global_step" := if row.step.Some? then V.Int(row.step.value) else V.Null,
        "optimizer_step" := V.Int(row.optimizerStep)]
  }

  /** The records that a table of rows is read back as. */
  function Rendered(rows: seq<Row>, record: Row -> V.Record): (r: seq<V.Record>)
    ensures |r| == |rows|
    ensures forall i | 0 <= i < |rows| :: r[i] == record(rows[i])
  {
    seq(|rows|, i requires 0 <= i < |rows| => record(rows[i]))
  }

  /** The key columns of the records hold the primary keys of the rows. */
  ghost predicate RendersKeys(record: Row -> V.Record, names: seq<string>, rows: seq<Row>) {
    && (forall row | row in rows && row.key.Some? :: V.KeyOf(record(row), names).Some?)
    && (forall a, b | a in rows && b in rows && V.KeyOf(record(a), names) == V.KeyOf(record(b), names) :: a.key == b.key)
  }

  /** The step column of the records holds the steps of the rows, and all records belong to one run. */
  ghost predicate RendersSteps(record: Row -> V.Record, run: (V.Value, V.Value), rows: seq<Row>) {
    forall row | row in rows ::
      V.RunOf(record(row)) == run && V.StepOf(record(row)) == row.step && "checkpoint_step" !in record(row)
  }

  const SCHEMA := V.TableSchema([V.Field("profile_name", false), V.Field("seed", false),
                                 V.Field("global_step", false), V.Field("optimizer_step", false)], V.STEP_KEY)

  /** Single-row batches of strictly increasing steps. */
  ghost predicate Ascending(batches: seq<Batch>) {
    && (forall b: Batch | b in batches :: |b| == 1 && b[0].step.Some?)
    && forall i, j | 0 <= i < j < |batches| :: batches[i][0].step.value < batches[j][0].step.value
  }

  lemma TrainContribution(plan: Plan, n: nat)
    requires WellFormed(plan) && n < |plan.ops|
    ensures var c := Contribution(plan, n, TrainStep);
            if plan.ops[n].TrainOp? then |c| == 1 && |c[0]| == 1 && c[0][0].step == Some(plan.ops[n].step) else c == []
  {
    assert GoodBatch(plan.ops[n]);
  }

  /** Everything written to the train table before a train op has a smaller step. */
  lemma {:induction false} TrainBatchStep(plan: Plan, n: nat, m: nat, x: Batch)
    requires WellFormed(plan) && n <= m < |plan.ops| && plan.ops[m].TrainOp? && x in Window(plan, 0, n, TrainStep)
    ensures |x| == 1 && x[0].step.Some? && x[0].step.value < plan.ops[m].step
    decreases n
  {
    TrainContribution(plan, n - 1);
    if x in Window(plan, 0, n - 1, TrainStep) {
      TrainBatchStep(plan, n - 1, m, x);
    } else {
      TrainStepsDiffer(plan, n - 1, m);
    }
  }

  lemma AscendingAppend(batches: seq<Batch>, b: Batch)
    requires Ascending(batches) && |b| == 1 && b[0].step.Some?
    requires forall x: Batch | x in batches :: |x| == 1 && x[0].step.Some? && x[0].step.value < b[0].step.value
    ensures Ascending(batches + [b])
  {
  }

  lemma NextTrainBatch(plan: Plan, m: nat)
    requires WellFormed(plan) && m < |plan.ops| && Ascending(Window(plan, 0, m, TrainStep))
    ensures Ascending(Window(plan, 0, m, TrainStep) + Contribution(plan, m, TrainStep))
  {
    var before := Window(plan, 0, m, TrainStep);
    TrainContribution(plan, m);
    var c: seq<Batch> := Contribution(plan, m, TrainStep);
    if plan.ops[m].TrainOp? {
      forall x: Batch | x in before
        ensures |x| == 1 && x[0].step.Some? && x[0].step.value < c[0][0].step.value
      {
        TrainBatchStep(plan, m, m, x);
      }
      AscendingAppend(before, c[0]);
      assert before + c == before + [c[0]];
    } else {
      assert before + c == before;
    }
  }

  /** The train batches of a plan ascend. */
  lemma {:induction false} TrainWindowAscends(plan: Plan, n: nat)
    requires WellFormed(plan) && n <= |plan.ops|
    ensures Ascending(Window(plan, 0, n, TrainStep))
  {
    if n > 0 {
      TrainWindowAscends(plan, n - 1);
      NextTrainBatch(plan, n - 1);
    }
  }

  lemma TrainStepsDiffer(plan: Plan, i: nat, j: nat)
    requires WellFormed(plan) && i < j < |plan.ops| && plan.ops[i].TrainOp? && plan.ops[j].TrainOp?
    ensures plan.ops[i].step < plan.ops[j].step
  {
    var a, b := plan.ops[i], plan.ops[j];
    assert KeysApart(plan.config, a, b);
    var ra, rb := OpRows(plan.config, a, 0, None), OpRows(plan.config, b, 0, None);
    assert ra[0] in ra && rb[0] in rb;
    assert [plan.config.run, a.step] in KeySet(ra) && [plan.config.run, b.step] in KeySet(rb);
    assert [plan.config.run, a.step][1] == a.step && [plan.config.run, b.step][1] == b.step;
  }

  // ----- keys of every table -----

  lemma {:induction false} RowsAreKeyed(parts: seq<Part>)
    requires AllKept(parts, None)
    ensures forall row | row in RowsOf(parts) :: row.key.Some?
  {
    if parts != [] {
      RowsAreKeyed(parts[..|parts| - 1]);
      assert FateOf(parts[|parts| - 1], None) == Keep;
    }
  }

  lemma UniqueRowsAreClean(rows: seq<Row>, record: Row -> V.Record, names: seq<string>)
    requires RendersKeys(record, names, rows) && UniqueKeys(rows) && forall row | row in rows :: row.key.Some?
    ensures V.NoKeyIssues(Rendered(rows, record), names)
  {
    var records := Rendered(rows, record);
    forall i | 0 <= i < |records|
      ensures V.KeyIssues(records[..i], records[i], names) == []
    {
      assert rows[i] in rows;
      forall other | other in records[..i]
        ensures V.KeyOf(other, names) != V.KeyOf(records[i], names)
      {
        var j :| 0 <= j < i && records[..i][j] == other;
        assert rows[j].key != rows[i].key;
      }
    }
  }

  /** Whatever crashes and resumes a run went through, each of its tables passes the key check. */
  lemma EveryTablePassesKeyCheck(plan: Plan, root: Root, t: Table, record: Row -> V.Record, names: seq<string>)
    requires Faithful(plan, root) && RendersKeys(record, names, RowsOf(root.tables[t].parts))
    ensures V.NoKeyIssues(Rendered(RowsOf(root.tables[t].parts), record), names)
  {
    RowsAreKeyed(root.tables[t].parts);
    UniqueRowsAreClean(RowsOf(root.tables[t].parts), record, names);
  }

  // ----- steps of every table -----

  /** Every row has a step up to the limit, and steps never go back. */
  ghost predicate Level(rows: seq<Row>, limit: int) {
    && (forall row | row in rows :: row.step.Some? && row.step.value <= limit)
    && forall i, j | 0 <= i < j < |rows| :: rows[i].step.value <= rows[j].step.value
  }

  lemma LevelAppend(rows: seq<Row>, more: seq<Row>, limit: int, s: int)
    requires Level(rows, limit) && limit <= s && forall row | row in more :: row.step == Some(s)
    ensures Level(rows + more, s)
  {
    var all := rows + more;
    forall i, j | 0 <= i < j < |all|
      ensures all[i].step.value <= all[j].step.value
    {
      if j >= |rows| {
        assert all[j] == more[j - |rows|] && all[j] in more;
        if i < |rows| {
          assert all[i] in rows;
        } else {
          assert all[i] == more[i - |rows|] && all[i] in more;
        }
      }
    }
  }

  lemma ContributionSteps(plan: Plan, n: nat, t: Table, rows: seq<Row>)
    requires WellFormed(plan) && n < |plan.ops| && Contribution(plan, n, t) == [Strip(rows)]
    ensures forall row | row in rows :: row.step == Some(plan.ops[n].step)
  {
    var op := plan.ops[n];
    assert GoodBatch(op);
    var written := OpRows(plan.config, op, UpdatesBefore(plan.ops, n), None);
    assert Strip(rows) == Strip(written);
    forall i | 0 <= i < |rows|
      ensures rows[i].step == Some(op.step)
    {
      assert Strip(rows)[i] == Strip(written)[i] && written[i] in written;
    }
  }

  /** The step of the last op before position n. */
  function LimitAt(plan: Plan, n: nat): int
    requires n <= |plan.ops|
  {
    if n == 0 then 0 else plan.ops[n - 1].step
  }

  lemma LimitGrows(plan: Plan, n: nat)
    requires WellFormed(plan) && 0 < n <= |plan.ops|
    ensures LimitAt(plan, n - 1) <= plan.ops[n - 1].step == LimitAt(plan, n)
  {
  }

  lemma LevelStep(plan: Plan, front: seq<Part>, p: Part, m: nat, t: Table)
    requires WellFormed(plan) && m < |plan.ops| && Contribution(plan, m, t) == [Strip(p.rows)]
    requires Level(RowsOf(front), LimitAt(plan, m))
    ensures Level(RowsOf(front) + p.rows, plan.ops[m].step)
  {
    LimitGrows(plan, m + 1);
    ContributionSteps(plan, m, t, p.rows);
    LevelAppend(RowsOf(front), p.rows, LimitAt(plan, m), plan.ops[m].step);
  }

  /** Batches of the uninterrupted run, in its order: their steps never go back. */
  lemma {:induction false} WindowRowsAreLevel(plan: Plan, parts: seq<Part>, n: nat, t: Table)
    requires WellFormed(plan) && n <= |plan.ops| && Subseq(View(parts), Window(plan, 0, n, t))
    ensures Level(RowsOf(parts), LimitAt(plan, n))
    decreases n
  {
    if n > 0 {
      var m := n - 1;
      var before, c := Window(plan, 0, m, t), Contribution(plan, m, t);
      LimitGrows(plan, n);
      if c != [] && parts != [] && View(parts)[|parts| - 1] == c[0] && Subseq(View(parts)[..|parts| - 1], before) {
        var front, p := parts[..|parts| - 1], parts[|parts| - 1];
        ViewFront(parts, front, p);
        WindowRowsAreLevel(plan, front, m, t);
        assert c == [Strip(p.rows)];
        LevelStep(plan, front, p, m, t);
      } else {
        WithoutLast(View(parts), before, c);
        WindowRowsAreLevel(plan, parts, m, t);
        LevelUpTo(RowsOf(parts), LimitAt(plan, m), plan.ops[m].step);
      }
    } else {
      assert View(parts) == [];
    }
  }

  lemma ViewFront(parts: seq<Part>, front: seq<Part>, p: Part)
    requires parts == front + [p]
    ensures View(parts)[..|parts| - 1] == View(front) && View(parts)[|parts| - 1] == Strip(p.rows)
    ensures RowsOf(parts) == RowsOf(front) + p.rows
  {
    assert parts[..|parts| - 1] == front;
  }

  lemma LevelUpTo(rows: seq<Row>, limit: int, s: int)
    requires Level(rows, limit) && limit <= s
    ensures Level(rows, s)
  {
  }

  lemma WithoutLast(a: seq<Batch>, before: seq<Batch>, c: seq<Batch>)
    requires Subseq(a, before + c) && |c| <= 1
    requires c == [] || a == [] || a[|a| - 1] != c[0] || !Subseq(a[..|a| - 1], before)
    ensures Subseq(a, before)
  {
    if c == [] {
      assert before + c == before;
    } else {
      assert (before + c)[..|before|] == before;
    }
  }

  lemma {:induction false} LastStepIsLast(rows: seq<Row>, record: Row -> V.Record, run: (V.Value, V.Value), limit: int)
    requires RendersSteps(record, run, rows) && Level(rows, limit)
    ensures V.LastStep(Rendered(rows, record), run) == if rows == [] then None else rows[|rows| - 1].step
  {
    if rows != [] {
      var front, row := rows[..|rows| - 1], rows[|rows| - 1];
      LevelFront(rows, front, row, record, run, limit);
      LastStepIsLast(front, record, run, limit);
    }
  }

  lemma LevelFront(rows: seq<Row>, front: seq<Row>, row: Row, record: Row -> V.Record, run: (V.Value, V.Value), limit: int)
    requires RendersSteps(record, run, rows) && Level(rows, limit) && rows != []
    requires front == rows[..|rows| - 1] && row == rows[|rows| - 1]
    ensures RendersSteps(record, run, front) && Level(front, limit)
    ensures front != [] ==> front[|front| - 1].step.Some? && row.step.Some?
                            && front[|front| - 1].step.value <= row.step.value
    ensures row.step.Some? && V.RunOf(record(row)) == run && V.StepOf(record(row)) == row.step
    ensures Rendered(rows, record)[..|rows| - 1] == Rendered(front, record) && Rendered(rows, record)[|rows| - 1] == record(row)
  {
    assert row in rows && forall r | r in front :: r in rows;
    if front != [] {
      assert rows[|front| - 1] == front[|front| - 1] && front[|front| - 1] in front;
    }
  }

  lemma LevelRowsAreClean(rows: seq<Row>, record: Row -> V.Record, run: (V.Value, V.Value), limit: int, table: string)
    requires RendersSteps(record, run, rows) && Level(rows, limit)
    ensures V.NoStepIssues(Rendered(rows, record), table)
  {
    var records := Rendered(rows, record);
    forall i | 0 <= i < |records|
      ensures V.StepIssues(records[..i], records[i], table) == []
    {
      assert forall row | row in rows[..i] :: row in rows;
      LastStepIsLast(rows[..i], record, run, limit);
      assert Rendered(rows[..i], record) == records[..i];
      assert rows[i] in rows;
    }
  }

  /** Likewise each of its tables passes the step check, whatever the table is called; the validator makes it for the
      two training tables. */
  lemma EveryTablePassesStepCheck(plan: Plan, root: Root, t: Table, record: Row -> V.Record, run: (V.Value, V.Value),
                                  table: string)
    requires WellFormed(plan) && Faithful(plan, root) && RendersSteps(record, run, RowsOf(root.tables[t].parts))
    ensures V.NoStepIssues(Rendered(RowsOf(root.tables[t].parts), record), table)
  {
    WindowRowsAreLevel(plan, root.tables[t].parts, |plan.ops|, t);
    LevelRowsAreClean(RowsOf(root.tables[t].parts), record, run, LimitAt(plan, |plan.ops|), table);
  }

  // ----- the train-step table as a whole -----

  /** The primary key of a train row is its run and step. */
  ghost predicate KeyedByStep(plan: Plan, rows: seq<Row>) {
    forall row | row in rows :: row.step.Some? && row.key == Some([plan.config.run, row.step.value])
  }

  lemma TrainContributionKeys(plan: Plan, n: nat, rows: seq<Row>)
    requires WellFormed(plan) && n < |plan.ops| && Strip(rows) in Contribution(plan, n, TrainStep)
    ensures KeyedByStep(plan, rows)
  {
    assert GoodBatch(plan.ops[n]);
    var written := OpRows(plan.config, plan.ops[n], UpdatesBefore(plan.ops, n), None);
    assert |rows| == |Strip(rows)| == |Strip(written)| == 1 && Strip(rows)[0] == Strip(written)[0];
  }

  lemma {:induction false} TrainWindowKeys(plan: Plan, n: nat, rows: seq<Row>)
    requires WellFormed(plan) && n <= |plan.ops| && Strip(rows) in Window(plan, 0, n, TrainStep)
    ensures KeyedByStep(plan, rows)
  {
    if Strip(rows) in Window(plan, 0, n - 1, TrainStep) {
      TrainWindowKeys(plan, n - 1, rows);
    } else {
      TrainContributionKeys(plan, n - 1, rows);
    }
  }

  lemma {:induction false} TrainRowsKeyed(plan: Plan, parts: seq<Part>)
    requires WellFormed(plan) && forall p | p in parts :: Strip(p.rows) in Full(plan, TrainStep)
    ensures KeyedByStep(plan, RowsOf(parts))
  {
    if parts != [] {
      TrainRowsKeyed(plan, parts[..|parts| - 1]);
      TrainWindowKeys(plan, |plan.ops|, parts[|parts| - 1].rows);
    }
  }

  lemma FieldsAreThere(row: Row, profile: string, seed: int, index: nat)
    requires row.step.Some?
    ensures V.FieldIssues(RecordOf(row, profile, seed), SCHEMA.fields, index) == []
  {
    var record, f := RecordOf(row, profile, seed), SCHEMA.fields;
    assert f[..3][..2] == f[..2] && f[..2][..1] == f[..1] && f[..1][..0] == [];
    assert V.FieldIssues(record, f[..1], index) == [];
    assert V.FieldIssues(record, f[..2], index) == [];
    assert V.FieldIssues(record, f[..3], index) == [];
  }

  lemma StepKey(row: V.Record)
    requires V.KeyOf(row, V.STEP_KEY).Some? && V.StepOf(row).Some?
    ensures V.KeyOf(row, V.STEP_KEY) == Some([V.RunOf(row).0, V.RunOf(row).1, V.Int(V.StepOf(row).value)])
  {
    assert V.STEP_KEY[0] == "profile_name" && V.STEP_KEY[1] == "seed" && V.STEP_KEY[2] == "global_step";
    assert V.KeyOf(row, V.STEP_KEY).value == [V.RunOf(row).0, V.RunOf(row).1, V.Int(V.StepOf(row).value)];
  }

  /** The columns of a train-step record render its row. */
  lemma TrainRecordsRender(plan: Plan, rows: seq<Row>, profile: string, seed: int, record: Row -> V.Record)
    requires KeyedByStep(plan, rows) && forall row | row in rows :: record(row) == RecordOf(row, profile, seed)
    ensures RendersKeys(record, V.STEP_KEY, rows)
    ensures RendersSteps(record, (V.Text(profile), V.Int(seed)), rows)
  {
    forall row | row in rows
      ensures V.KeyOf(record(row), V.STEP_KEY) == Some([V.Text(profile), V.Int(seed), V.Int(row.step.value)])
    {
      StepKey(record(row));
    }
    forall a, b | a in rows && b in rows && V.KeyOf(record(a), V.STEP_KEY) == V.KeyOf(record(b), V.STEP_KEY)
      ensures a.key == b.key
    {
      var ka, kb := V.KeyOf(record(a), V.STEP_KEY).value, V.KeyOf(record(b), V.STEP_KEY).value;
      assert ka[2] == kb[2];
    }
  }

  lemma {:induction false} CleanRowsCleanReport(records: seq<V.Record>, table: string, schema: V.TableSchema)
    requires V.NoKeyIssues(records, schema.primaryKey) && V.NoStepIssues(records, table)
    requires forall i | 0 <= i < |records| :: V.FieldIssues(records[i], schema.fields, i) == [] && V.TokensOf(records[i]).None?
    ensures V.Report(records, table, schema) == []
  {
    if records != [] {
      var n := |records| - 1;
      var front := records[..n];
      forall i | 0 <= i < n
        ensures front[..i] == records[..i] && front[i] == records[i]
      {
      }
      CleanRowsCleanReport(front, table, schema);
      assert V.KeyIssues(records[..n], records[n], schema.primaryKey) == [];
      assert V.StepIssues(records[..n], records[n], table) == [];
    }
  }

  /** Its train-step table passes the validator as a whole: fields, keys, steps and tokens. */
  lemma FaithfulTablePassesValidation(plan: Plan, root: Root, profile: string, seed: int)
    requires WellFormed(plan) && Faithful(plan, root)
    ensures V.Report(Rendered(RowsOf(root.tables[TrainStep].parts), row => RecordOf(row, profile, seed)), V.TRAIN_STEP, SCHEMA)
            == []
  {
    var parts, record := root.tables[TrainStep].parts, row => RecordOf(row, profile, seed);
    TrainPartsInPlan(plan, parts);
    TrainRowsKeyed(plan, parts);
    TrainRecordsRender(plan, RowsOf(parts), profile, seed, record);
    TrainReportIsClean(plan, root, profile, seed, record);
  }

  lemma TrainReportIsClean(plan: Plan, root: Root, profile: string, seed: int, record: Row -> V.Record)
    requires WellFormed(plan) && Faithful(plan, root)
    requires var rows := RowsOf(root.tables[TrainStep].parts);
             && KeyedByStep(plan, rows) && (forall row | row in rows :: record(row) == RecordOf(row, profile, seed))
             && RendersKeys(record, V.STEP_KEY, rows) && RendersSteps(record, (V.Text(profile), V.Int(seed)), rows)
    ensures V.Report(Rendered(RowsOf(root.tables[TrainStep].parts), record), V.TRAIN_STEP, SCHEMA) == []
  {
    EveryTablePassesKeyCheck(plan, root, TrainStep, record, V.STEP_KEY);
    EveryTablePassesStepCheck(plan, root, TrainStep, record, (V.Text(profile), V.Int(seed)), V.TRAIN_STEP);
    TrainFieldsAreClean(plan, RowsOf(root.tables[TrainStep].parts), profile, seed, record);
    CleanRowsCleanReport(Rendered(RowsOf(root.tables[TrainStep].parts), record), V.TRAIN_STEP, SCHEMA);
  }

  lemma TrainFieldsAreClean(plan: Plan, rows: seq<Row>, profile: string, seed: int, record: Row -> V.Record)
    requires KeyedByStep(plan, rows) && forall row | row in rows :: record(row) == RecordOf(row, profile, seed)
    ensures forall i | 0 <= i < |rows| ::
              V.FieldIssues(Rendered(rows, record)[i], SCHEMA.fields, i) == [] && V.TokensOf(Rendered(rows, record)[i]).None?
  {
    forall i | 0 <= i < |rows|
      ensures V.FieldIssues(Rendered(rows, record)[i], SCHEMA.fields, i) == []
      ensures V.TokensOf(Rendered(rows, record)[i]).None?
    {
      assert rows[i] in rows;
      FieldsAreThere(rows[i], profile, seed, i);
    }
  }

  lemma TrainPartsInPlan(plan: Plan, parts: seq<Part>)
    requires Subseq(View(parts), Full(plan, TrainStep))
    ensures forall p | p in parts :: Strip(p.rows) in Full(plan, TrainStep)
  {
    SubseqMembers(View(parts), Full(plan, TrainStep));
    forall p | p in parts
      ensures Strip(p.rows) in Full(plan, TrainStep)
    {
      var i :| 0 <= i < |parts| && parts[i] == p;
      assert View(parts)[i] in View(parts);
    }
  }
}
