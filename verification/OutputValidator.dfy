/** The one-pass record validator (latent_grpo_runner/validation/output_validator.py:27-114), for the checks
    that look across rows: primary keys, step order, token continuity. */
module OutputValidator {
  import opened Options

  /** A column value.  Booleans are integers to the program, in comparisons and as dictionary keys. */
  datatype Value = Null | Int(i: int) | Bool(b: bool) | Text(s: string)

  type Record = map<string, Value>
  type Key = seq<Value>

  datatype Problem = MissingField(name: string) | NullField(name: string) | MissingKey | DuplicateKey
                   | StepBackwards | HasCheckpointStep | TokenGap
  datatype Issue = Issue(row: nat, problem: Problem)
  datatype Field = Field(name: string, nullable: bool)
  datatype TableSchema = TableSchema(fields: seq<Field>, primaryKey: seq<string>)

  const TRAIN_STEP := "train_step_metrics"
  const TRAIN_GROUP := "train_group_metrics"
  const GENERATED := "train/generated_token_count"
  const CUMULATIVE := "cumulative_rollout_tokens"

  function Norm(v: Value): Value {
    if v.Bool? then Int(if v.b then 1 else 0) else v
  }

  function AsInt(v: Value): Option<int> {
    var n := Norm(v);
    if n.Int? then Some(n.i) else None
  }

  function Get(row: Record, name: string): Value {
    if name in row then row[name] else Null
  }

  function KeyOf(row: Record, names: seq<string>): Option<Key> {
    if exists name | name in names :: name !in row then None
    else Some(seq(|names|, i requires 0 <= i < |names| => Norm(Get(row, names[i]))))
  }

  /** The run a row belongs to: its (profile, seed) pair. */
  function RunOf(row: Record): (Value, Value) {
    (Norm(Get(row, "profile_name")), Norm(Get(row, "seed")))
  }

  function StepOf(row: Record): Option<int> {
    AsInt(Get(row, "global_step"))
  }

  /** The token counts of a row that takes part in the continuity check. */
  datatype Tokens = Tokens(generated: int, cumulative: int)

  function TokensOf(row: Record): Option<Tokens> {
    if "profile_name" in row && "seed" in row && GENERATED in row && CUMULATIVE in row
       && AsInt(row[GENERATED]).Some? && AsInt(row[CUMULATIVE]).Some?
    then Some(Tokens(AsInt(row[GENERATED]).value, AsInt(row[CUMULATIVE]).value))
    else None
  }

  // ----- what the validator should report, row by row, from the rows before -----

  /** The largest step of a run so far. */
  function LastStep(rows: seq<Record>, run: (Value, Value)): Option<int> {
    if rows == [] then None
    else
      var before, row := LastStep(rows[..|rows| - 1], run), rows[|rows| - 1];
      if RunOf(row) != run || StepOf(row).None? then before
      else if before.None? || StepOf(row).value > before.value then StepOf(row)
      else before
  }

  /** The token rows of a run, in order. */
  function TokenRows(rows: seq<Record>, run: (Value, Value)): seq<Tokens> {
    if rows == [] then []
    else
      var before, row := TokenRows(rows[..|rows| - 1], run), rows[|rows| - 1];
      if RunOf(row) != run || TokensOf(row).None? then before else before + [TokensOf(row).value]
  }

  function FieldIssues(row: Record, fields: seq<Field>, index: nat): seq<Issue> {
    if fields == [] then []
    else
      var before, field := FieldIssues(row, fields[..|fields| - 1], index), fields[|fields| - 1];
      if field.name !in row then before + [Issue(index, MissingField(field.name))]
      else if row[field.name].Null? && !field.nullable then before + [Issue(index, NullField(field.name))]
      else before
  }

  function KeyIssues(before: seq<Record>, row: Record, names: seq<string>): seq<Issue> {
    if names == [] then []
    else
      match KeyOf(row, names)
      case None => [Issue(|before|, MissingKey)]
      case Some(key) =>
        if exists other | other in before :: KeyOf(other, names) == Some(key) then [Issue(|before|, DuplicateKey)] else []
  }

  function StepIssues(before: seq<Record>, row: Record, table: string): seq<Issue> {
    if table != TRAIN_STEP && table != TRAIN_GROUP then []
    else
      var last := LastStep(before, RunOf(row));
      (if StepOf(row).Some? && last.Some? && StepOf(row).value < last.value then [Issue(|before|, StepBackwards)] else [])
      + (if "checkpoint_step" in row then [Issue(|before|, HasCheckpointStep)] else [])
  }

  function TokenIssues(before: seq<Record>, row: Record, table: string): seq<Issue> {
    if table != TRAIN_STEP || TokensOf(row).None? then []
    else
      var earlier, tokens := TokenRows(before, RunOf(row)), TokensOf(row).value;
      if earlier != [] && tokens.cumulative != earlier[|earlier| - 1].cumulative + tokens.generated
      then [Issue(|before|, TokenGap)] else []
  }

  function RowIssues(before: seq<Record>, row: Record, table: string, schema: TableSchema): seq<Issue> {
    FieldIssues(row, schema.fields, |before|) + KeyIssues(before, row, schema.primaryKey)
    + StepIssues(before, row, table) + TokenIssues(before, row, table)
  }

  /** The complete report. */
  function Report(rows: seq<Record>, table: string, schema: TableSchema): seq<Issue> {
    if rows == [] then []
    else Report(rows[..|rows| - 1], table, schema) + RowIssues(rows[..|rows| - 1], rows[|rows| - 1], table, schema)
  }

  /** No row is reported for its primary key, or for its step. */
  ghost predicate NoKeyIssues(rows: seq<Record>, names: seq<string>) {
    forall i | 0 <= i < |rows| :: KeyIssues(rows[..i], rows[i], names) == []
  }

  ghost predicate NoStepIssues(rows: seq<Record>, table: string) {
    forall i | 0 <= i < |rows| :: StepIssues(rows[..i], rows[i], table) == []
  }

  // ----- what is reported, in terms of the columns -----

  /** Equality of column values in the program: True is 1 and False is 0. */
  predicate Equal(a: Value, b: Value) {
    || a == b
    || (a.Bool? && b == Int(if a.b then 1 else 0))
    || (b.Bool? && a == Int(if b.b then 1 else 0))
  }

  /** Column `name` of the row holds the integer n. */
  predicate Holds(row: Record, name: string, n: int) {
    name in row && (row[name] == Int(n) || (row[name] == Bool(true) && n == 1) || (row[name] == Bool(false) && n == 0))
  }

  predicate IsNumber(row: Record, name: string) {
    name in row && (row[name].Int? || row[name].Bool?)
  }

  /** The columns agree, where an absent one counts as null. */
  predicate SameColumn(a: Record, b: Record, name: string) {
    Equal(if name in a then a[name] else Null, if name in b then b[name] else Null)
  }

  predicate SameRun(a: Record, b: Record) {
    SameColumn(a, b, "profile_name") && SameColumn(a, b, "seed")
  }

  predicate SameKey(a: Record, b: Record, names: seq<string>) {
    forall name | name in names :: name in a && name in b && SameColumn(a, b, name)
  }

  /** The row takes part in the check of the token counts. */
  predicate HasCounts(row: Record) {
    "profile_name" in row && "seed" in row && IsNumber(row, GENERATED) && IsNumber(row, CUMULATIVE)
  }

  /** An earlier row of the same run has a larger step. */
  ghost predicate StepFalls(rows: seq<Record>, j: nat)
    requires j < |rows|
  {
    exists i, m, n | 0 <= i < j && n < m ::
      SameRun(rows[i], rows[j]) && Holds(rows[i], "global_step", m) && Holds(rows[j], "global_step", n)
  }

  /** Rows i and j are consecutive among the counted rows of their run. */
  ghost predicate Consecutive(rows: seq<Record>, i: nat, j: nat) {
    && i < j < |rows| && HasCounts(rows[i]) && HasCounts(rows[j]) && SameRun(rows[i], rows[j])
    && forall k | i < k < j :: !(HasCounts(rows[k]) && SameRun(rows[k], rows[j]))
  }

  /** The cumulative count of row j is that of row i plus what row j generated. */
  ghost predicate Continues(before: Record, row: Record) {
    exists c, g, total | Holds(before, CUMULATIVE, c) && Holds(row, GENERATED, g) && Holds(row, CUMULATIVE, total) ::
      total == c + g
  }

  /** The reports of the checks, each in terms of the columns. */
  ghost predicate ReportsKeys(errors: seq<Issue>, rows: seq<Record>, names: seq<string>) {
    && (forall j: nat :: Issue(j, MissingKey) in errors <==> j < |rows| && exists name | name in names :: name !in rows[j])
    && (forall j: nat :: Issue(j, DuplicateKey) in errors <==>
          names != [] && j < |rows| && exists i | 0 <= i < j :: SameKey(rows[i], rows[j], names))
  }

  ghost predicate ReportsSteps(errors: seq<Issue>, rows: seq<Record>, table: string) {
    && (forall j: nat :: Issue(j, StepBackwards) in errors <==>
          (table == TRAIN_STEP || table == TRAIN_GROUP) && j < |rows| && StepFalls(rows, j))
    && (forall j: nat :: Issue(j, HasCheckpointStep) in errors <==>
          (table == TRAIN_STEP || table == TRAIN_GROUP) && j < |rows| && "checkpoint_step" in rows[j])
  }

  ghost predicate ReportsTokens(errors: seq<Issue>, rows: seq<Record>, table: string) {
    forall j: nat :: Issue(j, TokenGap) in errors <==>
      table == TRAIN_STEP && exists i: nat :: Consecutive(rows, i, j) && !Continues(rows[i], rows[j])
  }

  ghost predicate ReportsField(errors: seq<Issue>, rows: seq<Record>, fields: seq<Field>, j: nat, name: string) {
    && (Issue(j, MissingField(name)) in errors <==>
          j < |rows| && name !in rows[j] && exists field | field in fields :: field.name == name)
    && (Issue(j, NullField(name)) in errors <==>
          j < |rows| && name in rows[j] && rows[j][name] == Null
          && exists field | field in fields :: field.name == name && !field.nullable)
  }

  ghost predicate ReportsFields(errors: seq<Issue>, rows: seq<Record>, fields: seq<Field>) {
    forall j: nat, name: string :: ReportsField(errors, rows, fields, j, name)
  }

  // ----- from the columns to the report -----

  lemma NormMeans(a: Value, b: Value)
    ensures Norm(a) == Norm(b) <==> Equal(a, b)
  {
  }

  lemma RunMeans(a: Record, b: Record)
    ensures RunOf(a) == RunOf(b) <==> SameRun(a, b)
  {
    NormMeans(Get(a, "profile_name"), Get(b, "profile_name"));
    NormMeans(Get(a, "seed"), Get(b, "seed"));
  }

  lemma IntMeans(row: Record, name: string, n: int)
    ensures AsInt(Get(row, name)) == Some(n) <==> Holds(row, name, n)
    ensures AsInt(Get(row, name)).Some? <==> IsNumber(row, name)
  {
  }

  lemma KeyMeans(a: Record, b: Record, names: seq<string>)
    ensures KeyOf(a, names).Some? <==> forall name | name in names :: name in a
    ensures KeyOf(a, names).Some? && KeyOf(b, names).Some? ==> (KeyOf(a, names) == KeyOf(b, names) <==> SameKey(a, b, names))
  {
    if KeyOf(a, names).Some? && KeyOf(b, names).Some? {
      var ka, kb := KeyOf(a, names).value, KeyOf(b, names).value;
      forall i | 0 <= i < |names|
        ensures ka[i] == kb[i] <==> SameColumn(a, b, names[i])
      {
        NormMeans(Get(a, names[i]), Get(b, names[i]));
      }
      if SameKey(a, b, names) {
        assert forall i | 0 <= i < |names| :: names[i] in names;
        assert ka == kb;
      }
      if ka == kb {
        forall name | name in names
          ensures SameColumn(a, b, name)
        {
          var i :| 0 <= i < |names| && names[i] == name;
          assert ka[i] == kb[i];
        }
      }
    }
  }

  lemma {:induction false} FieldIssueRows(row: Record, fields: seq<Field>, index: nat, e: Issue)
    ensures e in FieldIssues(row, fields, index) ==> e.row == index && (e.problem.MissingField? || e.problem.NullField?)
  {
    if fields != [] {
      FieldIssueRows(row, fields[..|fields| - 1], index, e);
    }
  }

  lemma IssueRows(before: seq<Record>, row: Record, table: string, schema: TableSchema, e: Issue)
    ensures e in RowIssues(before, row, table, schema) ==> e.row == |before|
  {
    FieldIssueRows(row, schema.fields, |before|, e);
  }

  lemma PrefixTwice(rows: seq<Record>, i: nat)
    requires i < |rows| - 1
    ensures rows[..|rows| - 1][..i] == rows[..i] && rows[..|rows| - 1][i] == rows[i]
  {
  }

  /** The report of a row is found in the whole report. */
  lemma {:induction false} InReport(rows: seq<Record>, table: string, schema: TableSchema, e: Issue)
    ensures e in Report(rows, table, schema) <==>
              e.row < |rows| && e in RowIssues(rows[..e.row], rows[e.row], table, schema)
  {
    if rows != [] {
      var n := |rows| - 1;
      InReport(rows[..n], table, schema, e);
      IssueRows(rows[..n], rows[n], table, schema, e);
      if e.row < n {
        PrefixTwice(rows, e.row);
      }
    }
  }

  /** Which check a problem comes from. */
  lemma ByCheck(before: seq<Record>, row: Record, table: string, schema: TableSchema, e: Issue)
    ensures e.problem.TokenGap? ==>
              (e in RowIssues(before, row, table, schema) <==> e in TokenIssues(before, row, table))
    ensures e.problem.StepBackwards? || e.problem.HasCheckpointStep? ==>
              (e in RowIssues(before, row, table, schema) <==> e in StepIssues(before, row, table))
    ensures e.problem.MissingKey? || e.problem.DuplicateKey? ==>
              (e in RowIssues(before, row, table, schema) <==> e in KeyIssues(before, row, schema.primaryKey))
    ensures e.problem.MissingField? || e.problem.NullField? ==>
              (e in RowIssues(before, row, table, schema) <==> e in FieldIssues(row, schema.fields, |before|))
  {
    FieldIssueRows(row, schema.fields, |before|, e);
    OwnProblems(before, row, table, schema.primaryKey, e);
    InOneOf(FieldIssues(row, schema.fields, |before|), KeyIssues(before, row, schema.primaryKey),
            StepIssues(before, row, table), TokenIssues(before, row, table), e);
  }

  lemma OwnProblems(before: seq<Record>, row: Record, table: string, names: seq<string>, e: Issue)
    ensures e in KeyIssues(before, row, names) ==> e.problem.MissingKey? || e.problem.DuplicateKey?
    ensures e in StepIssues(before, row, table) ==> e.problem.StepBackwards? || e.problem.HasCheckpointStep?
    ensures e in TokenIssues(before, row, table) ==> e.problem.TokenGap?
  {
  }

  lemma InOneOf(a: seq<Issue>, b: seq<Issue>, c: seq<Issue>, d: seq<Issue>, e: Issue)
    ensures e in a + b + c + d <==> e in a || e in b || e in c || e in d
  {
  }

  lemma KeyIssuesMean(rows: seq<Record>, j: nat, names: seq<string>)
    requires j < |rows|
    ensures Issue(j, MissingKey) in KeyIssues(rows[..j], rows[j], names) <==> exists name | name in names :: name !in rows[j]
    ensures Issue(j, DuplicateKey) in KeyIssues(rows[..j], rows[j], names) <==>
              names != [] && exists i | 0 <= i < j :: SameKey(rows[i], rows[j], names)
  {
    var before, row := rows[..j], rows[j];
    forall i | 0 <= i < j
      ensures KeyOf(row, names).Some? ==> (KeyOf(rows[i], names) == KeyOf(row, names) <==> SameKey(rows[i], row, names))
    {
      KeyMeans(rows[i], row, names);
      KeyMeans(row, rows[i], names);
    }
    if KeyOf(row, names).Some? && exists other | other in before :: KeyOf(other, names) == KeyOf(row, names) {
      var other :| other in before && KeyOf(other, names) == KeyOf(row, names);
      var i :| 0 <= i < j && before[i] == other;
      assert SameKey(rows[i], row, names);
    }
    if i :| 0 <= i < j && SameKey(rows[i], row, names) {
      assert before[i] in before;
    }
  }

  lemma {:induction false} LastStepMeans(rows: seq<Record>, row: Record)
    ensures LastStep(rows, RunOf(row)).Some? ==>
              exists i | 0 <= i < |rows| :: SameRun(rows[i], row) && Holds(rows[i], "global_step", LastStep(rows, RunOf(row)).value)
    ensures forall i, m | 0 <= i < |rows| && SameRun(rows[i], row) && Holds(rows[i], "global_step", m) ::
              LastStep(rows, RunOf(row)).Some? && m <= LastStep(rows, RunOf(row)).value
  {
    if rows != [] {
      var n := |rows| - 1;
      LastStepMeans(rows[..n], row);
      RunMeans(rows[n], row);
      forall m {
        IntMeans(rows[n], "global_step", m);
      }
      assert forall i | 0 <= i < n :: rows[..n][i] == rows[i];
      if StepOf(rows[n]).Some? {
        assert Holds(rows[n], "global_step", StepOf(rows[n]).value);
      }
    }
  }

  lemma StepIssuesMean(rows: seq<Record>, j: nat, table: string)
    requires j < |rows| && (table == TRAIN_STEP || table == TRAIN_GROUP)
    ensures Issue(j, StepBackwards) in StepIssues(rows[..j], rows[j], table) <==> StepFalls(rows, j)
    ensures Issue(j, HasCheckpointStep) in StepIssues(rows[..j], rows[j], table) <==> "checkpoint_step" in rows[j]
  {
    var before, row := rows[..j], rows[j];
    LastStepMeans(before, row);
    forall n {
      IntMeans(row, "global_step", n);
    }
    var last := LastStep(before, RunOf(row));
    if StepOf(row).Some? && last.Some? && StepOf(row).value < last.value {
      var i :| 0 <= i < |before| && SameRun(before[i], row) && Holds(before[i], "global_step", last.value);
      assert SameRun(rows[i], rows[j]) && Holds(rows[i], "global_step", last.value);
      assert Holds(rows[j], "global_step", StepOf(row).value);
    }
    if StepFalls(rows, j) {
      var i, m, n :| 0 <= i < j && n < m && SameRun(rows[i], row) && Holds(rows[i], "global_step", m) && Holds(row, "global_step", n);
      assert before[i] == rows[i];
    }
  }

  lemma TokensMean(row: Record)
    ensures TokensOf(row).Some? <==> HasCounts(row)
    ensures TokensOf(row).Some? ==>
              Holds(row, GENERATED, TokensOf(row).value.generated) && Holds(row, CUMULATIVE, TokensOf(row).value.cumulative)
  {
    IntMeans(row, GENERATED, 0);
    IntMeans(row, CUMULATIVE, 0);
    if TokensOf(row).Some? {
      IntMeans(row, GENERATED, TokensOf(row).value.generated);
      IntMeans(row, CUMULATIVE, TokensOf(row).value.cumulative);
    }
  }

  /** Row i is the last counted row of a run. */
  ghost predicate LastCounted(rows: seq<Record>, i: nat, row: Record) {
    && i < |rows| && HasCounts(rows[i]) && SameRun(rows[i], row)
    && forall k | i < k < |rows| :: !(HasCounts(rows[k]) && SameRun(rows[k], row))
  }

  /** The last token row of a run belongs to its last counted row. */
  lemma {:induction false} LastTokensMean(rows: seq<Record>, row: Record)
    ensures var tokens := TokenRows(rows, RunOf(row));
            && (tokens == [] ==> forall i | 0 <= i < |rows| :: !(HasCounts(rows[i]) && SameRun(rows[i], row)))
            && (tokens != [] ==>
                  exists i: nat :: LastCounted(rows, i, row) && Holds(rows[i], CUMULATIVE, tokens[|tokens| - 1].cumulative))
  {
    if rows != [] {
      var n := |rows| - 1;
      var before := rows[..n];
      LastTokensMean(before, row);
      RunMeans(rows[n], row);
      TokensMean(rows[n]);
      var tokens := TokenRows(before, RunOf(row));
      if HasCounts(rows[n]) && SameRun(rows[n], row) {
        assert LastCounted(rows, n, row);
      } else if tokens != [] {
        var i: nat :| LastCounted(before, i, row) && Holds(before[i], CUMULATIVE, tokens[|tokens| - 1].cumulative);
        assert LastCounted(rows, i, row);
      } else {
        assert forall i | 0 <= i < n :: before[i] == rows[i];
      }
    }
  }

  lemma TokenIssuesMean(rows: seq<Record>, j: nat)
    requires j < |rows|
    ensures Issue(j, TokenGap) in TokenIssues(rows[..j], rows[j], TRAIN_STEP) <==>
              exists i: nat :: Consecutive(rows, i, j) && !Continues(rows[i], rows[j])
  {
    var before, row := rows[..j], rows[j];
    TokensMean(row);
    LastTokensMean(before, row);
    var tokens := TokenRows(before, RunOf(row));
    if HasCounts(row) && tokens != [] {
      var i: nat :| LastCounted(before, i, row) && Holds(before[i], CUMULATIVE, tokens[|tokens| - 1].cumulative);
      assert Consecutive(rows, i, j);
      CountsAreUnique(rows[i], row, tokens[|tokens| - 1].cumulative, TokensOf(row).value);
      forall k: nat | Consecutive(rows, k, j)
        ensures k == i
      {
        assert k < j && before[k] == rows[k];
      }
    }
    if i: nat :| Consecutive(rows, i, j) {
      assert before[i] == rows[i];
    }
  }

  lemma CountsAreUnique(before: Record, row: Record, c: int, tokens: Tokens)
    requires Holds(before, CUMULATIVE, c) && Holds(row, GENERATED, tokens.generated) && Holds(row, CUMULATIVE, tokens.cumulative)
    ensures Continues(before, row) <==> tokens.cumulative == c + tokens.generated
  {
  }

  lemma {:induction false} FieldIssuesMean(row: Record, fields: seq<Field>, index: nat, name: string)
    ensures Issue(index, MissingField(name)) in FieldIssues(row, fields, index) <==>
              name !in row && exists field | field in fields :: field.name == name
    ensures Issue(index, NullField(name)) in FieldIssues(row, fields, index) <==>
              name in row && row[name] == Null && exists field | field in fields :: field.name == name && !field.nullable
  {
    if fields != [] {
      var n := |fields| - 1;
      FieldIssuesMean(row, fields[..n], index, name);
      assert fields == fields[..n] + [fields[n]];
    }
  }

  /** Where a problem of a row is found. */
  lemma WhereReported(rows: seq<Record>, j: nat, problem: Problem, table: string, schema: TableSchema, reported: bool)
    requires reported <==> Issue(j, problem) in Report(rows, table, schema)
    ensures problem.TokenGap? ==> (reported <==> j < |rows| && Issue(j, problem) in TokenIssues(rows[..j], rows[j], table))
    ensures problem.StepBackwards? || problem.HasCheckpointStep? ==>
              (reported <==> j < |rows| && Issue(j, problem) in StepIssues(rows[..j], rows[j], table))
    ensures problem.MissingKey? || problem.DuplicateKey? ==>
              (reported <==> j < |rows| && Issue(j, problem) in KeyIssues(rows[..j], rows[j], schema.primaryKey))
    ensures problem.MissingField? || problem.NullField? ==>
              (reported <==> j < |rows| && Issue(j, problem) in FieldIssues(rows[j], schema.fields, j))
  {
    InReport(rows, table, schema, Issue(j, problem));
    if j < |rows| {
      ByCheck(rows[..j], rows[j], table, schema, Issue(j, problem));
    }
  }

  lemma TokensReported(rows: seq<Record>, table: string, schema: TableSchema, errors: seq<Issue>)
    requires errors == Report(rows, table, schema)
    ensures ReportsTokens(errors, rows, table)
  {
    forall j: nat
      ensures Issue(j, TokenGap) in errors <==>
                table == TRAIN_STEP && exists i: nat :: Consecutive(rows, i, j) && !Continues(rows[i], rows[j])
    {
      WhereReported(rows, j, TokenGap, table, schema, Issue(j, TokenGap) in errors);
      if j < |rows| {
        TokenIssuesMean(rows, j);
      }
    }
  }

  lemma StepsReported(rows: seq<Record>, table: string, schema: TableSchema, errors: seq<Issue>)
    requires errors == Report(rows, table, schema)
    ensures ReportsSteps(errors, rows, table)
  {
    forall j: nat
      ensures Issue(j, StepBackwards) in errors <==>
                (table == TRAIN_STEP || table == TRAIN_GROUP) && j < |rows| && StepFalls(rows, j)
      ensures Issue(j, HasCheckpointStep) in errors <==>
                (table == TRAIN_STEP || table == TRAIN_GROUP) && j < |rows| && "checkpoint_step" in rows[j]
    {
      WhereReported(rows, j, StepBackwards, table, schema, Issue(j, StepBackwards) in errors);
      WhereReported(rows, j, HasCheckpointStep, table, schema, Issue(j, HasCheckpointStep) in errors);
      if j < |rows| && (table == TRAIN_STEP || table == TRAIN_GROUP) {
        StepIssuesMean(rows, j, table);
      }
    }
  }

  lemma KeysReported(rows: seq<Record>, table: string, schema: TableSchema, errors: seq<Issue>)
    requires errors == Report(rows, table, schema)
    ensures ReportsKeys(errors, rows, schema.primaryKey)
  {
    forall j: nat
      ensures Issue(j, MissingKey) in errors <==> j < |rows| && exists name | name in schema.primaryKey :: name !in rows[j]
      ensures Issue(j, DuplicateKey) in errors <==>
                schema.primaryKey != [] && j < |rows| && exists i | 0 <= i < j :: SameKey(rows[i], rows[j], schema.primaryKey)
    {
      WhereReported(rows, j, MissingKey, table, schema, Issue(j, MissingKey) in errors);
      WhereReported(rows, j, DuplicateKey, table, schema, Issue(j, DuplicateKey) in errors);
      if j < |rows| {
        KeyIssuesMean(rows, j, schema.primaryKey);
      }
    }
  }

  lemma FieldReported(rows: seq<Record>, table: string, schema: TableSchema, errors: seq<Issue>, j: nat, name: string)
    requires errors == Report(rows, table, schema)
    ensures ReportsField(errors, rows, schema.fields, j, name)
  {
    WhereReported(rows, j, MissingField(name), table, schema, Issue(j, MissingField(name)) in errors);
    WhereReported(rows, j, NullField(name), table, schema, Issue(j, NullField(name)) in errors);
    if j < |rows| {
      FieldIssuesMean(rows[j], schema.fields, j, name);
    }
  }

  lemma FieldsReported(rows: seq<Record>, table: string, schema: TableSchema, errors: seq<Issue>)
    requires errors == Report(rows, table, schema)
    ensures ReportsFields(errors, rows, schema.fields)
  {
    forall j: nat, name: string
      ensures ReportsField(errors, rows, schema.fields, j, name)
    {
      FieldReported(rows, table, schema, errors, j, name);
    }
  }

  /** The report says what it should about every row, in terms of the columns. */
  lemma ReportMeans(rows: seq<Record>, table: string, schema: TableSchema, errors: seq<Issue>)
    requires errors == Report(rows, table, schema)
    ensures ReportsTokens(errors, rows, table) && ReportsSteps(errors, rows, table)
    ensures ReportsKeys(errors, rows, schema.primaryKey) && ReportsFields(errors, rows, schema.fields)
  {
    TokensReported(rows, table, schema, errors);
    StepsReported(rows, table, schema, errors);
    KeysReported(rows, table, schema, errors);
    FieldsReported(rows, table, schema, errors);
  }

  // ----- the one pass -----

  /** The pass keeps only the seen keys, the largest step of each run and the last cumulative count of each
      run, and still reports exactly what a look back over all earlier rows would. */
  method ValidateRecords(table: string, rows: seq<Record>, schema: TableSchema) returns (errors: seq<Issue>)
    ensures errors == Report(rows, table, schema)
    ensures ReportsTokens(errors, rows, table) && ReportsSteps(errors, rows, table)
    ensures ReportsKeys(errors, rows, schema.primaryKey) && ReportsFields(errors, rows, schema.fields)
  {
    errors := [];
    var seen: set<Key> := {};
    var lastStepByRun: map<(Value, Value), int> := map[];
    var lastTokensByRun: map<(Value, Value), int> := map[];
    for index := 0 to |rows|
      invariant errors == Report(rows[..index], table, schema)
      invariant SeenIs(seen, rows[..index], schema.primaryKey)
      invariant table == TRAIN_STEP || table == TRAIN_GROUP ==> LastStepsAre(lastStepByRun, rows[..index])
      invariant table == TRAIN_STEP ==> LastTokensAre(lastTokensByRun, rows[..index])
    {
      var row := rows[index];
      ghost var before := rows[..index];
      assert rows[..index + 1] == before + [row];
      assert rows[..index + 1][..index] == before;
      var fieldIssues := FieldErrors(row, schema.fields, index);
      var keyIssues, stepIssues, tokenIssues;
      keyIssues, seen := KeyErrors(before, row, index, schema.primaryKey, seen);
      stepIssues, lastStepByRun := StepErrors(before, row, index, table, lastStepByRun);
      tokenIssues, lastTokensByRun := TokenErrors(before, row, index, table, lastTokensByRun);
      errors := errors + (fieldIssues + keyIssues + stepIssues + tokenIssues);
    }
    assert rows[..|rows|] == rows;
    ReportMeans(rows, table, schema, errors);
  }

  method KeyErrors(ghost before: seq<Record>, row: Record, index: nat, names: seq<string>, seen: set<Key>)
    returns (issues: seq<Issue>, seen': set<Key>)
    requires index == |before| && SeenIs(seen, before, names)
    ensures issues == KeyIssues(before, row, names) && SeenIs(seen', before + [row], names)
  {
    issues, seen' := [], seen;
    if names != [] {
      var key := KeyOf(row, names);
      if key.None? {
        issues := [Issue(index, MissingKey)];
      } else {
        if key.value in seen {
          issues := [Issue(index, DuplicateKey)];
        }
        seen' := seen + {key.value};
      }
      forall k
        ensures k in seen' <==> exists other | other in before + [row] :: KeyOf(other, names) == Some(k)
      {
        if k in seen {
          var other :| other in before && KeyOf(other, names) == Some(k);
          assert other in before + [row];
        }
        assert row in before + [row];
      }
    }
  }

  method StepErrors(ghost before: seq<Record>, row: Record, index: nat, table: string, last: map<(Value, Value), int>)
    returns (issues: seq<Issue>, last': map<(Value, Value), int>)
    requires index == |before| && (table == TRAIN_STEP || table == TRAIN_GROUP ==> LastStepsAre(last, before))
    ensures issues == StepIssues(before, row, table)
    ensures table == TRAIN_STEP || table == TRAIN_GROUP ==> LastStepsAre(last', before + [row])
  {
    issues, last' := [], last;
    if table == TRAIN_STEP || table == TRAIN_GROUP {
      assert (before + [row])[..|before|] == before;
      var run, step := RunOf(row), StepOf(row);
      if step.Some? {
        if run in last && step.value < last[run] {
          issues := [Issue(index, StepBackwards)];
        }
        last' := last[run := if run in last && last[run] > step.value then last[run] else step.value];
      }
      if "checkpoint_step" in row {
        issues := issues + [Issue(index, HasCheckpointStep)];
      }
    }
  }

  method TokenErrors(ghost before: seq<Record>, row: Record, index: nat, table: string, last: map<(Value, Value), int>)
    returns (issues: seq<Issue>, last': map<(Value, Value), int>)
    requires index == |before| && (table == TRAIN_STEP ==> LastTokensAre(last, before))
    ensures issues == TokenIssues(before, row, table)
    ensures table == TRAIN_STEP ==> LastTokensAre(last', before + [row])
  {
    issues, last' := [], last;
    assert (before + [row])[..|before|] == before;
    if table == TRAIN_STEP && TokensOf(row).Some? {
      var run, tokens := RunOf(row), TokensOf(row).value;
      if run in last && tokens.cumulative != last[run] + tokens.generated {
        issues := [Issue(index, TokenGap)];
      }
      last' := last[run := tokens.cumulative];
    }
  }

  method FieldErrors(row: Record, fields: seq<Field>, index: nat) returns (issues: seq<Issue>)
    ensures issues == FieldIssues(row, fields, index)
  {
    issues := [];
    for i := 0 to |fields|
      invariant issues == FieldIssues(row, fields[..i], index)
    {
      assert fields[..i + 1][..i] == fields[..i];
      if fields[i].name !in row {
        issues := issues + [Issue(index, MissingField(fields[i].name))];
      } else if row[fields[i].name].Null? && !fields[i].nullable {
        issues := issues + [Issue(index, NullField(fields[i].name))];
      }
    }
    assert fields[..|fields|] == fields;
  }

  ghost predicate SeenIs(seen: set<Key>, rows: seq<Record>, names: seq<string>) {
    names != [] ==> forall key :: key in seen <==> exists row | row in rows :: KeyOf(row, names) == Some(key)
  }

  ghost predicate LastStepsAre(last: map<(Value, Value), int>, rows: seq<Record>) {
    forall run :: LastStep(rows, run) == if run in last then Some(last[run]) else None
  }

  ghost predicate LastTokensAre(last: map<(Value, Value), int>, rows: seq<Record>) {
    forall run :: var tokens := TokenRows(rows, run);
                  if run in last then tokens != [] && tokens[|tokens| - 1].cumulative == last[run] else tokens == []
  }

  // ----- what a clean report means -----

  /** A clean report means that every row has a primary key and no two rows share one. */
  lemma CleanKeysAreUnique(rows: seq<Record>, table: string, schema: TableSchema)
    requires Report(rows, table, schema) == [] && schema.primaryKey != []
    ensures forall i, name | 0 <= i < |rows| && name in schema.primaryKey :: name in rows[i]
    ensures forall i, j | 0 <= i < j < |rows| :: !SameKey(rows[i], rows[j], schema.primaryKey)
  {
    forall j: nat | j < |rows|
      ensures forall name | name in schema.primaryKey :: name in rows[j]
      ensures forall i | 0 <= i < j :: !SameKey(rows[i], rows[j], schema.primaryKey)
    {
      WhereReported(rows, j, MissingKey, table, schema, false);
      WhereReported(rows, j, DuplicateKey, table, schema, false);
      KeyIssuesMean(rows, j, schema.primaryKey);
    }
  }

  const STEP_KEY := ["profile_name", "seed", "global_step"]

  /** Rows of one run with the same step have the same key. */
  lemma SameStepSameKey(a: Record, b: Record, n: int)
    requires (forall name | name in STEP_KEY :: name in a && name in b)
    requires SameRun(a, b) && Holds(a, "global_step", n) && Holds(b, "global_step", n)
    ensures SameKey(a, b, STEP_KEY)
  {
  }

  lemma NoFall(rows: seq<Record>, j: nat, schema: TableSchema)
    requires Report(rows, TRAIN_STEP, schema) == [] && j < |rows|
    ensures !StepFalls(rows, j)
  {
    WhereReported(rows, j, StepBackwards, TRAIN_STEP, schema, false);
    StepIssuesMean(rows, j, TRAIN_STEP);
  }

  /** In the train-step table a clean report means strictly increasing steps within each run, however the runs
      are interleaved: the step check allows repeats, the key check excludes them. */
  lemma CleanStepsStrictlyIncrease(rows: seq<Record>, i: nat, j: nat, m: int, n: int, schema: TableSchema)
    requires Report(rows, TRAIN_STEP, schema) == [] && schema.primaryKey == STEP_KEY
    requires i < j < |rows| && SameRun(rows[i], rows[j]) && Holds(rows[i], "global_step", m) && Holds(rows[j], "global_step", n)
    ensures m < n
  {
    NoFall(rows, j, schema);
    CleanKeysAreUnique(rows, TRAIN_STEP, schema);
    if m == n {
      SameStepSameKey(rows[i], rows[j], n);
    }
  }

  /** The integer in a column. */
  function Number(row: Record, name: string): int
    requires IsNumber(row, name)
  {
    if row[name].Int? then row[name].i else if row[name].b then 1 else 0
  }

  /** What the run of row i generated in its counted rows behind row i, up to row j. */
  function GeneratedAfter(rows: seq<Record>, i: nat, j: nat): int
    requires i <= j < |rows|
    decreases j
  {
    if j == i then 0
    else
      GeneratedAfter(rows, i, j - 1)
      + if HasCounts(rows[j]) && SameRun(rows[i], rows[j]) then Number(rows[j], GENERATED) else 0
  }

  lemma SameRuns(a: Record, b: Record, c: Record)
    ensures SameRun(a, b) <==> SameRun(b, a)
    ensures SameRun(a, b) && SameRun(b, c) ==> SameRun(a, c)
  {
    RunMeans(a, b);
    RunMeans(b, a);
    RunMeans(b, c);
    RunMeans(a, c);
  }

  /** The counted row of a run before row j, when row i is one; k rows back from row j there has been none. */
  lemma {:induction false} PreviousCounted(rows: seq<Record>, i: nat, j: nat, k: nat) returns (p: nat)
    requires i <= k < j < |rows| && HasCounts(rows[i]) && HasCounts(rows[j]) && SameRun(rows[i], rows[j])
    requires forall q | k < q < j :: !(HasCounts(rows[q]) && SameRun(rows[q], rows[j]))
    ensures i <= p <= k && Consecutive(rows, p, j) && SameRun(rows[i], rows[p])
    ensures GeneratedAfter(rows, i, k) == GeneratedAfter(rows, i, p)
    decreases k
  {
    SameRuns(rows[i], rows[j], rows[k]);
    SameRuns(rows[k], rows[j], rows[i]);
    SameRuns(rows[i], rows[k], rows[j]);
    if HasCounts(rows[k]) && SameRun(rows[k], rows[j]) {
      p := k;
    } else {
      p := PreviousCounted(rows, i, j, k - 1);
    }
  }

  /** Every counted row continues the one before it in its run. */
  ghost predicate Continuous(rows: seq<Record>) {
    forall i: nat, j: nat | Consecutive(rows, i, j) :: Continues(rows[i], rows[j])
  }

  lemma {:induction false} Telescopes(rows: seq<Record>, i: nat, j: nat)
    requires Continuous(rows) && i <= j < |rows|
    requires HasCounts(rows[i]) && HasCounts(rows[j]) && SameRun(rows[i], rows[j])
    ensures Number(rows[j], CUMULATIVE) == Number(rows[i], CUMULATIVE) + GeneratedAfter(rows, i, j)
    decreases j
  {
    if i < j {
      var p := PreviousCounted(rows, i, j, j - 1);
      Telescopes(rows, i, p);
      ContinuesBy(rows[p], rows[j]);
    }
  }

  lemma ContinuesBy(before: Record, row: Record)
    requires Continues(before, row) && HasCounts(before) && HasCounts(row)
    ensures Number(row, CUMULATIVE) == Number(before, CUMULATIVE) + Number(row, GENERATED)
  {
  }

  lemma NoGap(rows: seq<Record>, i: nat, j: nat, schema: TableSchema)
    requires Report(rows, TRAIN_STEP, schema) == [] && Consecutive(rows, i, j)
    ensures Continues(rows[i], rows[j])
  {
    WhereReported(rows, j, TokenGap, TRAIN_STEP, schema, false);
    TokenIssuesMean(rows, j);
  }

  /** A clean report means that in each run the cumulative token count grows, from any counted row to any later one, by
      exactly what the counted rows in between and the later one generated, even with other runs and uncounted rows in
      between. */
  lemma CleanTokensTelescope(rows: seq<Record>, i: nat, j: nat, schema: TableSchema)
    requires Report(rows, TRAIN_STEP, schema) == [] && i <= j < |rows|
    requires HasCounts(rows[i]) && HasCounts(rows[j]) && SameRun(rows[i], rows[j])
    ensures Number(rows[j], CUMULATIVE) == Number(rows[i], CUMULATIVE) + GeneratedAfter(rows, i, j)
  {
    forall p: nat, q: nat | Consecutive(rows, p, q)
      ensures Continues(rows[p], rows[q])
    {
      NoGap(rows, p, q, schema);
    }
    Telescopes(rows, i, j);
  }
}
