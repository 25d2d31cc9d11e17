/** Whole training runs as seen by the metrics driver: open or resume, emit, checkpoint, die, resume again
    (latent_grpo_runner/metrics/integration.py, latent_grpo_runner/checkpointing.py).

    A plan is what an uninterrupted training run would emit, in order.  A session is one process working on
    the plan; it is described by the images of the output root it leaves, so that a crash is an index. */
module RunModel {
  import opened Options
  import opened PartLog
  import opened OutputDisk

  /** What identifies a run: the (profile, seed) pair, and the hash of its configuration. */
  datatype Config = Config(run: int, hash: int)

  /** One observer call: a train step, one batch of support or probe rows, or a checkpoint. */
  datatype Op =
    | TrainOp(step: int, updates: nat, payload: int)
    | BatchOp(table: Table, step: int, rows: seq<Row>)
    | CheckpointOp(step: int)

  datatype Plan = Plan(config: Config, ops: seq<Op>)

  /** The driver's memory: one writer per table, the running optimizer step, the resume markers. */
  datatype Live = Live(mems: map<Table, Mem>, optimizerStep: int, resumeMark: Option<int>)

  /** The images a session leaves if it is never killed, and its memory if it ends without an error. */
  datatype Run = Run(images: seq<Root>, live: Option<Live>)

  function Prepend(images: seq<Root>, run: Run): Run {
    Run(images + run.images, run.live)
  }

  /** The schema of each table; only its identity matters here. */
  function SchemaOf(t: Table): int {
    match t
    case TrainStep => 0
    case TrainGroup => 1
    case Support => 2
    case SupportBenchmark => 3
    case Probe => 4
    case ProbeBenchmark => 5
  }

  lemma SchemasDiffer(t: Table, u: Table)
    requires t != u
    ensures SchemaOf(t) != SchemaOf(u)
  {
  }

  function TrainRow(config: Config, step: int, optimizerStep: int, resumeMark: Option<int>, payload: int): Row {
    Row(Some([config.run, step]), Some(step), true, optimizerStep, resumeMark, payload)
  }

  /** The rows an op hands to its writer, given the optimizer step before it. */
  function OpRows(config: Config, op: Op, before: int, resumeMark: Option<int>): seq<Row>
    requires !op.CheckpointOp?
  {
    match op
    case TrainOp(step, updates, payload) => [TrainRow(config, step, before + updates, resumeMark, payload)]
    case BatchOp(_, _, rows) => rows
  }

  function OpTable(op: Op): Table
    requires !op.CheckpointOp?
  {
    if op.TrainOp? then TrainStep else op.table
  }

  predicate Complete(live: Live) {
    forall t: Table :: t in live.mems
  }

  // ----- one op -----

  function OpError(config: Config, live: Live, op: Op): Option<Error>
    requires Complete(live)
  {
    if op.CheckpointOp? then None
    else AppendError(live.mems[OpTable(op)], OpRows(config, op, live.optimizerStep, live.resumeMark))
  }

  function SidecarOf(config: Config, live: Live): Sidecar
    requires Complete(live)
  {
    Sidecar(config.hash, live.optimizerStep,
            map t | t in WRITER_TABLES :: SummaryOf(live.mems[t].entries).partCount)
  }

  /** A checkpoint publishes the sidecar first; then the trainer empties its latest tracker and writes it. */
  function OpImages(config: Config, root: Root, live: Live, op: Op, uuid: Uuid): seq<Root>
    requires HasAllTables(root) && Complete(live)
  {
    if op.CheckpointOp? then
      var published := root.(sidecars := root.sidecars[op.step := SidecarOf(config, live)]);
      [published, published.(latest := Truncated), published.(latest := Latest(op.step))]
    else
      var t := OpTable(op);
      Lift(root, t, AppendImages(root.tables[t], SchemaOf(t), live.mems[t],
                                 OpRows(config, op, live.optimizerStep, live.resumeMark), uuid))
  }

  function OpLive(config: Config, live: Live, op: Op, uuid: Uuid): Live
    requires Complete(live)
  {
    if op.CheckpointOp? then live
    else
      var t := OpTable(op);
      var rows := OpRows(config, op, live.optimizerStep, live.resumeMark);
      Live(live.mems[t := AppendedMem(live.mems[t], rows, uuid)],
           if op.TrainOp? then live.optimizerStep + op.updates else live.optimizerStep, live.resumeMark)
  }

  lemma OpKeepsTables(config: Config, root: Root, live: Live, op: Op, uuid: Uuid)
    requires HasAllTables(root) && Complete(live)
    ensures HasAllTables(Last(root, OpImages(config, root, live, op, uuid)))
    ensures Complete(OpLive(config, live, op, uuid))
  {
  }

  /** Ops from position n to the end of the plan; an error ends the session. */
  function OpsRun(plan: Plan, root: Root, live: Live, n: nat, nonce: nat): Run
    requires n <= |plan.ops| && HasAllTables(root) && Complete(live)
    decreases |plan.ops| - n
  {
    if n == |plan.ops| then Run([], Some(live))
    else if OpError(plan.config, live, plan.ops[n]).Some? then Run([], None)
    else
      OpKeepsTables(plan.config, root, live, plan.ops[n], (nonce, n));
      var images := OpImages(plan.config, root, live, plan.ops[n], (nonce, n));
      Prepend(images, OpsRun(plan, Last(root, images), OpLive(plan.config, live, plan.ops[n], (nonce, n)), n + 1, nonce))
  }

  // ----- starting -----

  /** Open the writers of the given tables in order; the first failure ends the session. */
  function OpenAll(root: Root, tables: seq<Table>, requested: set<Table>, live: Live, resume: Option<int>): Run
    requires HasAllTables(root)
    decreases |tables|
  {
    if tables == [] then Run([], Some(live))
    else if tables[0] !in requested then Run([], None)
    else
      var t := tables[0];
      var d := root.tables[t];
      var images := Lift(root, t, OpenImages(d, SchemaOf(t), resume));
      match OpenOutcome(d, SchemaOf(t), resume)
      case Refused(_) => Run(images, None)
      case Opened(mem) =>
        Prepend(images, OpenAll(WithDir(root, t, Last(d, OpenImages(d, SchemaOf(t), resume))), tables[1..], requested,
                                live.(mems := live.mems[t := mem]), resume))
  }

  function AllTables(): set<Table> {
    set t | t in WRITER_TABLES
  }

  /** What start_run checks before it opens anything: a fresh start asks for every table; a resume needs a
      compatible sidecar for its step, asks for the tables listed there and takes over its optimizer step. */
  datatype Admission = Denied | Admitted(requested: set<Table>, optimizerStep: int)

  function Admit(config: Config, root: Root, resume: Option<int>): Admission {
    match resume
    case None => Admitted(AllTables(), 0)
    case Some(s) =>
      if s < 1 || s !in root.sidecars || root.sidecars[s].configHash != config.hash || root.sidecars[s].optimizerStep < 0
      then Denied
      else Admitted(root.sidecars[s].partCounts.Keys, root.sidecars[s].optimizerStep)
  }

  function StartRun(config: Config, root: Root, resume: Option<int>): Run
    requires HasAllTables(root)
  {
    match Admit(config, root, resume)
    case Denied => Run([], None)
    case Admitted(requested, step) => OpenAll(root, WRITER_TABLES, requested, Live(map[], step, resume), resume)
  }

  /** Where training continues after a resume at step s: the first op of a later step. */
  function PositionAfter(ops: seq<Op>, s: int): (n: nat)
    ensures n <= |ops|
  {
    if ops == [] || ops[0].step > s then 0 else 1 + PositionAfter(ops[1..], s)
  }

  /** One process: start, then emit the rest of the plan. */
  function SessionRun(plan: Plan, root: Root, resume: Option<int>, nonce: nat): Run
    requires HasAllTables(root)
  {
    var start := StartRun(plan.config, root, resume);
    if start.live.None? || !HasAllTables(Last(root, start.images)) || !Complete(start.live.value) then start
    else
      var n := if resume.None? then 0 else PositionAfter(plan.ops, resume.value);
      Prepend(start.images, OpsRun(plan, Last(root, start.images), start.live.value, n, nonce))
  }

  /** The trainer's resume_mode. */
  datatype Mode = Auto | ResumePath(step: int) | Disabled

  /** Where training starts: an error, from scratch, or after a step. */
  datatype Start = Fails | From(resume: Option<int>)

  function IfPositive(s: int): Option<int> {
    if s > 0 then Some(s) else None
  }

  /** The latest tracker is read in every mode but Disabled, even when the step is then taken from a path; an
      empty tracker cannot be read (verl/trainer/ppo/ray_trainer.py:1002-1030,1095-1097). */
  function StartOf(root: Root, mode: Mode): Start {
    if mode.Disabled? then From(None)
    else if root.latest.Truncated? then Fails
    else if mode.ResumePath? then From(IfPositive(mode.step))
    else if root.latest.Latest? then From(IfPositive(root.latest.step))
    else From(None)
  }

  /** A start fails exactly on an empty tracker that is read; it resumes after step s exactly when s is positive and is
      the given path's or, in the automatic mode, the tracker's; and otherwise it begins from scratch. */
  lemma StartOfMeans(root: Root, mode: Mode, s: int)
    ensures StartOf(root, mode) == Fails <==> mode != Disabled && root.latest == Truncated
    ensures StartOf(root, mode) == From(Some(s)) <==>
              s >= 1 && root.latest != Truncated && (mode == ResumePath(s) || (mode == Auto && root.latest == Latest(s)))
    ensures StartOf(root, mode) == From(None) <==>
              || mode == Disabled
              || (root.latest == Unset && mode == Auto)
              || (root.latest != Truncated && mode.ResumePath? && mode.step < 1)
              || (root.latest.Latest? && mode == Auto && root.latest.step < 1)
  {
  }

  /** One process as the trainer starts it. */
  function TrainerRun(plan: Plan, root: Root, mode: Mode, nonce: nat): Run
    requires HasAllTables(root)
  {
    match StartOf(root, mode)
    case Fails => Run([], None)
    case From(resume) => SessionRun(plan, root, resume, nonce)
  }

  lemma StartsFrom(plan: Plan, root: Root, mode: Mode, resume: Option<int>, nonce: nat)
    requires HasAllTables(root) && StartOf(root, mode) == From(resume)
    ensures TrainerRun(plan, root, mode, nonce) == SessionRun(plan, root, resume, nonce)
  {
  }

  /** A process that is killed after `fuel` disk actions, and one such process after the other. */
  datatype Life = Life(mode: Mode, fuel: nat)

  function AfterLife(plan: Plan, root: Root, life: Life, nonce: nat): Root
    requires HasAllTables(root)
  {
    At(root, TrainerRun(plan, root, life.mode, nonce).images, life.fuel)
  }

  function Lives(plan: Plan, root: Root, lives: seq<Life>): Root
    decreases |lives|
  {
    if lives == [] || !HasAllTables(root) then root
    else Lives(plan, AfterLife(plan, root, lives[0], |lives|), lives[1..])
  }

  function EmptyRoot(): Root {
    Root(map t: Table | t in WRITER_TABLES :: EMPTY_DIR, map[], Unset)
  }

  // ----- what an uninterrupted run leaves -----

  function UpdatesBefore(ops: seq<Op>, n: nat): nat
    requires n <= |ops|
  {
    if n == 0 then 0 else UpdatesBefore(ops, n - 1) + if ops[n - 1].TrainOp? then ops[n - 1].updates else 0
  }

  /** Rows without the resume markers. */
  function Strip(rows: seq<Row>): (r: seq<Row>)
    ensures |r| == |rows|
    ensures forall i | 0 <= i < |rows| :: r[i] == rows[i].(resumeMark := None)
  {
    seq(|rows|, i requires 0 <= i < |rows| => rows[i].(resumeMark := None))
  }

  /** The batch op i adds to table t in an uninterrupted run. */
  function Contribution(plan: Plan, i: nat, t: Table): seq<seq<Row>>
    requires i < |plan.ops|
  {
    var op := plan.ops[i];
    if op.CheckpointOp? || OpTable(op) != t then []
    else [Strip(OpRows(plan.config, op, UpdatesBefore(plan.ops, i), None))]
  }

  /** The batches ops a to b add to table t in an uninterrupted run. */
  function Window(plan: Plan, a: nat, b: nat, t: Table): seq<seq<Row>>
    requires a <= b <= |plan.ops|
  {
    if a == b then [] else Window(plan, a, b - 1, t) + Contribution(plan, b - 1, t)
  }

  function Full(plan: Plan, t: Table): seq<seq<Row>> {
    Window(plan, 0, |plan.ops|, t)
  }

  /** The batches on disk, ignoring the resume markers. */
  function View(parts: seq<Part>): (r: seq<seq<Row>>)
    ensures |r| == |parts|
    ensures forall i | 0 <= i < |parts| :: r[i] == Strip(parts[i].rows)
  {
    seq(|parts|, i requires 0 <= i < |parts| => Strip(parts[i].rows))
  }

  /** What a training run emits: steps in order, a checkpoint after everything of its step, every row with
      the step of its event, and no primary key twice in a table. */
  ghost predicate WellFormed(plan: Plan) {
    && (forall i | 0 <= i < |plan.ops| :: plan.ops[i].step >= 1)
    && (forall i, j | 0 <= i < j < |plan.ops| :: plan.ops[i].step <= plan.ops[j].step)
    && (forall i, j | 0 <= i < j < |plan.ops| :: plan.ops[i].CheckpointOp? ==> plan.ops[i].step < plan.ops[j].step)
    && (forall j | 0 <= j < |plan.ops| && plan.ops[j].CheckpointOp? ::
          exists i | 0 <= i < j :: plan.ops[i].TrainOp? && plan.ops[i].step == plan.ops[j].step)
    && (forall i | 0 <= i < |plan.ops| :: GoodBatch(plan.ops[i]))
    && (forall i, j | 0 <= i < j < |plan.ops| :: KeysApart(plan.config, plan.ops[i], plan.ops[j]))
  }

  predicate GoodBatch(op: Op) {
    op.BatchOp? ==>
      op.table != TrainStep && op.rows != [] && WellKeyed(op.rows) && UniqueKeys(op.rows)
      && forall row | row in op.rows :: row.step == Some(op.step)
  }

  predicate KeysApart(config: Config, a: Op, b: Op) {
    !a.CheckpointOp? && !b.CheckpointOp? && OpTable(a) == OpTable(b) ==>
      KeySet(OpRows(config, a, 0, None)) !! KeySet(OpRows(config, b, 0, None))
  }
}
