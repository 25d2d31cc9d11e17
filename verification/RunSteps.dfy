/** One session, step by step: what every crash image of emitting and of opening holds. */
module RunSteps {
  import opened Options
  import opened PartLog
  import opened PartLogLaws
  import opened OutputDisk
  import opened RunModel
  import opened Subsequences
  import opened RunLaws

  /** What each table held when the session began to emit. */
  type Heads = map<Table, seq<Batch>>

  ghost predicate TableAt(plan: Plan, d: Dir, t: Table, head: seq<Batch>, c: nat, n: nat)
    requires c <= n <= |plan.ops|
  {
    Sound(d, SchemaOf(t)) && View(d.parts) == head + Window(plan, c, n, t)
  }

  /** A session that began to emit at position c stands at position n. */
  ghost predicate Stage(plan: Plan, root: Root, live: Live, heads: Heads, c: nat, n: nat) {
    && c <= n <= |plan.ops| && HasAllTables(root) && Complete(live)
    && live.optimizerStep == UpdatesBefore(plan.ops, n)
    && (forall t: Table :: t in heads && Subseq(heads[t], Window(plan, 0, c, t)))
    && (forall t: Table :: TableAt(plan, root.tables[t], t, heads[t], c, n))
    && (forall t: Table :: Coherent(root.tables[t], live.mems[t]))
  }

  /** Every table is sound and holds, in order, batches of the uninterrupted run and nothing else. */
  ghost predicate Faithful(plan: Plan, root: Root) {
    && HasAllTables(root)
    && forall t: Table :: Sound(root.tables[t], SchemaOf(t)) && Subseq(View(root.tables[t].parts), Full(plan, t))
  }

  // ----- emitting -----

  lemma BatchKeysConcat(a: seq<Batch>, b: seq<Batch>)
    ensures BatchKeys(a + b) == BatchKeys(a) + BatchKeys(b)
  {
    forall k | k in BatchKeys(a) + BatchKeys(b)
      ensures k in BatchKeys(a + b)
    {
      var x, row :| (x in a || x in b) && row in x && row.key == Some(k);
      assert x in a + b;
    }
  }

  lemma StageKeys(plan: Plan, root: Root, live: Live, heads: Heads, c: nat, n: nat)
    requires WellFormed(plan) && Stage(plan, root, live, heads, c, n)
    requires n < |plan.ops| && !plan.ops[n].CheckpointOp?
    ensures live.mems[OpTable(plan.ops[n])].keys !! KeySet(OpRows(plan.config, plan.ops[n], 0, None))
  {
    var t := OpTable(plan.ops[n]);
    ViewKeys(root.tables[t].parts);
    assert TableAt(plan, root.tables[t], t, heads[t], c, n) && Coherent(root.tables[t], live.mems[t]);
    BatchKeysConcat(heads[t], Window(plan, c, n, t));
    SubKeys(heads[t], Window(plan, 0, c, t));
    WindowKeys(plan, 0, c, n);
    WindowKeys(plan, c, n, n);
  }

  lemma OpRowsGood(plan: Plan, n: nat, before: int, mark: Option<int>)
    requires WellFormed(plan) && n < |plan.ops| && !plan.ops[n].CheckpointOp?
    ensures var rows := OpRows(plan.config, plan.ops[n], before, mark);
            rows != [] && UniqueKeys(rows) && forall row | row in rows :: row.key.Some? && row.conforms
  {
    assert GoodBatch(plan.ops[n]);
  }

  lemma AcceptIff(mem: Mem, rows: seq<Row>)
    requires rows != [] && UniqueKeys(rows) && (forall row | row in rows :: row.key.Some? && row.conforms)
    requires mem.keys !! KeySet(rows)
    ensures AppendError(mem, rows) == None
  {
  }

  /** A plan's own ops are never refused. */
  lemma StageAccepts(plan: Plan, root: Root, live: Live, heads: Heads, c: nat, n: nat)
    requires WellFormed(plan) && Stage(plan, root, live, heads, c, n) && n < |plan.ops|
    ensures OpError(plan.config, live, plan.ops[n]) == None
  {
    var op := plan.ops[n];
    if !op.CheckpointOp? {
      StageKeys(plan, root, live, heads, c, n);
      OpKeys(plan.config, op, live.optimizerStep, live.resumeMark);
      OpRowsGood(plan, n, live.optimizerStep, live.resumeMark);
      AcceptIff(live.mems[OpTable(op)], OpRows(plan.config, op, live.optimizerStep, live.resumeMark));
    }
  }

  /** Publishing the rows of op n is publishing the next batch of its table. */
  lemma ViewGrows(plan: Plan, parts: seq<Part>, p: Part, head: seq<Batch>, c: nat, n: nat, mark: Option<int>)
    requires c <= n < |plan.ops| && !plan.ops[n].CheckpointOp?
    requires View(parts) == head + Window(plan, c, n, OpTable(plan.ops[n]))
    requires p.rows == OpRows(plan.config, plan.ops[n], UpdatesBefore(plan.ops, n), mark)
    ensures View(parts + [p]) == head + Window(plan, c, n + 1, OpTable(plan.ops[n]))
  {
    var t, before := OpTable(plan.ops[n]), UpdatesBefore(plan.ops, n);
    var b := Strip(p.rows);
    ViewConcat(parts, [p]);
    assert View([p]) == [b];
    assert b == Strip(OpRows(plan.config, plan.ops[n], before, None));
    assert Contribution(plan, n, t) == [b];
    assert (head + Window(plan, c, n, t)) + [b] == head + (Window(plan, c, n, t) + [b]);
  }

  /** Committing an op moves its table one batch ahead; a crash leaves it at one of the two positions. */
  lemma CommitStep(plan: Plan, d: Dir, mem: Mem, head: seq<Batch>, c: nat, n: nat, mark: Option<int>, uuid: Uuid, fuel: nat)
    requires c <= n < |plan.ops| && !plan.ops[n].CheckpointOp?
    requires TableAt(plan, d, OpTable(plan.ops[n]), head, c, n) && Coherent(d, mem)
    requires AppendError(mem, OpRows(plan.config, plan.ops[n], UpdatesBefore(plan.ops, n), mark)) == None
    ensures var t := OpTable(plan.ops[n]);
            var rows := OpRows(plan.config, plan.ops[n], UpdatesBefore(plan.ops, n), mark);
            var images := AppendImages(d, SchemaOf(t), mem, rows, uuid);
            && TableAt(plan, Last(d, images), t, head, c, n + 1)
            && Coherent(Last(d, images), AppendedMem(mem, rows, uuid))
            && TableAt(plan, At(d, images, fuel), t, head, c, if fuel < 3 then n else n + 1)
  {
    var t := OpTable(plan.ops[n]);
    var rows := OpRows(plan.config, plan.ops[n], UpdatesBefore(plan.ops, n), mark);
    FinishedAppend(d, SchemaOf(t), mem, rows, uuid);
    CrashedAppendImage(d, SchemaOf(t), mem, rows, uuid, fuel);
    ViewGrows(plan, d.parts, NewPart(mem, rows, uuid), head, c, n, mark);
  }

  /** The images of a committing op, all on its own table. */
  function CommitImages(config: Config, root: Root, live: Live, op: Op, uuid: Uuid): seq<Dir>
    requires HasAllTables(root) && Complete(live) && !op.CheckpointOp?
  {
    AppendImages(root.tables[OpTable(op)], SchemaOf(OpTable(op)), live.mems[OpTable(op)],
                 OpRows(config, op, live.optimizerStep, live.resumeMark), uuid)
  }

  lemma CommitCrash(plan: Plan, root: Root, live: Live, heads: Heads, c: nat, n: nat, uuid: Uuid, fuel: nat)
    requires Stage(plan, root, live, heads, c, n) && n < |plan.ops| && !plan.ops[n].CheckpointOp?
    requires OpError(plan.config, live, plan.ops[n]) == None
    ensures var op := plan.ops[n];
            var t, images := OpTable(op), CommitImages(plan.config, root, live, op, uuid);
            var d' := Last(root.tables[t], images);
            && At(root, OpImages(plan.config, root, live, op, uuid), fuel) == WithDir(root, t, At(root.tables[t], images, fuel))
            && TableAt(plan, At(root.tables[t], images, fuel), t, heads[t], c, if fuel < 3 then n else n + 1)
            && Last(root, OpImages(plan.config, root, live, op, uuid)) == WithDir(root, t, d')
            && TableAt(plan, d', t, heads[t], c, n + 1)
            && Coherent(d', OpLive(plan.config, live, op, uuid).mems[t])
  {
    var op := plan.ops[n];
    var t := OpTable(op);
    assert TableAt(plan, root.tables[t], t, heads[t], c, n) && Coherent(root.tables[t], live.mems[t]);
    CommitStep(plan, root.tables[t], live.mems[t], heads[t], c, n, live.resumeMark, uuid, fuel);
    LiftAt(root, t, CommitImages(plan.config, root, live, op, uuid), fuel);
  }

  lemma SameWindow(plan: Plan, c: nat, n: nat, t: Table)
    requires c <= n < |plan.ops|
    requires plan.ops[n].CheckpointOp? || OpTable(plan.ops[n]) != t
    ensures Window(plan, c, n + 1, t) == Window(plan, c, n, t)
  {
  }

  lemma CommitIsLift(config: Config, root: Root, live: Live, op: Op, uuid: Uuid)
    requires HasAllTables(root) && Complete(live) && !op.CheckpointOp?
    ensures OpImages(config, root, live, op, uuid) == Lift(root, OpTable(op), CommitImages(config, root, live, op, uuid))
  {
  }

  lemma LiftFrame(root: Root, t: Table, images: seq<Dir>, fuel: nat)
    requires HasAllTables(root)
    ensures var x := At(root, Lift(root, t, images), fuel);
            && HasAllTables(x) && x.sidecars == root.sidecars && x.latest == root.latest
            && (forall u: Table | u != t :: x.tables[u] == root.tables[u])
    ensures var y := Last(root, Lift(root, t, images));
            HasAllTables(y) && forall u: Table | u != t :: y.tables[u] == root.tables[u]
  {
    LiftAt(root, t, images, fuel);
  }

  /** The latest tracker when a checkpoint of step s is killed after `fuel` actions. */
  function TrackerAt(root: Root, s: int, fuel: nat): Tracker {
    if fuel < 2 then root.latest else if fuel == 2 then Truncated else Latest(s)
  }

  lemma CheckpointFrame(config: Config, root: Root, live: Live, op: Op, uuid: Uuid, fuel: nat)
    requires HasAllTables(root) && Complete(live) && op.CheckpointOp?
    ensures var x := At(root, OpImages(config, root, live, op, uuid), fuel);
            && x.tables == root.tables
            && x.sidecars == (if fuel > 0 then root.sidecars[op.step := SidecarOf(config, live)] else root.sidecars)
            && x.latest == TrackerAt(root, op.step, fuel)
    ensures Last(root, OpImages(config, root, live, op, uuid)).tables == root.tables
  {
    assert fuel == 0 || fuel == 1 || fuel == 2 || fuel >= 3;
  }

  /** An op touches at most its own table; only a checkpoint touches the sidecars and the latest tracker. */
  lemma OpFrame(config: Config, root: Root, live: Live, op: Op, uuid: Uuid, fuel: nat)
    requires HasAllTables(root) && Complete(live)
    ensures var x := At(root, OpImages(config, root, live, op, uuid), fuel);
            && HasAllTables(x)
            && (forall t: Table | op.CheckpointOp? || t != OpTable(op) :: x.tables[t] == root.tables[t])
            && x.sidecars == (if op.CheckpointOp? && fuel > 0
                              then root.sidecars[op.step := SidecarOf(config, live)] else root.sidecars)
            && x.latest == if op.CheckpointOp? then TrackerAt(root, op.step, fuel) else root.latest
  {
    if op.CheckpointOp? {
      CheckpointFrame(config, root, live, op, uuid, fuel);
    } else {
      CommitIsLift(config, root, live, op, uuid);
      LiftFrame(root, OpTable(op), CommitImages(config, root, live, op, uuid), fuel);
    }
  }

  lemma OpFrameEnd(config: Config, root: Root, live: Live, op: Op, uuid: Uuid)
    requires HasAllTables(root) && Complete(live)
    ensures var y := Last(root, OpImages(config, root, live, op, uuid));
            && HasAllTables(y)
            && (forall t: Table | op.CheckpointOp? || t != OpTable(op) :: y.tables[t] == root.tables[t])
  {
    if op.CheckpointOp? {
      CheckpointFrame(config, root, live, op, uuid, 0);
    } else {
      CommitIsLift(config, root, live, op, uuid);
      LiftFrame(root, OpTable(op), CommitImages(config, root, live, op, uuid), 0);
    }
  }

  lemma OpFrameLive(config: Config, live: Live, op: Op, uuid: Uuid)
    requires Complete(live)
    ensures var live' := OpLive(config, live, op, uuid);
            && Complete(live')
            && (forall t: Table | op.CheckpointOp? || t != OpTable(op) :: live'.mems[t] == live.mems[t])
  {
  }

  lemma StageStepAt(plan: Plan, root: Root, live: Live, heads: Heads, c: nat, n: nat, uuid: Uuid,
                    root': Root, live': Live, next: nat, t: Table)
    requires Stage(plan, root, live, heads, c, n) && n < |plan.ops| && next == n + 1
    requires OpError(plan.config, live, plan.ops[n]) == None
    requires root' == Last(root, OpImages(plan.config, root, live, plan.ops[n], uuid))
    requires live' == OpLive(plan.config, live, plan.ops[n], uuid)
    ensures HasAllTables(root') && Complete(live')
    ensures TableAt(plan, root'.tables[t], t, heads[t], c, next) && Coherent(root'.tables[t], live'.mems[t])
  {
    var op := plan.ops[n];
    OpFrameEnd(plan.config, root, live, op, uuid);
    OpFrameLive(plan.config, live, op, uuid);
    if op.CheckpointOp? || t != OpTable(op) {
      SameWindow(plan, c, n, t);
      assert TableAt(plan, root.tables[t], t, heads[t], c, n) && Coherent(root.tables[t], live.mems[t]);
    } else {
      CommitCrash(plan, root, live, heads, c, n, uuid, 0);
    }
  }

  /** One op takes the session from position n to position n + 1. */
  lemma StageStep(plan: Plan, root: Root, live: Live, heads: Heads, c: nat, n: nat, uuid: Uuid,
                  root': Root, live': Live, next: nat)
    requires Stage(plan, root, live, heads, c, n) && n < |plan.ops| && next == n + 1
    requires OpError(plan.config, live, plan.ops[n]) == None
    requires root' == Last(root, OpImages(plan.config, root, live, plan.ops[n], uuid))
    requires live' == OpLive(plan.config, live, plan.ops[n], uuid)
    ensures Stage(plan, root', live', heads, c, next)
  {
    StepIsCounted(plan, live, n, uuid, live', next);
    forall t: Table {
      StageStepAt(plan, root, live, heads, c, n, uuid, root', live', next, t);
    }
  }

  /** The running optimizer step counts the updates of the ops behind it. */
  lemma StepIsCounted(plan: Plan, live: Live, n: nat, uuid: Uuid, live': Live, next: nat)
    requires n < |plan.ops| && next == n + 1 && Complete(live) && live.optimizerStep == UpdatesBefore(plan.ops, n)
    requires OpError(plan.config, live, plan.ops[n]) == None && live' == OpLive(plan.config, live, plan.ops[n], uuid)
    ensures live'.optimizerStep == UpdatesBefore(plan.ops, next)
  {
  }

  lemma StageCrashAt(plan: Plan, root: Root, live: Live, heads: Heads, c: nat, n: nat, uuid: Uuid, fuel: nat, t: Table)
    requires Stage(plan, root, live, heads, c, n) && n < |plan.ops|
    requires OpError(plan.config, live, plan.ops[n]) == None
    ensures var op := plan.ops[n];
            var x := At(root, OpImages(plan.config, root, live, op, uuid), fuel);
            && HasAllTables(x)
            && TableAt(plan, x.tables[t], t, heads[t], c, if !op.CheckpointOp? && fuel < 3 then n else n + 1)
  {
    var op := plan.ops[n];
    OpFrame(plan.config, root, live, op, uuid, fuel);
    if op.CheckpointOp? || t != OpTable(op) {
      SameWindow(plan, c, n, t);
      assert TableAt(plan, root.tables[t], t, heads[t], c, n);
    } else {
      CommitCrash(plan, root, live, heads, c, n, uuid, fuel);
    }
  }

  /** A crash during op n: every table stands at n or at n + 1. */
  lemma StageCrash(plan: Plan, root: Root, live: Live, heads: Heads, c: nat, n: nat, uuid: Uuid, fuel: nat)
    requires Stage(plan, root, live, heads, c, n) && n < |plan.ops|
    requires OpError(plan.config, live, plan.ops[n]) == None
    ensures var op := plan.ops[n];
            var x := At(root, OpImages(plan.config, root, live, op, uuid), fuel);
            var m := if !op.CheckpointOp? && fuel < 3 then n else n + 1;
            HasAllTables(x) && forall t: Table :: TableAt(plan, x.tables[t], t, heads[t], c, m)
  {
    forall t: Table {
      StageCrashAt(plan, root, live, heads, c, n, uuid, fuel, t);
    }
  }

  lemma WindowSub(plan: Plan, head: seq<Batch>, c: nat, n: nat, t: Table)
    requires c <= n <= |plan.ops| && Subseq(head, Window(plan, 0, c, t))
    ensures Subseq(head + Window(plan, c, n, t), Full(plan, t))
  {
    SubseqExtend(head, Window(plan, 0, c, t), Window(plan, c, n, t));
    WindowSplit(plan, 0, c, n, t);
    WindowSplit(plan, 0, n, |plan.ops|, t);
    SubseqWiden(head + Window(plan, c, n, t), Window(plan, 0, n, t), Window(plan, n, |plan.ops|, t));
  }

  lemma StageFaithful(plan: Plan, x: Root, heads: Heads, c: nat, m: nat)
    requires c <= m <= |plan.ops| && HasAllTables(x)
    requires forall t: Table :: t in heads && Subseq(heads[t], Window(plan, 0, c, t))
    requires forall t: Table :: TableAt(plan, x.tables[t], t, heads[t], c, m)
    ensures Faithful(plan, x)
  {
    forall t: Table
      ensures Sound(x.tables[t], SchemaOf(t)) && Subseq(View(x.tables[t].parts), Full(plan, t))
    {
      assert TableAt(plan, x.tables[t], t, heads[t], c, m);
      WindowSub(plan, heads[t], c, m, t);
    }
  }

  /** How many disk actions are left after the first images. */
  function LeftAfter<S>(images: seq<S>, fuel: nat): nat {
    if fuel <= |images| then 0 else fuel - |images|
  }

  lemma PrependImages(root: Root, first: seq<Root>, run: Run, fuel: nat, left: nat)
    requires left == LeftAfter(first, fuel)
    ensures Prepend(first, run).live == run.live
    ensures Last(root, Prepend(first, run).images) == Last(Last(root, first), run.images)
    ensures fuel <= |first| ==> At(root, Prepend(first, run).images, fuel) == At(root, first, fuel)
    ensures fuel > |first| ==> At(root, Prepend(first, run).images, fuel) == At(Last(root, first), run.images, left)
  {
    AtConcat(root, first, run.images, fuel);
  }

  /** Emitting op n and then the rest. */
  lemma OpsUnfold(plan: Plan, root: Root, live: Live, n: nat, nonce: nat)
    returns (images: seq<Root>, root': Root, live': Live, rest: Run)
    requires n < |plan.ops| && HasAllTables(root) && Complete(live) && OpError(plan.config, live, plan.ops[n]) == None
    ensures images == OpImages(plan.config, root, live, plan.ops[n], (nonce, n)) && root' == Last(root, images)
    ensures live' == OpLive(plan.config, live, plan.ops[n], (nonce, n))
    ensures HasAllTables(root') && Complete(live') && rest == OpsRun(plan, root', live', n + 1, nonce)
    ensures OpsRun(plan, root, live, n, nonce) == Prepend(images, rest)
  {
    images := OpImages(plan.config, root, live, plan.ops[n], (nonce, n));
    OpKeepsTables(plan.config, root, live, plan.ops[n], (nonce, n));
    root', live' := Last(root, images), OpLive(plan.config, live, plan.ops[n], (nonce, n));
    rest := OpsRun(plan, root', live', n + 1, nonce);
  }

  /** Emitting op n from position n, and the session behind it. */
  lemma EmitNext(plan: Plan, root: Root, live: Live, heads: Heads, c: nat, n: nat, nonce: nat, run: Run, next: nat)
    returns (images: seq<Root>, root': Root, live': Live, rest: Run)
    requires WellFormed(plan) && Stage(plan, root, live, heads, c, n) && run == OpsRun(plan, root, live, n, nonce)
    requires n < |plan.ops| && next == n + 1
    ensures OpError(plan.config, live, plan.ops[n]) == None
    ensures images == OpImages(plan.config, root, live, plan.ops[n], (nonce, n)) && root' == Last(root, images)
    ensures live' == OpLive(plan.config, live, plan.ops[n], (nonce, n))
    ensures Stage(plan, root', live', heads, c, next) && rest == OpsRun(plan, root', live', next, nonce)
    ensures run == Prepend(images, rest)
  {
    StageAccepts(plan, root, live, heads, c, n);
    images, root', live', rest := OpsUnfold(plan, root, live, n, nonce);
    StageStep(plan, root, live, heads, c, n, (nonce, n), root', live', next);
  }

  lemma SameFaithful(plan: Plan, x: Root, y: Root)
    requires Faithful(plan, y) && x == y
    ensures Faithful(plan, x)
  {
  }

  lemma ImageFaithful(plan: Plan, root: Root, live: Live, heads: Heads, c: nat, n: nat, uuid: Uuid, fuel: nat)
    requires WellFormed(plan) && Stage(plan, root, live, heads, c, n) && n < |plan.ops|
    requires OpError(plan.config, live, plan.ops[n]) == None
    ensures Faithful(plan, At(root, OpImages(plan.config, root, live, plan.ops[n], uuid), fuel))
  {
    StageCrash(plan, root, live, heads, c, n, uuid, fuel);
    StageFaithful(plan, At(root, OpImages(plan.config, root, live, plan.ops[n], uuid), fuel), heads, c,
                  if !plan.ops[n].CheckpointOp? && fuel < 3 then n else n + 1);
  }

  /** The tables at the end of the plan. */
  ghost predicate PlanDone(plan: Plan, x: Root, heads: Heads, c: nat)
    requires c <= |plan.ops|
  {
    HasAllTables(x)
    && forall t: Table :: t in heads && View(x.tables[t].parts) == heads[t] + Window(plan, c, |plan.ops|, t)
  }

  lemma StageDone(plan: Plan, root: Root, live: Live, heads: Heads, c: nat, n: nat)
    requires Stage(plan, root, live, heads, c, n) && n == |plan.ops|
    ensures PlanDone(plan, root, heads, c)
  {
    assert forall t: Table :: TableAt(plan, root.tables[t], t, heads[t], c, n);
  }

  /** The rest of the plan from position n: it never fails, every crash image is faithful, and at the end
      every table holds the whole window. */
  lemma {:induction false} OpsCrash(plan: Plan, root: Root, live: Live, heads: Heads, c: nat, n: nat, nonce: nat,
                                    fuel: nat, run: Run)
    requires WellFormed(plan) && Stage(plan, root, live, heads, c, n)
    requires run == OpsRun(plan, root, live, n, nonce)
    ensures Faithful(plan, At(root, run.images, fuel))
    ensures run.live.Some? && PlanDone(plan, Last(root, run.images), heads, c)
    decreases |plan.ops| - n
  {
    if n == |plan.ops| {
      StageFaithful(plan, root, heads, c, n);
      StageDone(plan, root, live, heads, c, n);
    } else {
      var next := n + 1;
      var images, root', live', rest := EmitNext(plan, root, live, heads, c, n, nonce, run, next);
      var left := LeftAfter(images, fuel);
      PrependImages(root, images, rest, fuel, left);
      OpsCrash(plan, root', live', heads, c, next, nonce, left, rest);
      if fuel <= |images| {
        ImageFaithful(plan, root, live, heads, c, n, (nonce, n), fuel);
        SameFaithful(plan, At(root, run.images, fuel), At(root, images, fuel));
      } else {
        SameFaithful(plan, At(root, run.images, fuel), At(root', rest.images, left));
      }
    }
  }

  // ----- opening -----

  /** Nothing that a resume at this step would keep is lost, and nothing else on disk changes. */
  ghost predicate SameKept(x: Root, root: Root, resume: Option<int>) {
    && HasAllTables(x) && HasAllTables(root)
    && x.sidecars == root.sidecars && x.latest == root.latest
    && (forall t: Table :: Kept(x.tables[t].parts, resume) == Kept(root.tables[t].parts, resume))
    && (resume == None ==> forall t: Table :: x.tables[t].parts == root.tables[t].parts)
  }

  /** All writers that have been opened agree with their directory, which holds exactly the kept parts. */
  ghost predicate OpenedAs(x: Root, live: Live, root: Root, tables: seq<Table>, resume: Option<int>)
    requires HasAllTables(x) && HasAllTables(root)
  {
    forall t: Table | t in tables ::
      t in live.mems && Coherent(x.tables[t], live.mems[t])
      && x.tables[t].parts == Kept(root.tables[t].parts, resume)
  }

  /** A directory that stands for table t after a crash of opening it. */
  ghost predicate MayReplace(plan: Plan, root: Root, t: Table, y: Dir, resume: Option<int>)
    requires HasAllTables(root)
  {
    && Sound(y, SchemaOf(t)) && Subseq(View(y.parts), Full(plan, t))
    && Kept(y.parts, resume) == Kept(root.tables[t].parts, resume)
    && (resume == None ==> y.parts == root.tables[t].parts)
  }

  lemma OpenedDir(plan: Plan, root: Root, t: Table, resume: Option<int>, fuel: nat)
    requires Faithful(plan, root)
    ensures MayReplace(plan, root, t, At(root.tables[t], OpenImages(root.tables[t], SchemaOf(t), resume), fuel), resume)
  {
    var d := root.tables[t];
    var y := At(d, OpenImages(d, SchemaOf(t), resume), fuel);
    OpenOfSound(d, SchemaOf(t), resume, fuel);
    ViewSub(y.parts, d.parts);
    SubseqTrans(View(y.parts), View(d.parts), Full(plan, t));
  }

  lemma ReplacedFaithful(plan: Plan, root: Root, t: Table, y: Dir, resume: Option<int>)
    requires Faithful(plan, root) && MayReplace(plan, root, t, y, resume)
    ensures Faithful(plan, WithDir(root, t, y))
  {
  }

  lemma ReplacedKept(root: Root, t: Table, y: Dir, resume: Option<int>)
    requires HasAllTables(root) && Kept(y.parts, resume) == Kept(root.tables[t].parts, resume)
    requires resume == None ==> y.parts == root.tables[t].parts
    ensures SameKept(WithDir(root, t, y), root, resume)
    ensures forall u: Table | u != t :: WithDir(root, t, y).tables[u] == root.tables[u]
  {
  }

  lemma OneOpenCrash(plan: Plan, root: Root, t: Table, resume: Option<int>, fuel: nat)
    requires Faithful(plan, root)
    ensures var x := At(root, Lift(root, t, OpenImages(root.tables[t], SchemaOf(t), resume)), fuel);
            && Faithful(plan, x) && SameKept(x, root, resume)
            && (forall u: Table | u != t :: x.tables[u] == root.tables[u])
  {
    var images := OpenImages(root.tables[t], SchemaOf(t), resume);
    var y := At(root.tables[t], images, fuel);
    LiftAt(root, t, images, fuel);
    OpenedDir(plan, root, t, resume, fuel);
    ReplacedFaithful(plan, root, t, y, resume);
    ReplacedKept(root, t, y, resume);
    assert At(root, Lift(root, t, images), fuel) == WithDir(root, t, y);
  }

  lemma OneOpenDone(plan: Plan, root: Root, t: Table, resume: Option<int>)
    requires Faithful(plan, root)
    ensures var images := OpenImages(root.tables[t], SchemaOf(t), resume);
            var x := WithDir(root, t, Last(root.tables[t], images));
            && Last(root, Lift(root, t, images)) == x
            && x.tables[t].parts == Kept(root.tables[t].parts, resume)
            && OpenOutcome(root.tables[t], SchemaOf(t), resume) == Opened(MemOf(x.tables[t].parts))
  {
    LiftAt(root, t, OpenImages(root.tables[t], SchemaOf(t), resume), 0);
    OpenOfSound(root.tables[t], SchemaOf(t), resume, 0);
  }

  lemma SameKeptTrans(x: Root, y: Root, z: Root, resume: Option<int>)
    requires SameKept(x, y, resume) && SameKept(y, z, resume)
    ensures SameKept(x, z, resume)
  {
  }

  /** Opening table t takes root to root' through `images`, and live to live'. */
  ghost predicate OpensOne(root: Root, t: Table, live: Live, resume: Option<int>, images: seq<Root>, root': Root, live': Live)
    requires HasAllTables(root)
  {
    && images == Lift(root, t, OpenImages(root.tables[t], SchemaOf(t), resume))
    && root' == WithDir(root, t, Last(root.tables[t], OpenImages(root.tables[t], SchemaOf(t), resume)))
    && root' == Last(root, images) && root' == At(root, images, |images|)
    && OpenOutcome(root.tables[t], SchemaOf(t), resume) == Opened(MemOf(root'.tables[t].parts))
    && live' == live.(mems := live.mems[t := MemOf(root'.tables[t].parts)])
  }

  lemma OneOpens(plan: Plan, root: Root, t: Table, live: Live, resume: Option<int>)
    returns (images: seq<Root>, root': Root, live': Live)
    requires Faithful(plan, root)
    ensures OpensOne(root, t, live, resume, images, root', live')
    ensures root'.tables[t].parts == Kept(root.tables[t].parts, resume)
    ensures Faithful(plan, root') && SameKept(root', root, resume)
    ensures forall u: Table | u != t :: root'.tables[u] == root.tables[u]
  {
    images := Lift(root, t, OpenImages(root.tables[t], SchemaOf(t), resume));
    OneOpenDone(plan, root, t, resume);
    root' := Last(root, images);
    OneOpenCrash(plan, root, t, resume, |images|);
    live' := live.(mems := live.mems[t := MemOf(root'.tables[t].parts)]);
  }

  /** Opening the first of several tables, and what is left to open. */
  lemma OpenAllUnfolds(root: Root, tables: seq<Table>, requested: set<Table>, live: Live, resume: Option<int>, fuel: nat,
                       images: seq<Root>, root': Root, live': Live, rest: Run, run: Run, left: nat)
    requires HasAllTables(root) && HasAllTables(root') && tables != [] && tables[0] in requested
    requires OpensOne(root, tables[0], live, resume, images, root', live')
    requires rest == OpenAll(root', tables[1..], requested, live', resume)
    requires run == OpenAll(root, tables, requested, live, resume) && left == LeftAfter(images, fuel)
    ensures run.live == rest.live && Last(root, run.images) == Last(root', rest.images)
    ensures fuel <= |images| ==> At(root, run.images, fuel) == At(root, images, fuel)
    ensures fuel > |images| ==> At(root, run.images, fuel) == At(root', rest.images, left)
  {
    assert run == Prepend(images, rest);
    PrependImages(root, images, rest, fuel, left);
  }

  /** An image that a crash may leave while tables are being opened. */
  ghost predicate CrashImage(plan: Plan, x: Root, root: Root, resume: Option<int>) {
    Faithful(plan, x) && SameKept(x, root, resume)
  }

  lemma CrashImageTrans(plan: Plan, x: Root, y: Root, z: Root, resume: Option<int>)
    requires CrashImage(plan, x, y, resume) && SameKept(y, z, resume)
    ensures CrashImage(plan, x, z, resume)
  {
    SameKeptTrans(x, y, z, resume);
  }

  lemma SameCrashImage(plan: Plan, x: Root, y: Root, root: Root, resume: Option<int>)
    requires CrashImage(plan, y, root, resume) && x == y
    ensures CrashImage(plan, x, root, resume)
  {
  }

  lemma OneOpenImage(plan: Plan, root: Root, t: Table, live: Live, resume: Option<int>, images: seq<Root>, root': Root,
                     live': Live, fuel: nat)
    requires Faithful(plan, root) && OpensOne(root, t, live, resume, images, root', live')
    ensures CrashImage(plan, At(root, images, fuel), root, resume)
  {
    OneOpenCrash(plan, root, t, resume, fuel);
  }

  /** Opening a list of tables: every crash image is faithful and loses nothing that is kept. */
  lemma {:induction false} OpenAllCrash(plan: Plan, root: Root, tables: seq<Table>, requested: set<Table>,
                                        live: Live, resume: Option<int>, fuel: nat, run: Run)
    requires Faithful(plan, root) && forall t | t in tables :: t in requested
    requires run == OpenAll(root, tables, requested, live, resume)
    ensures CrashImage(plan, At(root, run.images, fuel), root, resume)
    decreases |tables|
  {
    var x := At(root, run.images, fuel);
    if tables == [] {
      assert x == root;
      SameCrashImage(plan, x, root, root, resume);
    } else {
      var images, root', live' := OneOpens(plan, root, tables[0], live, resume);
      var rest := OpenAll(root', tables[1..], requested, live', resume);
      var left := LeftAfter(images, fuel);
      OpenAllUnfolds(root, tables, requested, live, resume, fuel, images, root', live', rest, run, left);
      if fuel <= |images| {
        OneOpenImage(plan, root, tables[0], live, resume, images, root', live', fuel);
        SameCrashImage(plan, x, At(root, images, fuel), root, resume);
      } else {
        var y := At(root', rest.images, left);
        OpenAllCrash(plan, root', tables[1..], requested, live', resume, left, rest);
        CrashImageTrans(plan, y, root', root, resume);
        SameCrashImage(plan, x, y, root, resume);
      }
    }
  }

  /** What an opened list of tables leaves behind. */
  ghost predicate OpenedAll(x: Root, opened': Option<Live>, root: Root, live: Live, tables: seq<Table>, resume: Option<int>)
    requires HasAllTables(root)
  {
    && opened'.Some? && opened'.value.optimizerStep == live.optimizerStep && opened'.value.resumeMark == live.resumeMark
    && HasAllTables(x) && OpenedAs(x, opened'.value, root, tables, resume)
    && Untouched(x, opened'.value, root, live, tables)
  }

  /** Opening a list of tables succeeds, and each of them then holds exactly the kept parts. */
  lemma {:induction false} OpenAllDone(plan: Plan, root: Root, tables: seq<Table>, requested: set<Table>,
                                       live: Live, resume: Option<int>, run: Run)
    requires Faithful(plan, root) && forall t | t in tables :: t in requested
    requires run == OpenAll(root, tables, requested, live, resume)
    ensures OpenedAll(Last(root, run.images), run.live, root, live, tables, resume)
    decreases |tables|
  {
    if tables != [] {
      var images, root', live' := OneOpens(plan, root, tables[0], live, resume);
      var rest := OpenAll(root', tables[1..], requested, live', resume);
      OpenAllUnfolds(root, tables, requested, live, resume, 0, images, root', live', rest, run, 0);
      OpenAllDone(plan, root', tables[1..], requested, live', resume, rest);
      OpenedAllStep(root, root', Last(root', rest.images), rest.live, live, live', tables, resume);
    }
  }

  lemma OpenedAllStep(root: Root, root': Root, x: Root, opened': Option<Live>, live: Live, live': Live, tables: seq<Table>,
                      resume: Option<int>)
    requires tables != [] && HasAllTables(root) && HasAllTables(root')
    requires OpenedAll(x, opened', root', live', tables[1..], resume) && SameKept(root', root, resume)
    requires root'.tables[tables[0]].parts == Kept(root.tables[tables[0]].parts, resume)
    requires live' == live.(mems := live.mems[tables[0] := MemOf(root'.tables[tables[0]].parts)])
    requires forall u: Table | u != tables[0] :: root'.tables[u] == root.tables[u]
    ensures OpenedAll(x, opened', root, live, tables, resume)
  {
    OpenedRest(root, root', x, opened'.value, live', tables, resume);
    UntouchedRest(root, root', x, opened'.value, live', live, tables);
  }

  lemma UntouchedRest(root: Root, root': Root, x: Root, live'': Live, live': Live, live: Live, tables: seq<Table>)
    requires tables != [] && HasAllTables(root) && HasAllTables(root') && HasAllTables(x)
    requires Untouched(x, live'', root', live', tables[1..])
    requires forall u: Table | u != tables[0] :: root'.tables[u] == root.tables[u]
    requires forall u: Table | u != tables[0] && u in live.mems :: u in live'.mems && live'.mems[u] == live.mems[u]
    ensures Untouched(x, live'', root, live, tables)
  {
    assert tables == [tables[0]] + tables[1..];
  }

  ghost predicate Untouched(x: Root, live': Live, root: Root, live: Live, tables: seq<Table>)
    requires HasAllTables(x) && HasAllTables(root)
  {
    forall t: Table | t !in tables ::
      x.tables[t] == root.tables[t] && (t in live.mems ==> t in live'.mems && live'.mems[t] == live.mems[t])
  }

  lemma OpenedRest(root: Root, root': Root, x: Root, live'': Live, live': Live, tables: seq<Table>, resume: Option<int>)
    requires tables != [] && HasAllTables(root) && HasAllTables(root') && HasAllTables(x)
    requires SameKept(root', root, resume) && OpenedAs(x, live'', root', tables[1..], resume)
    requires Untouched(x, live'', root', live', tables[1..])
    requires var t := tables[0];
             && root'.tables[t].parts == Kept(root.tables[t].parts, resume)
             && t in live'.mems && live'.mems[t] == MemOf(root'.tables[t].parts)
    ensures OpenedAs(x, live'', root, tables, resume)
  {
    forall t: Table | t in tables
      ensures t in live''.mems && Coherent(x.tables[t], live''.mems[t])
      ensures x.tables[t].parts == Kept(root.tables[t].parts, resume)
    {
      if t in tables[1..] {
        assert Kept(root'.tables[t].parts, resume) == Kept(root.tables[t].parts, resume);
      } else {
        assert t == tables[0];
      }
    }
  }
}
