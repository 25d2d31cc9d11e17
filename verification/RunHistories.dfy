/** Output roots that any number of processes have worked on: each starts over or resumes at a step of its choice,
    and each is killed anywhere. */
module RunHistories {
  import opened Options
  import opened PartLog
  import opened PartLogLaws
  import opened OutputDisk
  import opened RunModel
  import opened Subsequences
  import opened RunLaws
  import opened RunSteps
  import opened RunTheorems

  ghost predicate NothingCommitted(root: Root)
    requires HasAllTables(root)
  {
    forall t: Table :: root.tables[t].parts == []
  }

  /** The table and the batch of the first op of a plan. */
  function FirstTable(plan: Plan): Table
    requires plan.ops != [] && !plan.ops[0].CheckpointOp?
  {
    OpTable(plan.ops[0])
  }

  function FirstBatch(plan: Plan): Batch
    requires plan.ops != [] && !plan.ops[0].CheckpointOp?
  {
    Strip(OpRows(plan.config, plan.ops[0], 0, None))
  }

  ghost predicate HasFirst(plan: Plan, root: Root)
    requires HasAllTables(root)
  {
    && plan.ops != [] && !plan.ops[0].CheckpointOp?
    && FirstBatch(plan) in View(root.tables[FirstTable(plan)].parts)
  }

  /** As soon as anything is committed, the first batch of the plan is there; no resume ever removes it. */
  ghost predicate Anchored(plan: Plan, root: Root)
    requires HasAllTables(root)
  {
    (NothingCommitted(root) && root.sidecars == map[]) || HasFirst(plan, root)
  }

  /** What every history of processes keeps. */
  ghost predicate Traced(plan: Plan, root: Root) {
    Faithful(plan, root) && AllGenuine(plan, root) && Anchored(plan, root)
  }

  // ----- positions -----

  /** The position after a checkpoint's step is the one right after the checkpoint. */
  lemma CheckpointPosition(plan: Plan, n: nat)
    requires WellFormed(plan) && n < |plan.ops| && plan.ops[n].CheckpointOp?
    ensures PositionAfter(plan.ops, plan.ops[n].step) == n + 1
  {
    var c := PositionAfter(plan.ops, plan.ops[n].step);
    PositionSplits(plan.ops, plan.ops[n].step);
    assert n < c;
    if n + 1 < |plan.ops| {
      assert plan.ops[n].step < plan.ops[n + 1].step;
    }
  }

  ghost predicate Exact(plan: Plan, heads: Heads, c: nat) {
    c <= |plan.ops| && forall t: Table :: t in heads && heads[t] == Window(plan, 0, c, t)
  }

  lemma ExactPosition(plan: Plan, x: Root, heads: Heads, c: nat, m: nat)
    requires Exact(plan, heads, c) && c <= m <= |plan.ops| && HasAllTables(x)
    requires forall t: Table :: TableAt(plan, x.tables[t], t, heads[t], c, m)
    ensures AtPosition(plan, x, m)
  {
    forall t: Table
      ensures View(x.tables[t].parts) == Window(plan, 0, m, t)
    {
      assert TableAt(plan, x.tables[t], t, heads[t], c, m);
      WindowSplit(plan, 0, c, m, t);
    }
  }

  /** A plan does not begin with a checkpoint. */
  lemma FirstOpCommits(plan: Plan)
    requires WellFormed(plan) && plan.ops != []
    ensures !plan.ops[0].CheckpointOp?
  {
  }

  lemma FirstIsFirst(plan: Plan, m: nat)
    requires WellFormed(plan) && 0 < m <= |plan.ops|
    ensures !plan.ops[0].CheckpointOp? && FirstBatch(plan) in Window(plan, 0, m, FirstTable(plan))
  {
    FirstOpCommits(plan);
    var t := FirstTable(plan);
    WindowSplit(plan, 0, 1, m, t);
    assert Contribution(plan, 0, t) == [FirstBatch(plan)];
    assert Window(plan, 0, 1, t) == [] + [FirstBatch(plan)];
    assert FirstBatch(plan) in [FirstBatch(plan)];
  }

  // ----- emitting -----

  /** What a session that began to emit at c found: the first batch, or nothing at all. */
  ghost predicate Rooted(plan: Plan, heads: Heads, c: nat) {
    c > 0 ==> plan.ops != [] && !plan.ops[0].CheckpointOp? && FirstTable(plan) in heads
              && FirstBatch(plan) in heads[FirstTable(plan)]
  }

  lemma StageAnchored(plan: Plan, x: Root, heads: Heads, c: nat, m: nat)
    requires WellFormed(plan) && c <= m <= |plan.ops| && HasAllTables(x) && Rooted(plan, heads, c)
    requires forall t: Table :: t in heads && Subseq(heads[t], Window(plan, 0, c, t))
    requires forall t: Table :: TableAt(plan, x.tables[t], t, heads[t], c, m)
    requires m == 0 ==> x.sidecars == map[]
    ensures Anchored(plan, x)
  {
    if m == 0 {
      forall t: Table
        ensures x.tables[t].parts == []
      {
        assert TableAt(plan, x.tables[t], t, heads[t], c, m);
        SubseqLength(heads[t], Window(plan, 0, c, t));
        assert |View(x.tables[t].parts)| == 0;
      }
    } else {
      FirstIsFirst(plan, m);
      var t := FirstTable(plan);
      assert TableAt(plan, x.tables[t], t, heads[t], c, m);
      if c == 0 {
        SubseqLength(heads[t], Window(plan, 0, c, t));
        assert heads[t] + Window(plan, c, m, t) == Window(plan, 0, m, t);
      }
    }
  }

  /** A sidecar written by any session is genuine. */
  lemma NewSidecar(plan: Plan, root: Root, live: Live, heads: Heads, c: nat, n: nat)
    requires WellFormed(plan) && Stage(plan, root, live, heads, c, n) && n < |plan.ops| && plan.ops[n].CheckpointOp?
    ensures Genuine(plan, plan.ops[n].step, SidecarOf(plan.config, live))
  {
    CheckpointPosition(plan, n);
    var sidecar := SidecarOf(plan.config, live);
    forall t: Table
      ensures t in sidecar.partCounts
    {
      EveryTableListed(t);
    }
  }

  /** Its part counts are what the tables hold. */
  lemma SidecarCounts(plan: Plan, root: Root, live: Live, heads: Heads, c: nat, n: nat, t: Table)
    requires Stage(plan, root, live, heads, c, n)
    ensures t in SidecarOf(plan.config, live).partCounts
    ensures SidecarOf(plan.config, live).partCounts[t] == |root.tables[t].parts| == |heads[t]| + |Window(plan, c, n, t)|
  {
    EveryTableListed(t);
    assert TableAt(plan, root.tables[t], t, heads[t], c, n) && Coherent(root.tables[t], live.mems[t]);
    assert |View(root.tables[t].parts)| == |root.tables[t].parts|;
  }

  /** Without gaps it is honest. */
  lemma ExactSidecar(plan: Plan, root: Root, live: Live, heads: Heads, c: nat, n: nat)
    requires WellFormed(plan) && Stage(plan, root, live, heads, c, n) && Exact(plan, heads, c)
    requires n < |plan.ops| && plan.ops[n].CheckpointOp?
    ensures Honest(plan, plan.ops[n].step, SidecarOf(plan.config, live))
  {
    NewSidecar(plan, root, live, heads, c, n);
    CheckpointPosition(plan, n);
    forall t: Table
      ensures SidecarOf(plan.config, live).partCounts[t] == |Window(plan, 0, n + 1, t)|
    {
      SidecarCounts(plan, root, live, heads, c, n, t);
      WindowSplit(plan, 0, c, n, t);
      SameWindow(plan, 0, n, t);
    }
  }

  /** Sidecars after a killed op. */
  lemma GenuineAfterOp(plan: Plan, root: Root, live: Live, heads: Heads, c: nat, n: nat, uuid: Uuid, fuel: nat, x: Root)
    requires WellFormed(plan) && Stage(plan, root, live, heads, c, n) && n < |plan.ops| && AllGenuine(plan, root)
    requires x == At(root, OpImages(plan.config, root, live, plan.ops[n], uuid), fuel)
    ensures AllGenuine(plan, x)
    ensures !plan.ops[n].CheckpointOp? ==> x.sidecars == root.sidecars
  {
    OpFrame(plan.config, root, live, plan.ops[n], uuid, fuel);
    if plan.ops[n].CheckpointOp? {
      NewSidecar(plan, root, live, heads, c, n);
    }
  }

  lemma AnchoredAfterOp(plan: Plan, root: Root, live: Live, heads: Heads, c: nat, n: nat, uuid: Uuid, fuel: nat, x: Root)
    requires WellFormed(plan) && Stage(plan, root, live, heads, c, n) && n < |plan.ops| && Rooted(plan, heads, c)
    requires x == At(root, OpImages(plan.config, root, live, plan.ops[n], uuid), fuel)
    requires n == 0 ==> x.sidecars == map[]
    ensures HasAllTables(x) && Anchored(plan, x)
  {
    var m := if !plan.ops[n].CheckpointOp? && fuel < 3 then n else n + 1;
    StageAccepts(plan, root, live, heads, c, n);
    StageCrash(plan, root, live, heads, c, n, uuid, fuel);
    StageAnchored(plan, x, heads, c, m);
  }

  /** A session that emits, on a root that satisfies the invariant. */
  ghost predicate Emitting(plan: Plan, root: Root, live: Live, heads: Heads, c: nat, n: nat) {
    && Stage(plan, root, live, heads, c, n) && Rooted(plan, heads, c)
    && AllGenuine(plan, root) && (n == 0 ==> root.sidecars == map[])
  }

  /** What is on disk after a killed op. */
  lemma TracedAfterOp(plan: Plan, root: Root, live: Live, heads: Heads, c: nat, n: nat, uuid: Uuid, fuel: nat, x: Root)
    requires WellFormed(plan) && Emitting(plan, root, live, heads, c, n) && n < |plan.ops|
    requires x == At(root, OpImages(plan.config, root, live, plan.ops[n], uuid), fuel)
    ensures Traced(plan, x)
  {
    FirstOpCommits(plan);
    StageAccepts(plan, root, live, heads, c, n);
    ImageFaithful(plan, root, live, heads, c, n, uuid, fuel);
    GenuineAfterOp(plan, root, live, heads, c, n, uuid, fuel, x);
    AnchoredAfterOp(plan, root, live, heads, c, n, uuid, fuel, x);
  }

  lemma EmittingNext(plan: Plan, root: Root, live: Live, heads: Heads, c: nat, n: nat, nonce: nat, next: nat,
                     images: seq<Root>, root': Root, live': Live)
    requires WellFormed(plan) && Emitting(plan, root, live, heads, c, n) && n < |plan.ops| && next == n + 1
    requires images == OpImages(plan.config, root, live, plan.ops[n], (nonce, n)) && root' == Last(root, images)
    requires live' == OpLive(plan.config, live, plan.ops[n], (nonce, n))
    ensures Emitting(plan, root', live', heads, c, next)
  {
    StageAccepts(plan, root, live, heads, c, n);
    StageStep(plan, root, live, heads, c, n, (nonce, n), root', live', next);
    assert root' == At(root, images, |images|);
    GenuineAfterOp(plan, root, live, heads, c, n, (nonce, n), |images|, root');
  }

  lemma SameTraced(plan: Plan, x: Root, y: Root)
    requires Traced(plan, y) && x == y
    ensures Traced(plan, x)
  {
  }

  lemma EmissionEnd(plan: Plan, root: Root, live: Live, heads: Heads, c: nat, n: nat)
    requires WellFormed(plan) && Emitting(plan, root, live, heads, c, n)
    ensures Traced(plan, root)
  {
    StageFaithful(plan, root, heads, c, n);
    StageAnchored(plan, root, heads, c, n);
  }

  /** Emitting keeps the invariant at every crash point, with or without gaps. */
  lemma {:induction false} EmissionCrash(plan: Plan, root: Root, live: Live, heads: Heads, c: nat, n: nat, nonce: nat,
                                         fuel: nat, run: Run)
    requires WellFormed(plan) && Emitting(plan, root, live, heads, c, n)
    requires run == OpsRun(plan, root, live, n, nonce)
    ensures Traced(plan, At(root, run.images, fuel))
    decreases |plan.ops| - n
  {
    if n == |plan.ops| {
      EmissionEnd(plan, root, live, heads, c, n);
      SameTraced(plan, At(root, run.images, fuel), root);
    } else {
      var next := n + 1;
      StageAccepts(plan, root, live, heads, c, n);
      var images, root', live', rest := OpsUnfold(plan, root, live, n, nonce);
      var left := LeftAfter(images, fuel);
      PrependImages(root, images, rest, fuel, left);
      if fuel <= |images| {
        TracedAfterOp(plan, root, live, heads, c, n, (nonce, n), fuel, At(root, images, fuel));
        SameTraced(plan, At(root, run.images, fuel), At(root, images, fuel));
      } else {
        EmittingNext(plan, root, live, heads, c, n, nonce, next, images, root', live');
        EmissionCrash(plan, root', live', heads, c, next, nonce, left, rest);
        SameTraced(plan, At(root, run.images, fuel), At(root', rest.images, left));
      }
    }
  }

  /** Sidecars after a killed op of a session without gaps. */
  lemma HonestAfterOp(plan: Plan, root: Root, live: Live, heads: Heads, c: nat, n: nat, uuid: Uuid, fuel: nat, x: Root)
    requires WellFormed(plan) && Stage(plan, root, live, heads, c, n) && n < |plan.ops|
    requires Exact(plan, heads, c) && AllHonest(plan, root)
    requires x == At(root, OpImages(plan.config, root, live, plan.ops[n], uuid), fuel)
    ensures AllHonest(plan, x)
  {
    OpFrame(plan.config, root, live, plan.ops[n], uuid, fuel);
    if plan.ops[n].CheckpointOp? {
      ExactSidecar(plan, root, live, heads, c, n);
    }
  }

  lemma SameHonest(plan: Plan, x: Root, y: Root)
    requires AllHonest(plan, y) && x == y
    ensures AllHonest(plan, x)
  {
  }

  /** Emitting without gaps leaves honest sidecars only. */
  lemma {:induction false} HonestEmission(plan: Plan, root: Root, live: Live, heads: Heads, c: nat, n: nat, nonce: nat,
                                          fuel: nat, run: Run)
    requires WellFormed(plan) && Stage(plan, root, live, heads, c, n) && Exact(plan, heads, c) && AllHonest(plan, root)
    requires run == OpsRun(plan, root, live, n, nonce)
    ensures AllHonest(plan, At(root, run.images, fuel))
    decreases |plan.ops| - n
  {
    if n == |plan.ops| {
      SameHonest(plan, At(root, run.images, fuel), root);
    } else {
      var next := n + 1;
      var images, root', live', rest := EmitNext(plan, root, live, heads, c, n, nonce, run, next);
      var left := LeftAfter(images, fuel);
      PrependImages(root, images, rest, fuel, left);
      if fuel <= |images| {
        HonestAfterOp(plan, root, live, heads, c, n, (nonce, n), fuel, At(root, images, fuel));
        SameHonest(plan, At(root, run.images, fuel), At(root, images, fuel));
      } else {
        assert root' == At(root, images, |images|);
        HonestAfterOp(plan, root, live, heads, c, n, (nonce, n), |images|, root');
        HonestEmission(plan, root', live', heads, c, next, nonce, left, rest);
        SameHonest(plan, At(root, run.images, fuel), At(root', rest.images, left));
      }
    }
  }

  // ----- a resumed process -----

  /** A checkpoint comes after the first op. */
  lemma CheckpointIsLater(plan: Plan, s: int)
    requires WellFormed(plan) && CheckpointOp(s) in plan.ops
    ensures PositionAfter(plan.ops, s) > 0 && !plan.ops[0].CheckpointOp? && plan.ops[0].step <= s
  {
    var n :| 0 <= n < |plan.ops| && plan.ops[n] == CheckpointOp(s);
    CheckpointPosition(plan, n);
    FirstOpCommits(plan);
  }

  lemma PartOfBatch(parts: seq<Part>, b: Batch) returns (p: Part)
    requires b in View(parts)
    ensures p in parts && Strip(p.rows) == b
  {
    var i :| 0 <= i < |parts| && View(parts)[i] == b;
    p := parts[i];
  }

  lemma BatchOfPart(parts: seq<Part>, p: Part)
    requires p in parts
    ensures Strip(p.rows) in View(parts)
  {
    var i :| 0 <= i < |parts| && parts[i] == p;
    assert View(parts)[i] == Strip(p.rows);
  }

  /** No resume at a checkpoint removes the first batch of the plan. */
  lemma FirstIsKept(plan: Plan, root: Root, s: int)
    requires WellFormed(plan) && Faithful(plan, root) && HasFirst(plan, root) && CheckpointOp(s) in plan.ops
    ensures FirstBatch(plan) in View(Kept(root.tables[FirstTable(plan)].parts, Some(s)))
  {
    CheckpointIsLater(plan, s);
    var t := FirstTable(plan);
    var p := PartOfBatch(root.tables[t].parts, FirstBatch(plan));
    FirstRowsStep(plan, p.rows, s);
    assert FateOf(p, None) == Keep;
    KeptMembers(root.tables[t].parts, Some(s));
    BatchOfPart(Kept(root.tables[t].parts, Some(s)), p);
  }

  lemma FirstRowsStep(plan: Plan, rows: seq<Row>, s: int)
    requires WellFormed(plan) && plan.ops != [] && !plan.ops[0].CheckpointOp? && plan.ops[0].step <= s
    requires Strip(rows) == FirstBatch(plan)
    ensures !HasFuture(rows, Some(s))
  {
    StripFuture(rows, Some(s));
    StripFuture(OpRows(plan.config, plan.ops[0], 0, None), Some(s));
    assert GoodBatch(plan.ops[0]);
  }

  lemma KeptHasFirst(plan: Plan, x: Root, root: Root, s: int)
    requires HasAllTables(root) && HasFirst(plan, root) && SameKept(x, root, Some(s))
    requires FirstBatch(plan) in View(Kept(root.tables[FirstTable(plan)].parts, Some(s)))
    ensures HasFirst(plan, x)
  {
    var t := FirstTable(plan);
    var p := PartOfBatch(Kept(x.tables[t].parts, Some(s)), FirstBatch(plan));
    KeptMembers(x.tables[t].parts, Some(s));
    BatchOfPart(x.tables[t].parts, p);
  }

  lemma SidecarMeansFirst(plan: Plan, root: Root, s: int)
    requires Traced(plan, root) && s in root.sidecars
    ensures HasFirst(plan, root) && Genuine(plan, s, root.sidecars[s])
  {
  }

  lemma ResumedStart(plan: Plan, root: Root, s: int, fuel: nat, start: Run)
    requires WellFormed(plan) && Traced(plan, root) && s in root.sidecars
    requires start == StartRun(plan.config, root, Some(s))
    ensures Traced(plan, At(root, start.images, fuel))
    ensures At(root, start.images, fuel).sidecars == root.sidecars
  {
    SidecarMeansFirst(plan, root, s);
    ResumeStartCrash(plan, root, s, fuel, start);
    FirstIsKept(plan, root, s);
    KeptHasFirst(plan, At(root, start.images, fuel), root, s);
  }

  lemma ResumedRooted(plan: Plan, root: Root, s: int)
    requires WellFormed(plan) && Traced(plan, root) && s in root.sidecars
    ensures Rooted(plan, HeadsAfter(root, s), PositionAfter(plan.ops, s)) && PositionAfter(plan.ops, s) > 0
  {
    SidecarMeansFirst(plan, root, s);
    CheckpointIsLater(plan, s);
    FirstIsKept(plan, root, s);
  }

  lemma CoveredIsExact(plan: Plan, root: Root, s: int)
    requires Covered(plan, root, s)
    ensures Exact(plan, HeadsAfter(root, s), PositionAfter(plan.ops, s))
  {
  }

  /** A process that resumes keeps the invariant wherever it dies, and honest sidecars if nothing was missing. */
  lemma ResumedLife(plan: Plan, root: Root, s: int, nonce: nat, fuel: nat, x: Root)
    requires WellFormed(plan) && Traced(plan, root) && s in root.sidecars
    requires x == At(root, SessionRun(plan, root, Some(s), nonce).images, fuel)
    ensures Traced(plan, x)
    ensures AllHonest(plan, root) && Covered(plan, root, s) ==> AllHonest(plan, x)
  {
    SidecarMeansFirst(plan, root, s);
    var start, root', rest := SessionParts(plan, root, s, nonce);
    var left := LeftAfter(start.images, fuel);
    SessionImages(plan, root, s, nonce, fuel, start, root', rest, left);
    ResumedStart(plan, root, s, fuel, start);
    if fuel <= |start.images| {
      SameTraced(plan, x, At(root, start.images, fuel));
    } else {
      ResumedEmission(plan, root, s, nonce, left, start, root', rest);
      SameTraced(plan, x, At(root', rest.images, left));
    }
  }

  lemma ResumedEmission(plan: Plan, root: Root, s: int, nonce: nat, fuel: nat, start: Run, root': Root, rest: Run)
    requires WellFormed(plan) && Traced(plan, root) && s in root.sidecars
    requires Parts(plan, root, s, nonce, start, root', rest)
    ensures Traced(plan, At(root', rest.images, fuel))
    ensures AllHonest(plan, root) && Covered(plan, root, s) ==> AllHonest(plan, At(root', rest.images, fuel))
  {
    var c, heads := PositionAfter(plan.ops, s), HeadsAfter(root, s);
    SidecarMeansFirst(plan, root, s);
    ResumeStage(plan, root, s);
    ResumedRooted(plan, root, s);
    ResumedStart(plan, root, s, |start.images|, start);
    assert root' == At(root, start.images, |start.images|);
    EmissionCrash(plan, root', start.live.value, heads, c, c, nonce, fuel, rest);
    if AllHonest(plan, root) && Covered(plan, root, s) {
      CoveredIsExact(plan, root, s);
      HonestEmission(plan, root', start.live.value, heads, c, c, nonce, fuel, rest);
    }
  }

  // ----- a process that starts over -----

  lemma FreshOpens(plan: Plan, root: Root, fuel: nat)
    requires Faithful(plan, root)
    ensures var run := StartRun(plan.config, root, None);
            && run.live.Some? && Complete(run.live.value) && run.live.value.optimizerStep == 0
            && HasAllTables(Last(root, run.images)) && Faithful(plan, Last(root, run.images))
            && SameKept(Last(root, run.images), root, None)
            && (forall t: Table :: Coherent(Last(root, run.images).tables[t], run.live.value.mems[t]))
            && Faithful(plan, At(root, run.images, fuel)) && SameKept(At(root, run.images, fuel), root, None)
  {
    var live := Live(map[], 0, None);
    var run := OpenAll(root, WRITER_TABLES, AllTables(), live, None);
    OpensEvery(plan, root, AllTables(), live, None, run);
    OpenAllCrash(plan, root, WRITER_TABLES, AllTables(), live, None, fuel, run);
    forall t: Table
      ensures t in WRITER_TABLES
    {
      EveryTableListed(t);
    }
  }

  /** The parts of a process that starts over. */
  ghost predicate FreshParts(plan: Plan, root: Root, nonce: nat, start: Run, root': Root, rest: Run)
    requires HasAllTables(root)
  {
    && start == StartRun(plan.config, root, None) && root' == Last(root, start.images)
    && start.live.Some? && HasAllTables(root') && Complete(start.live.value)
    && rest == OpsRun(plan, root', start.live.value, 0, nonce)
  }

  lemma FreshSplit(plan: Plan, root: Root, nonce: nat) returns (start: Run, root': Root, rest: Run)
    requires Faithful(plan, root)
    ensures FreshParts(plan, root, nonce, start, root', rest)
  {
    FreshOpens(plan, root, 0);
    start := StartRun(plan.config, root, None);
    root' := Last(root, start.images);
    rest := OpsRun(plan, root', start.live.value, 0, nonce);
  }

  lemma FreshImages(plan: Plan, root: Root, nonce: nat, fuel: nat, start: Run, root': Root, rest: Run, left: nat)
    requires HasAllTables(root) && FreshParts(plan, root, nonce, start, root', rest) && left == LeftAfter(start.images, fuel)
    ensures SessionRun(plan, root, None, nonce).live == rest.live
    ensures Last(root, SessionRun(plan, root, None, nonce).images) == Last(root', rest.images)
    ensures fuel <= |start.images| ==> At(root, SessionRun(plan, root, None, nonce).images, fuel) == At(root, start.images, fuel)
    ensures fuel > |start.images| ==> At(root, SessionRun(plan, root, None, nonce).images, fuel) == At(root', rest.images, left)
  {
    assert SessionRun(plan, root, None, nonce) == Prepend(start.images, rest);
    PrependImages(root, start.images, rest, fuel, left);
  }

  function NoHeads(root: Root): Heads {
    map t: Table | t in root.tables :: []
  }

  lemma FreshStage(plan: Plan, root: Root, live: Live)
    requires Faithful(plan, root) && NothingCommitted(root) && Complete(live) && live.optimizerStep == 0
    requires forall t: Table :: Coherent(root.tables[t], live.mems[t])
    ensures Stage(plan, root, live, NoHeads(root), 0, 0) && Exact(plan, NoHeads(root), 0)
  {
  }

  lemma RefusedBatch(mem: Mem, rows: seq<Row>, batches: seq<Batch>, b: Batch)
    requires rows != [] && UniqueKeys(rows) && (forall row | row in rows :: row.key.Some? && row.conforms)
    requires b in batches && KeySet(b) == KeySet(rows) && mem.keys == BatchKeys(batches)
    ensures AppendError(mem, rows) == Some(DuplicateCommitted)
  {
    var k := rows[0].key.value;
    assert rows[0] in rows && k in KeySet(rows);
    var row :| row in b && row.key == Some(k);
    assert k in BatchKeys(batches);
    assert k in KeySet(rows) * mem.keys;
  }

  /** Starting over on tables that already hold rows is refused at the first op. */
  lemma RestartIsRefused(plan: Plan, root: Root, live: Live)
    requires WellFormed(plan) && HasAllTables(root) && HasFirst(plan, root) && Complete(live)
    requires forall t: Table :: Coherent(root.tables[t], live.mems[t])
    ensures OpError(plan.config, live, plan.ops[0]) == Some(DuplicateCommitted)
  {
    var op, t := plan.ops[0], FirstTable(plan);
    assert Coherent(root.tables[t], live.mems[t]);
    ViewKeys(root.tables[t].parts);
    StripKeys(OpRows(plan.config, op, 0, None));
    OpKeys(plan.config, op, live.optimizerStep, live.resumeMark);
    OpRowsGood(plan, 0, live.optimizerStep, live.resumeMark);
    RefusedBatch(live.mems[t], OpRows(plan.config, op, live.optimizerStep, live.resumeMark),
                 View(root.tables[t].parts), FirstBatch(plan));
  }

  lemma SameParts(plan: Plan, root: Root, x: Root)
    requires Traced(plan, root) && Faithful(plan, x) && SameKept(x, root, None)
    ensures Traced(plan, x) && (NothingCommitted(x) <==> NothingCommitted(root)) && x.sidecars == root.sidecars
  {
  }

  /** A process that starts over keeps the invariant wherever it dies: it begins on empty tables, or is refused
      before it writes anything. */
  lemma FreshLife(plan: Plan, root: Root, nonce: nat, fuel: nat, x: Root)
    requires WellFormed(plan) && Traced(plan, root)
    requires x == At(root, SessionRun(plan, root, None, nonce).images, fuel)
    ensures Traced(plan, x)
    ensures AllHonest(plan, root) ==> AllHonest(plan, x)
  {
    var start, root', rest := FreshSplit(plan, root, nonce);
    var left := LeftAfter(start.images, fuel);
    FreshImages(plan, root, nonce, fuel, start, root', rest, left);
    if fuel <= |start.images| {
      FreshOpens(plan, root, fuel);
      SameParts(plan, root, At(root, start.images, fuel));
      SameTraced(plan, x, At(root, start.images, fuel));
    } else {
      FreshEmission(plan, root, nonce, left, start, root', rest);
      SameTraced(plan, x, At(root', rest.images, left));
    }
  }

  lemma SameHonestFrom(plan: Plan, x: Root, y: Root)
    requires x.sidecars == y.sidecars
    ensures AllHonest(plan, y) ==> AllHonest(plan, x)
  {
  }

  lemma RefusedEmission(plan: Plan, root: Root, live: Live, nonce: nat, run: Run)
    requires WellFormed(plan) && HasAllTables(root) && HasFirst(plan, root) && Complete(live)
    requires forall t: Table :: Coherent(root.tables[t], live.mems[t])
    requires run == OpsRun(plan, root, live, 0, nonce)
    ensures run == Run([], None)
  {
    RestartIsRefused(plan, root, live);
  }

  lemma EmptyEmission(plan: Plan, root: Root, live: Live, nonce: nat, fuel: nat, run: Run)
    requires WellFormed(plan) && Stage(plan, root, live, NoHeads(root), 0, 0) && Exact(plan, NoHeads(root), 0)
    requires root.sidecars == map[] && run == OpsRun(plan, root, live, 0, nonce)
    ensures Traced(plan, At(root, run.images, fuel)) && AllHonest(plan, At(root, run.images, fuel))
  {
    EmissionCrash(plan, root, live, NoHeads(root), 0, 0, nonce, fuel, run);
    HonestEmission(plan, root, live, NoHeads(root), 0, 0, nonce, fuel, run);
  }

  /** Where a process that starts over stands when it begins to emit: at the very beginning, or at its end. */
  lemma FreshBegins(plan: Plan, root: Root, nonce: nat, start: Run, root': Root, rest: Run)
    requires WellFormed(plan) && Traced(plan, root) && FreshParts(plan, root, nonce, start, root', rest)
    ensures Traced(plan, root') && root'.sidecars == root.sidecars && root'.latest == root.latest
    ensures NothingCommitted(root) ==>
              && NothingCommitted(root') && Stage(plan, root', start.live.value, NoHeads(root'), 0, 0)
              && Exact(plan, NoHeads(root'), 0)
    ensures !NothingCommitted(root) ==> rest == Run([], None)
  {
    FreshOpens(plan, root, 0);
    SameParts(plan, root, root');
    if NothingCommitted(root) {
      FreshStage(plan, root', start.live.value);
    } else {
      RefusedEmission(plan, root', start.live.value, nonce, rest);
    }
  }

  lemma FreshEmission(plan: Plan, root: Root, nonce: nat, fuel: nat, start: Run, root': Root, rest: Run)
    requires WellFormed(plan) && Traced(plan, root) && FreshParts(plan, root, nonce, start, root', rest)
    ensures Traced(plan, At(root', rest.images, fuel))
    ensures AllHonest(plan, root) ==> AllHonest(plan, At(root', rest.images, fuel))
  {
    FreshBegins(plan, root, nonce, start, root', rest);
    if NothingCommitted(root) {
      EmptyEmission(plan, root', start.live.value, nonce, fuel, rest);
    } else {
      SameTraced(plan, At(root', rest.images, fuel), root');
      SameHonestFrom(plan, At(root', rest.images, fuel), root);
    }
  }

  /** A process that starts over finishes the run exactly when nothing has been committed yet. */
  lemma FreshFinishesIff(plan: Plan, root: Root, nonce: nat)
    requires WellFormed(plan) && Traced(plan, root)
    ensures var run := SessionRun(plan, root, None, nonce);
            && (run.live.Some? <==> NothingCommitted(root))
            && (run.live.Some? ==> AtPosition(plan, Last(root, run.images), |plan.ops|))
  {
    var start, root', rest := FreshSplit(plan, root, nonce);
    FreshImages(plan, root, nonce, 0, start, root', rest, 0);
    FreshBegins(plan, root, nonce, start, root', rest);
    if NothingCommitted(root) {
      OpsCrash(plan, root', start.live.value, NoHeads(root'), 0, 0, nonce, 0, rest);
      FreshDone(plan, Last(root', rest.images), root');
    }
  }

  lemma FreshDone(plan: Plan, x: Root, root: Root)
    requires HasAllTables(root) && PlanDone(plan, x, NoHeads(root), 0)
    ensures AtPosition(plan, x, |plan.ops|)
  {
    forall t: Table
      ensures View(x.tables[t].parts) == Full(plan, t)
    {
      assert NoHeads(root)[t] + Window(plan, 0, |plan.ops|, t) == Full(plan, t);
    }
  }

  // ----- any number of processes -----

  /** A process that cannot start leaves everything as it is. */
  lemma DeniedLife(plan: Plan, root: Root, s: int, nonce: nat)
    requires HasAllTables(root) && s !in root.sidecars
    ensures SessionRun(plan, root, Some(s), nonce) == Run([], None)
  {
  }

  /** A resume that passes the count check, if it is accepted at all. */
  ghost predicate PassesCheck(root: Root, mode: Mode)
    requires HasAllTables(root)
  {
    match StartOf(root, mode)
    case From(Some(s)) => s in root.sidecars ==> CountsCovered(root, s)
    case _ => true
  }

  lemma OneLife(plan: Plan, root: Root, life: Life, nonce: nat)
    requires WellFormed(plan) && Traced(plan, root)
    ensures Traced(plan, AfterLife(plan, root, life, nonce))
    ensures AllHonest(plan, root) && PassesCheck(root, life.mode) ==> AllHonest(plan, AfterLife(plan, root, life, nonce))
  {
    match StartOf(root, life.mode)
    case Fails =>
    case From(None) => FreshLife(plan, root, nonce, life.fuel, AfterLife(plan, root, life, nonce));
    case From(Some(s)) =>
      if s in root.sidecars {
        if AllHonest(plan, root) {
          CountsDecide(plan, root, s);
        }
        ResumedLife(plan, root, s, nonce, life.fuel, AfterLife(plan, root, life, nonce));
      } else {
        DeniedLife(plan, root, s, nonce);
      }
  }

  /** Whatever the processes do, every table stays sound and holds batches of the uninterrupted run in its order,
      and every sidecar carries the optimizer step of the uninterrupted run. */
  lemma {:induction false} HistoriesAreTraced(plan: Plan, root: Root, lives: seq<Life>)
    requires WellFormed(plan) && Traced(plan, root)
    ensures Traced(plan, Lives(plan, root, lives))
    decreases |lives|
  {
    if lives != [] {
      OneLife(plan, root, lives[0], |lives|);
      HistoriesAreTraced(plan, AfterLife(plan, root, lives[0], |lives|), lives[1..]);
    }
  }

  /** Every resume of a history passed the count check when it was made. */
  ghost predicate Checked(plan: Plan, root: Root, lives: seq<Life>)
    decreases |lives|
  {
    lives != [] && HasAllTables(root) ==>
      PassesCheck(root, lives[0].mode) && Checked(plan, AfterLife(plan, root, lives[0], |lives|), lives[1..])
  }

  /** If every resume passes the check, every sidecar ever written is honest. */
  lemma {:induction false} CheckedHistoriesAreHonest(plan: Plan, root: Root, lives: seq<Life>)
    requires WellFormed(plan) && Traced(plan, root) && AllHonest(plan, root) && Checked(plan, root, lives)
    ensures AllHonest(plan, Lives(plan, root, lives))
    decreases |lives|
  {
    if lives != [] {
      OneLife(plan, root, lives[0], |lives|);
      CheckedHistoriesAreHonest(plan, AfterLife(plan, root, lives[0], |lives|), lives[1..]);
    }
  }

  lemma OneLifeOnly(plan: Plan, root: Root, life: Life, x: Root)
    requires HasAllTables(root) && x == AfterLife(plan, root, life, 1)
    ensures Lives(plan, root, [life]) == x
  {
    var lives := [life];
    assert lives[0] == life && lives[1..] == [];
    assert Lives(plan, x, []) == x;
  }

  /** An output root nobody has worked on. */
  ghost predicate Blank(plan: Plan, root: Root) {
    Traced(plan, root) && AllHonest(plan, root) && NothingCommitted(root) && root.latest.Unset?
  }

  lemma EmptyIsBlank(plan: Plan)
    ensures Blank(plan, EmptyRoot())
  {
    forall t: Table
      ensures t in EmptyRoot().tables && EmptyRoot().tables[t] == EMPTY_DIR
    {
      EveryTableListed(t);
    }
  }

  /** Resuming after any history whatever: the session ends, and its tables are those of an uninterrupted run if
      and only if what the resume kept is all that an uninterrupted run would have written through s. */
  lemma ResumeAfterAnyHistory(plan: Plan, lives: seq<Life>, s: int, nonce: nat)
    requires WellFormed(plan)
    ensures var root := Lives(plan, EmptyRoot(), lives);
            && Traced(plan, root)
            && (s in root.sidecars ==>
                  var run := SessionRun(plan, root, Some(s), nonce);
                  && run.live.Some?
                  && (AtPosition(plan, Last(root, run.images), |plan.ops|) <==> Covered(plan, root, s)))
  {
    var root := Lives(plan, EmptyRoot(), lives);
    EmptyIsBlank(plan);
    HistoriesAreTraced(plan, EmptyRoot(), lives);
    if s in root.sidecars {
      ResumedSessionIsFaithful(plan, root, s, nonce, 0);
      ResumeEqualsNoCrashIffCovered(plan, root, s, nonce);
    }
  }

  /** The count check is exact as long as it has always been made: after a history in which every resume passed
      it, a resume at s equals no crash if and only if it passes as well. */
  lemma ResumeAfterCheckedHistory(plan: Plan, lives: seq<Life>, s: int, nonce: nat)
    requires WellFormed(plan) && Checked(plan, EmptyRoot(), lives)
    ensures var root := Lives(plan, EmptyRoot(), lives);
            && Traced(plan, root) && AllHonest(plan, root)
            && (s in root.sidecars ==>
                  (AtPosition(plan, Last(root, SessionRun(plan, root, Some(s), nonce).images), |plan.ops|)
                   <==> CountsCovered(root, s)))
  {
    var root := Lives(plan, EmptyRoot(), lives);
    EmptyIsBlank(plan);
    HistoriesAreTraced(plan, EmptyRoot(), lives);
    CheckedHistoriesAreHonest(plan, EmptyRoot(), lives);
    if s in root.sidecars {
      ResumeEqualsNoCrashIff(plan, root, s, nonce);
    }
  }
}
