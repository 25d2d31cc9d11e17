/** Resumes that are accepted and silently lose rows, and why checking part counts must begin with the first one. */
module RunTraps {
  import opened Options
  import opened PartLog
  import opened PartLogLaws
  import opened OutputDisk
  import opened RunModel
  import opened Subsequences
  import opened RunLaws
  import opened RunSteps
  import opened RunTheorems
  import opened RunHistories
  import opened RunRecovery

  // ----- a checkpoint written over a gap -----

  lemma {:induction false} UpToAll(batches: seq<Batch>, s: int)
    requires forall b | b in batches :: !HasFuture(b, Some(s))
    ensures UpTo(batches, s) == batches
  {
    if batches != [] {
      UpToAll(batches[..|batches| - 1], s);
    }
  }

  lemma {:induction false} UpToMembers(batches: seq<Batch>, s: int)
    ensures forall b | b in UpTo(batches, s) :: !HasFuture(b, Some(s))
  {
    if batches != [] {
      UpToMembers(batches[..|batches| - 1], s);
    }
  }

  /** At a checkpoint of step s, no table holds a row of a later step. */
  lemma NothingIsFuture(plan: Plan, d: Dir, t: Table, head: seq<Batch>, c: nat, n: nat, s: int)
    requires WellFormed(plan) && c <= n <= PositionAfter(plan.ops, s)
    requires TableAt(plan, d, t, head, c, n) && Subseq(head, Window(plan, 0, c, t))
    ensures View(Kept(d.parts, Some(s))) == View(d.parts)
  {
    ViewKept(d.parts, s);
    SubseqExtend(head, Window(plan, 0, c, t), Window(plan, c, n, t));
    WindowSplit(plan, 0, c, n, t);
    SubseqMembers(View(d.parts), Window(plan, 0, n, t));
    UpToEarly(plan, n, t, s);
    UpToMembers(Window(plan, 0, n, t), s);
    UpToAll(View(d.parts), s);
  }

  /** What a resume at a checkpoint finds right after its sidecar has been written. */
  lemma AfterSidecar(plan: Plan, root: Root, live: Live, heads: Heads, c: nat, n: nat, uuid: Uuid, s: int, x: Root, t: Table)
    requires WellFormed(plan) && Stage(plan, root, live, heads, c, n) && n < |plan.ops| && plan.ops[n] == CheckpointOp(s)
    requires x == At(root, OpImages(plan.config, root, live, plan.ops[n], uuid), 1)
    ensures HasAllTables(x) && s in x.sidecars && t in x.sidecars[s].partCounts
    ensures |Kept(x.tables[t].parts, Some(s))| == x.sidecars[s].partCounts[t]
    ensures PositionAfter(plan.ops, s) == n + 1
    ensures |heads[t]| < |Window(plan, 0, c, t)| ==>
              |View(Kept(x.tables[t].parts, Some(s)))| < |Window(plan, 0, n + 1, t)|
  {
    OpFrame(plan.config, root, live, plan.ops[n], uuid, 1);
    CheckpointPosition(plan, n);
    assert TableAt(plan, root.tables[t], t, heads[t], c, n);
    NothingIsFuture(plan, root.tables[t], t, heads[t], c, n, s);
    assert |View(Kept(root.tables[t].parts, Some(s)))| == |View(root.tables[t].parts)|;
    SidecarCounts(plan, root, live, heads, c, n, t);
    WindowSplit(plan, 0, c, n, t);
    SameWindow(plan, 0, n, t);
  }

  /** A session that resumed over a gap writes checkpoints that pass the count check and still lack the rows: the
      sidecar records what is there, not what should be. */
  lemma GappedCheckpointPassesCheck(plan: Plan, root: Root, live: Live, heads: Heads, c: nat, n: nat, uuid: Uuid, t: Table,
                                    s: int, x: Root)
    requires WellFormed(plan) && Stage(plan, root, live, heads, c, n) && n < |plan.ops| && plan.ops[n] == CheckpointOp(s)
    requires |heads[t]| < |Window(plan, 0, c, t)|
    requires x == At(root, OpImages(plan.config, root, live, plan.ops[n], uuid), 1)
    ensures HasAllTables(x) && s in x.sidecars && CountsCovered(x, s) && !Covered(plan, x, s)
  {
    AfterSidecar(plan, root, live, heads, c, n, uuid, s, x, t);
    forall u | u in x.sidecars[s].partCounts
      ensures |Kept(x.tables[u].parts, Some(s))| >= x.sidecars[s].partCounts[u]
    {
      AfterSidecar(plan, root, live, heads, c, n, uuid, s, x, u);
    }
  }

  lemma GapAt(plan: Plan, root: Root, s: int) returns (t: Table)
    requires WellFormed(plan) && Faithful(plan, root) && !Covered(plan, root, s)
    ensures |View(Kept(root.tables[t].parts, Some(s)))| < |Window(plan, 0, PositionAfter(plan.ops, s), t)|
  {
    var c := PositionAfter(plan.ops, s);
    t :| View(Kept(root.tables[t].parts, Some(s))) != Window(plan, 0, c, t);
    KeptBeforeStep(plan, root, s, t);
    SubseqLength(View(Kept(root.tables[t].parts, Some(s))), Window(plan, 0, c, t));
  }

  lemma ResumedReaches(plan: Plan, root: Root, s: int, k: nat, nonce: nat)
    returns (fuel: nat, rootK: Root, liveK: Live)
    requires WellFormed(plan) && Traced(plan, root) && s in root.sidecars && PositionAfter(plan.ops, s) <= k < |plan.ops|
    ensures Stage(plan, rootK, liveK, HeadsAfter(root, s), PositionAfter(plan.ops, s), k)
    ensures At(root, SessionRun(plan, root, Some(s), nonce).images, fuel)
            == At(rootK, OpImages(plan.config, rootK, liveK, plan.ops[k], (nonce, k)), 1)
  {
    var c := PositionAfter(plan.ops, s);
    SidecarMeansFirst(plan, root, s);
    var start, root', rest := SessionParts(plan, root, s, nonce);
    ResumeStage(plan, root, s);
    var left;
    left, rootK, liveK := EmissionReaches(plan, root', start.live.value, HeadsAfter(root, s), c, c, k, 1, nonce, rest);
    fuel := |start.images| + left;
    SessionImages(plan, root, s, nonce, fuel, start, root', rest, left);
  }

  /** A gap is inherited.  After a resume at s that lacks rows, the process can be killed right behind its next
      checkpoint k; a resume there passes the count check, runs to its end, and the rows are still missing. */
  lemma GapIsInherited(plan: Plan, root: Root, s: int, k: nat, nonce: nat, nonce': nat) returns (fuel: nat, x: Root)
    requires WellFormed(plan) && Traced(plan, root) && s in root.sidecars && !Covered(plan, root, s)
    requires PositionAfter(plan.ops, s) <= k < |plan.ops| && plan.ops[k].CheckpointOp?
    ensures x == At(root, SessionRun(plan, root, Some(s), nonce).images, fuel)
    ensures HasAllTables(x) && plan.ops[k].step in x.sidecars && CountsCovered(x, plan.ops[k].step)
    ensures var run := SessionRun(plan, x, Some(plan.ops[k].step), nonce');
            run.live.Some? && !AtPosition(plan, Last(x, run.images), |plan.ops|)
  {
    var rootK, liveK;
    fuel, rootK, liveK := ResumedReaches(plan, root, s, k, nonce);
    x := At(root, SessionRun(plan, root, Some(s), nonce).images, fuel);
    var t := GapAt(plan, root, s);
    GappedCheckpointPassesCheck(plan, rootK, liveK, HeadsAfter(root, s), PositionAfter(plan.ops, s), k, (nonce, k), t,
                                plan.ops[k].step, x);
    ResumedLife(plan, root, s, nonce, fuel, x);
    LosesRows(plan, x, plan.ops[k].step, nonce');
  }

  lemma LosesRows(plan: Plan, x: Root, s: int, nonce: nat)
    requires WellFormed(plan) && Traced(plan, x) && s in x.sidecars && !Covered(plan, x, s)
    ensures var run := SessionRun(plan, x, Some(s), nonce);
            run.live.Some? && !AtPosition(plan, Last(x, run.images), |plan.ops|)
  {
    SidecarMeansFirst(plan, x, s);
    ResumedSessionIsFaithful(plan, x, s, nonce, 0);
    ResumeEqualsNoCrashIffCovered(plan, x, s, nonce);
  }

  // ----- how a gap comes about -----

  ghost predicate Published(plan: Plan, x: Root, n: nat) {
    && (forall k | n <= k < |plan.ops| && plan.ops[k].CheckpointOp? :: plan.ops[k].step in x.sidecars)
    && (n < |plan.ops| && plan.ops[|plan.ops| - 1].CheckpointOp? ==> x.latest == Latest(plan.ops[|plan.ops| - 1].step))
  }

  lemma OpSidecars(plan: Plan, root: Root, live: Live, n: nat, uuid: Uuid, root': Root)
    requires HasAllTables(root) && Complete(live) && n < |plan.ops|
    requires root' == Last(root, OpImages(plan.config, root, live, plan.ops[n], uuid))
    ensures root.sidecars.Keys <= root'.sidecars.Keys
    ensures plan.ops[n].CheckpointOp? ==> plan.ops[n].step in root'.sidecars && root'.latest == Latest(plan.ops[n].step)
  {
    var images := OpImages(plan.config, root, live, plan.ops[n], uuid);
    assert root' == At(root, images, |images|);
    OpFrame(plan.config, root, live, plan.ops[n], uuid, |images|);
  }

  lemma PublishedBefore(plan: Plan, root: Root, root': Root, x: Root, n: nat, next: nat)
    requires n < |plan.ops| && next == n + 1 && Published(plan, x, next)
    requires root.sidecars.Keys <= root'.sidecars.Keys <= x.sidecars.Keys && (next == |plan.ops| ==> x == root')
    requires plan.ops[n].CheckpointOp? ==> plan.ops[n].step in root'.sidecars && root'.latest == Latest(plan.ops[n].step)
    ensures Published(plan, x, n) && root.sidecars.Keys <= x.sidecars.Keys
  {
  }

  /** A session that ends has published every checkpoint it passed. */
  lemma {:induction false} EmissionPublishes(plan: Plan, root: Root, live: Live, heads: Heads, c: nat, n: nat, nonce: nat,
                                             run: Run)
    requires WellFormed(plan) && Stage(plan, root, live, heads, c, n) && run == OpsRun(plan, root, live, n, nonce)
    ensures root.sidecars.Keys <= Last(root, run.images).sidecars.Keys
    ensures Published(plan, Last(root, run.images), n)
    decreases |plan.ops| - n
  {
    if n < |plan.ops| {
      var next := n + 1;
      var root', live', rest := EmissionStep(plan, root, live, heads, c, n, nonce, run, next);
      EmissionPublishes(plan, root', live', heads, c, next, nonce, rest);
      PublishedBefore(plan, root, root', Last(root', rest.images), n, next);
    }
  }

  /** The session behind op n, and what the op publishes. */
  lemma EmissionStep(plan: Plan, root: Root, live: Live, heads: Heads, c: nat, n: nat, nonce: nat, run: Run, next: nat)
    returns (root': Root, live': Live, rest: Run)
    requires WellFormed(plan) && Stage(plan, root, live, heads, c, n) && run == OpsRun(plan, root, live, n, nonce)
    requires n < |plan.ops| && next == n + 1
    ensures Stage(plan, root', live', heads, c, next) && rest == OpsRun(plan, root', live', next, nonce)
    ensures Last(root, run.images) == Last(root', rest.images) && root.sidecars.Keys <= root'.sidecars.Keys
    ensures plan.ops[n].CheckpointOp? ==> plan.ops[n].step in root'.sidecars && root'.latest == Latest(plan.ops[n].step)
  {
    var images;
    images, root', live', rest := EmitNext(plan, root, live, heads, c, n, nonce, run, next);
    OpSidecars(plan, root, live, n, (nonce, n), root');
    PrependImages(root, images, rest, 0, 0);
  }

  /** A run that is never killed, from a blank root. */
  lemma FullRun(plan: Plan, root: Root, nonce: nat, x: Root)
    requires WellFormed(plan) && Blank(plan, root) && x == Last(root, SessionRun(plan, root, None, nonce).images)
    ensures Traced(plan, x) && AllHonest(plan, x) && Published(plan, x, 0)
  {
    var start, root', rest := FreshSplit(plan, root, nonce);
    FreshBegins(plan, root, nonce, start, root', rest);
    FreshImages(plan, root, nonce, 0, start, root', rest, 0);
    EmissionPublishes(plan, root', start.live.value, NoHeads(root'), 0, 0, nonce, rest);
    var images := SessionRun(plan, root, None, nonce).images;
    FreshLife(plan, root, nonce, |images|, x);
  }

  /** A process that resumes at s and dies as soon as it has reopened the tables. */
  lemma ReopenedLife(plan: Plan, root: Root, s: int, nonce: nat) returns (fuel: nat, x: Root)
    requires WellFormed(plan) && Traced(plan, root) && s in root.sidecars
    ensures x == Last(root, StartRun(plan.config, root, Some(s)).images)
    ensures x == At(root, SessionRun(plan, root, Some(s), nonce).images, fuel)
  {
    SidecarMeansFirst(plan, root, s);
    var start, root', rest := SessionParts(plan, root, s, nonce);
    fuel, x := |start.images|, root';
    SessionImages(plan, root, s, nonce, fuel, start, root', rest, 0);
  }

  lemma RunsFrom(plan: Plan, root: Root, nonce: nat, s: int)
    requires HasAllTables(root) && s > 0 && !root.latest.Truncated?
    ensures root.latest.Unset? ==> TrainerRun(plan, root, Auto, nonce) == SessionRun(plan, root, None, nonce)
    ensures root.latest == Latest(s) ==> TrainerRun(plan, root, Auto, nonce) == SessionRun(plan, root, Some(s), nonce)
    ensures TrainerRun(plan, root, ResumePath(s), nonce) == SessionRun(plan, root, Some(s), nonce)
  {
    if root.latest.Unset? {
      StartsFrom(plan, root, Auto, None, nonce);
    } else if root.latest == Latest(s) {
      StartsFrom(plan, root, Auto, Some(s), nonce);
    }
    StartsFrom(plan, root, ResumePath(s), Some(s), nonce);
  }

  /** The trap is set: a process resumes at an older checkpoint s and dies after reopening the tables.  From now on
      a resume at the newer checkpoint s' is accepted, ends, and lacks rows. */
  lemma StaleHappens(plan: Plan, root: Root, s: int, s': int, c': nat, t: Table, nonce: nat) returns (fuel: nat, x: Root)
    requires WellFormed(plan) && Traced(plan, root) && AllHonest(plan, root)
    requires s in root.sidecars && s' in root.sidecars && PositionAfter(plan.ops, s') == c'
    requires PositionAfter(plan.ops, s) <= c' && Window(plan, PositionAfter(plan.ops, s), c', t) != []
    ensures x == At(root, SessionRun(plan, root, Some(s), nonce).images, fuel)
    ensures Traced(plan, x) && x.latest == root.latest && x.sidecars == root.sidecars
    ensures !CountsCovered(x, s') && !Covered(plan, x, s')
  {
    fuel, x := ReopenedLife(plan, root, s, nonce);
    StaleGap(plan, root, s, s', c', t, nonce, x);
    ResumedLife(plan, root, s, nonce, fuel, x);
  }

  lemma StaleGap(plan: Plan, root: Root, s: int, s': int, c': nat, t: Table, nonce: nat, x: Root)
    requires WellFormed(plan) && Faithful(plan, root) && AllHonest(plan, root)
    requires s in root.sidecars && s' in root.sidecars && PositionAfter(plan.ops, s') == c'
    requires PositionAfter(plan.ops, s) <= c' && Window(plan, PositionAfter(plan.ops, s), c', t) != []
    requires x == Last(root, StartRun(plan.config, root, Some(s)).images)
    ensures HasAllTables(x) && x.latest == root.latest && x.sidecars == root.sidecars
    ensures !CountsCovered(x, s') && !Covered(plan, x, s')
  {
    StaleCheckpointLosesRows(plan, root, s, s', t, nonce, x);
    ReopenedIsShort(plan, root, s, c', s', t, x);
    assert |View(Kept(x.tables[t].parts, Some(s')))| == |Kept(x.tables[t].parts, Some(s'))|;
  }

  // ----- a run of two steps -----

  function TwoSteps(): Plan {
    Plan(Config(0, 0), [TrainOp(1, 1, 0), CheckpointOp(1), TrainOp(2, 1, 0), CheckpointOp(2)])
  }

  lemma TwoStepsWellFormed()
    ensures WellFormed(TwoSteps())
  {
    var plan := TwoSteps();
    forall i, j | 0 <= i < j < |plan.ops|
      ensures KeysApart(plan.config, plan.ops[i], plan.ops[j])
    {
      TwoStepsKeysApart(i, j);
    }
    TwoStepsOrder(plan.ops);
  }

  lemma TwoStepsOrder(ops: seq<Op>)
    requires ops == [TrainOp(1, 1, 0), CheckpointOp(1), TrainOp(2, 1, 0), CheckpointOp(2)]
    ensures forall i | 0 <= i < |ops| :: ops[i].step >= 1 && GoodBatch(ops[i])
    ensures forall i, j | 0 <= i < j < |ops| :: ops[i].step <= ops[j].step && (ops[i].CheckpointOp? ==> ops[i].step < ops[j].step)
    ensures forall j | 0 <= j < |ops| && ops[j].CheckpointOp? ::
              exists i | 0 <= i < j :: ops[i].TrainOp? && ops[i].step == ops[j].step
  {
    forall j | 0 <= j < |ops| && ops[j].CheckpointOp?
      ensures exists i | 0 <= i < j :: ops[i].TrainOp? && ops[i].step == ops[j].step
    {
      assert ops[j - 1].TrainOp? && ops[j - 1].step == ops[j].step;
    }
  }

  lemma TwoStepsKeysApart(i: nat, j: nat)
    requires i < j < 4
    ensures KeysApart(TwoSteps().config, TwoSteps().ops[i], TwoSteps().ops[j])
  {
    if i == 0 && j == 2 {
      assert [0, 1][1] != [0, 2][1];
    }
  }

  lemma SecondStepMatters()
    ensures Window(TwoSteps(), 2, 4, TrainStep) != []
  {
    var plan := TwoSteps();
    assert Window(plan, 2, 3, TrainStep) == Window(plan, 2, 2, TrainStep) + Contribution(plan, 2, TrainStep);
    assert |Contribution(plan, 2, TrainStep)| == 1;
    assert Window(plan, 2, 4, TrainStep) == Window(plan, 2, 3, TrainStep) + Contribution(plan, 3, TrainStep);
  }

  lemma TwoLives(plan: Plan, root: Root, first: Life, second: Life, middle: Root, x: Root)
    requires HasAllTables(root) && middle == AfterLife(plan, root, first, 2)
    requires HasAllTables(middle) && x == AfterLife(plan, middle, second, 1)
    ensures Lives(plan, root, [first, second]) == x
  {
    assert [first, second][1..] == [second];
    OneLifeOnly(plan, middle, second, x);
  }

  /** Train a step, checkpoint, train another, checkpoint, done; resume by hand at the first checkpoint and die while
      it reopens the tables; let the trainer resume on its own.  It picks the second checkpoint, reports success, and
      the row of the second step is gone. */
  lemma SecondStepIsLost(nonce: nat) returns (lives: seq<Life>)
    ensures |lives| == 2 && lives[0].mode == Auto && lives[1].mode == ResumePath(1)
    ensures var plan := TwoSteps();
            var x := Lives(plan, EmptyRoot(), lives);
            && HasAllTables(x)
            && var run := TrainerRun(plan, x, Auto, nonce);
               run.live.Some? && !AtPosition(plan, Last(x, run.images), |plan.ops|)
  {
    var plan := TwoSteps();
    TwoStepsWellFormed();
    EmptyIsBlank(plan);
    SecondStepMatters();
    var x;
    lives, x := SecondStepIsLostFrom(plan, EmptyRoot(), nonce);
  }

  lemma SecondStepIsLostFrom(plan: Plan, root: Root, nonce: nat) returns (lives: seq<Life>, x: Root)
    requires plan == TwoSteps() && WellFormed(plan) && Blank(plan, root) && Window(plan, 2, 4, TrainStep) != []
    ensures |lives| == 2 && lives[0].mode == Auto && lives[1].mode == ResumePath(1)
    ensures x == Lives(plan, root, lives) && HasAllTables(x)
    ensures var run := TrainerRun(plan, x, Auto, nonce);
            run.live.Some? && !AtPosition(plan, Last(x, run.images), |plan.ops|)
  {
    var first := Life(Auto, |SessionRun(plan, root, None, 2).images|);
    RunsFrom(plan, root, 2, 1);
    var middle := AfterLife(plan, root, first, 2);
    FullRun(plan, root, 2, middle);
    var second;
    second, x := ResumedTooEarly(plan, middle, nonce);
    lives := [first, second];
    TwoLives(plan, root, first, second, middle, x);
  }

  /** The second process, and what the third one makes of it. */
  lemma ResumedTooEarly(plan: Plan, middle: Root, nonce: nat) returns (life: Life, x: Root)
    requires plan == TwoSteps() && WellFormed(plan) && Window(plan, 2, 4, TrainStep) != []
    requires Traced(plan, middle) && AllHonest(plan, middle) && Published(plan, middle, 0)
    ensures life.mode == ResumePath(1) && x == AfterLife(plan, middle, life, 1) && HasAllTables(x)
    ensures var run := TrainerRun(plan, x, Auto, nonce);
            run.live.Some? && !AtPosition(plan, Last(x, run.images), |plan.ops|)
  {
    RunsFrom(plan, middle, 1, 1);
    CheckpointPosition(plan, 1);
    CheckpointPosition(plan, 3);
    var fuel;
    fuel, x := StaleHappens(plan, middle, 1, 2, 4, TrainStep, 1);
    life := Life(ResumePath(1), fuel);
    RunsFrom(plan, x, nonce, 2);
    LosesRows(plan, x, 2, nonce);
  }
}
