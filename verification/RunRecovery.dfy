/** Runs that are killed any number of times and always resume from the trainer's latest checkpoint. */
module RunRecovery {
  import opened Options
  import opened PartLog
  import opened PartLogLaws
  import opened OutputDisk
  import opened RunModel
  import opened Subsequences
  import opened RunLaws
  import opened RunSteps
  import opened RunTheorems
  import opened RunHistories

  /** The latest checkpoint, if the tracker names one, is published and covered. */
  ghost predicate LatestGood(plan: Plan, root: Root)
    requires HasAllTables(root)
  {
    root.latest.Latest? ==> root.latest.step in root.sidecars && Covered(plan, root, root.latest.step)
  }

  /** The invariant of an output root over any number of crashes. */
  ghost predicate Good(plan: Plan, root: Root) {
    Traced(plan, root) && AllHonest(plan, root) && LatestGood(plan, root)
  }

  // ----- positions -----

  /** A table that stands at or beyond the position of s keeps everything through s. */
  lemma PositionCovers(plan: Plan, root: Root, m: nat, s: int)
    requires WellFormed(plan) && Faithful(plan, root) && AtPosition(plan, root, m) && PositionAfter(plan.ops, s) <= m
    ensures Covered(plan, root, s)
  {
    forall t: Table
      ensures View(Kept(root.tables[t].parts, Some(s))) == Window(plan, 0, PositionAfter(plan.ops, s), t)
    {
      ViewKept(root.tables[t].parts, s);
      UpToWindow(plan, m, t, s);
    }
  }

  /** The latest tracker names no checkpoint, or one behind position n. */
  ghost predicate LatestBehind(plan: Plan, root: Root, n: nat) {
    root.latest.Latest? ==> root.latest.step in root.sidecars && PositionAfter(plan.ops, root.latest.step) <= n
  }

  /** An emitting session without gaps whose latest checkpoint lies behind it. */
  ghost predicate OnTrack(plan: Plan, root: Root, live: Live, heads: Heads, c: nat, n: nat) {
    Stage(plan, root, live, heads, c, n) && Exact(plan, heads, c) && LatestBehind(plan, root, n)
  }

  lemma BehindIsGood(plan: Plan, x: Root, heads: Heads, c: nat, m: nat)
    requires WellFormed(plan) && Faithful(plan, x) && Exact(plan, heads, c) && c <= m <= |plan.ops|
    requires forall t: Table :: TableAt(plan, x.tables[t], t, heads[t], c, m)
    requires LatestBehind(plan, x, m)
    ensures LatestGood(plan, x)
  {
    ExactPosition(plan, x, heads, c, m);
    if x.latest.Latest? {
      PositionCovers(plan, x, m, x.latest.step);
    }
  }

  /** The latest tracker after a crash during op n. */
  lemma LatestAfterOp(plan: Plan, root: Root, live: Live, n: nat, uuid: Uuid, fuel: nat, x: Root, m: nat)
    requires WellFormed(plan) && HasAllTables(root) && Complete(live) && n < |plan.ops| && LatestBehind(plan, root, n)
    requires x == At(root, OpImages(plan.config, root, live, plan.ops[n], uuid), fuel)
    requires m == if !plan.ops[n].CheckpointOp? && fuel < 3 then n else n + 1
    ensures LatestBehind(plan, x, m)
  {
    OpFrame(plan.config, root, live, plan.ops[n], uuid, fuel);
    if plan.ops[n].CheckpointOp? {
      CheckpointPosition(plan, n);
    }
  }

  lemma GoodAfterOp(plan: Plan, root: Root, live: Live, heads: Heads, c: nat, n: nat, uuid: Uuid, fuel: nat, x: Root)
    requires WellFormed(plan) && OnTrack(plan, root, live, heads, c, n) && n < |plan.ops|
    requires x == At(root, OpImages(plan.config, root, live, plan.ops[n], uuid), fuel)
    ensures HasAllTables(x) && LatestGood(plan, x)
  {
    var m := if !plan.ops[n].CheckpointOp? && fuel < 3 then n else n + 1;
    StageAccepts(plan, root, live, heads, c, n);
    StageCrash(plan, root, live, heads, c, n, uuid, fuel);
    StageFaithful(plan, x, heads, c, m);
    LatestAfterOp(plan, root, live, n, uuid, fuel, x, m);
    BehindIsGood(plan, x, heads, c, m);
  }

  lemma OnTrackNext(plan: Plan, root: Root, live: Live, heads: Heads, c: nat, n: nat, uuid: Uuid, next: nat,
                    images: seq<Root>, root': Root, live': Live)
    requires WellFormed(plan) && OnTrack(plan, root, live, heads, c, n) && n < |plan.ops| && next == n + 1
    requires images == OpImages(plan.config, root, live, plan.ops[n], uuid) && root' == Last(root, images)
    requires live' == OpLive(plan.config, live, plan.ops[n], uuid)
    ensures OnTrack(plan, root', live', heads, c, next)
  {
    StageAccepts(plan, root, live, heads, c, n);
    StageStep(plan, root, live, heads, c, n, uuid, root', live', next);
    assert plan.ops[n].CheckpointOp? || |images| == 5;
    assert root' == At(root, images, |images|);
    LatestAfterOp(plan, root, live, n, uuid, |images|, root', next);
  }

  lemma SameLatest(plan: Plan, x: Root, y: Root)
    requires HasAllTables(y) && LatestGood(plan, y) && x == y
    ensures HasAllTables(x) && LatestGood(plan, x)
  {
  }

  /** Emitting without gaps keeps the latest checkpoint covered at every crash point. */
  lemma {:induction false} ExactOpsCrash(plan: Plan, root: Root, live: Live, heads: Heads, c: nat, n: nat, nonce: nat,
                                         fuel: nat, run: Run)
    requires WellFormed(plan) && OnTrack(plan, root, live, heads, c, n)
    requires run == OpsRun(plan, root, live, n, nonce)
    ensures HasAllTables(At(root, run.images, fuel)) && LatestGood(plan, At(root, run.images, fuel))
    decreases |plan.ops| - n
  {
    if n == |plan.ops| {
      StageFaithful(plan, root, heads, c, n);
      BehindIsGood(plan, root, heads, c, n);
      SameLatest(plan, At(root, run.images, fuel), root);
    } else {
      var next := n + 1;
      StageAccepts(plan, root, live, heads, c, n);
      var images, root', live', rest := OpsUnfold(plan, root, live, n, nonce);
      var left := LeftAfter(images, fuel);
      PrependImages(root, images, rest, fuel, left);
      if fuel <= |images| {
        GoodAfterOp(plan, root, live, heads, c, n, (nonce, n), fuel, At(root, images, fuel));
        SameLatest(plan, At(root, run.images, fuel), At(root, images, fuel));
      } else {
        OnTrackNext(plan, root, live, heads, c, n, (nonce, n), next, images, root', live');
        ExactOpsCrash(plan, root', live', heads, c, next, nonce, left, rest);
        SameLatest(plan, At(root, run.images, fuel), At(root', rest.images, left));
      }
    }
  }

  // ----- one process -----

  lemma StartKeepsLatest(plan: Plan, root: Root, x: Root, s: int)
    requires HasAllTables(root) && LatestGood(plan, root) && root.latest == Latest(s) && SameKept(x, root, Some(s))
    ensures LatestGood(plan, x)
  {
  }

  lemma ResumeStartLatest(plan: Plan, root: Root, s: int, fuel: nat, start: Run)
    requires WellFormed(plan) && Good(plan, root) && root.latest == Latest(s)
    requires start == StartRun(plan.config, root, Some(s))
    ensures HasAllTables(At(root, start.images, fuel)) && LatestGood(plan, At(root, start.images, fuel))
    ensures At(root, start.images, fuel).sidecars == root.sidecars && At(root, start.images, fuel).latest == root.latest
  {
    SidecarMeansFirst(plan, root, s);
    ResumeStartCrash(plan, root, s, fuel, start);
    StartKeepsLatest(plan, root, At(root, start.images, fuel), s);
  }

  lemma ResumeEmissionLatest(plan: Plan, root: Root, s: int, nonce: nat, fuel: nat, start: Run, root': Root, rest: Run)
    requires WellFormed(plan) && Good(plan, root) && root.latest == Latest(s)
    requires Parts(plan, root, s, nonce, start, root', rest)
    ensures HasAllTables(At(root', rest.images, fuel)) && LatestGood(plan, At(root', rest.images, fuel))
  {
    var c := PositionAfter(plan.ops, s);
    SidecarMeansFirst(plan, root, s);
    ResumeStage(plan, root, s);
    CoveredIsExact(plan, root, s);
    ResumeStartLatest(plan, root, s, |start.images|, start);
    assert root' == At(root, start.images, |start.images|);
    ExactOpsCrash(plan, root', start.live.value, HeadsAfter(root, s), c, c, nonce, fuel, rest);
  }

  /** Resuming at the latest checkpoint keeps it covered wherever the process dies. */
  lemma ResumeAttempt(plan: Plan, root: Root, s: int, nonce: nat, fuel: nat, x: Root)
    requires WellFormed(plan) && Good(plan, root) && root.latest == Latest(s)
    requires x == At(root, SessionRun(plan, root, Some(s), nonce).images, fuel)
    ensures HasAllTables(x) && LatestGood(plan, x)
  {
    SidecarMeansFirst(plan, root, s);
    var start, root', rest := SessionParts(plan, root, s, nonce);
    var left := LeftAfter(start.images, fuel);
    SessionImages(plan, root, s, nonce, fuel, start, root', rest, left);
    if fuel <= |start.images| {
      ResumeStartLatest(plan, root, s, fuel, start);
      SameLatest(plan, x, At(root, start.images, fuel));
    } else {
      ResumeEmissionLatest(plan, root, s, nonce, left, start, root', rest);
      SameLatest(plan, x, At(root', rest.images, left));
    }
  }

  lemma FreshEmissionLatest(plan: Plan, root: Root, nonce: nat, fuel: nat, start: Run, root': Root, rest: Run)
    requires WellFormed(plan) && Good(plan, root) && root.latest.Unset? && FreshParts(plan, root, nonce, start, root', rest)
    ensures HasAllTables(At(root', rest.images, fuel)) && LatestGood(plan, At(root', rest.images, fuel))
  {
    FreshBegins(plan, root, nonce, start, root', rest);
    if NothingCommitted(root) {
      ExactOpsCrash(plan, root', start.live.value, NoHeads(root'), 0, 0, nonce, fuel, rest);
    }
  }

  /** So does starting with no checkpoint. */
  lemma FreshAttempt(plan: Plan, root: Root, nonce: nat, fuel: nat, x: Root)
    requires WellFormed(plan) && Good(plan, root) && root.latest.Unset?
    requires x == At(root, SessionRun(plan, root, None, nonce).images, fuel)
    ensures HasAllTables(x) && LatestGood(plan, x)
  {
    var start, root', rest := FreshSplit(plan, root, nonce);
    var left := LeftAfter(start.images, fuel);
    FreshImages(plan, root, nonce, fuel, start, root', rest, left);
    if fuel <= |start.images| {
      FreshOpens(plan, root, fuel);
      SameLatest(plan, x, At(root, start.images, fuel));
    } else {
      FreshEmissionLatest(plan, root, nonce, left, start, root', rest);
      SameLatest(plan, x, At(root', rest.images, left));
    }
  }

  lemma LatestIsAccepted(plan: Plan, root: Root)
    requires Good(plan, root) && root.latest.Latest?
    ensures StartOf(root, Auto) == From(Some(root.latest.step)) && PassesCheck(root, Auto)
    ensures WellFormed(plan) ==> CountsCovered(root, root.latest.step)
  {
    SidecarMeansFirst(plan, root, root.latest.step);
    CoveredPasses(plan, root, root.latest.step);
    AcceptedWhenCovered(root, root.latest.step);
  }

  lemma AcceptedWhenCovered(root: Root, s: int)
    requires HasAllTables(root) && root.latest == Latest(s) && s > 0 && s in root.sidecars && CountsCovered(root, s)
    ensures StartOf(root, Auto) == From(Some(s)) && PassesCheck(root, Auto)
  {
  }

  /** Coverage passes the count check. */
  lemma CoveredPasses(plan: Plan, root: Root, s: int)
    requires HasAllTables(root) && s in root.sidecars && Honest(plan, s, root.sidecars[s]) && Covered(plan, root, s)
    ensures CountsCovered(root, s)
  {
    forall t | t in root.sidecars[s].partCounts
      ensures |Kept(root.tables[t].parts, Some(s))| >= root.sidecars[s].partCounts[t]
    {
      assert |View(Kept(root.tables[t].parts, Some(s)))| == |Kept(root.tables[t].parts, Some(s))|;
    }
  }

  /** One process as the trainer starts it by default, killed anywhere. */
  lemma AutoLife(plan: Plan, root: Root, fuel: nat, nonce: nat)
    requires WellFormed(plan) && Good(plan, root)
    ensures Good(plan, AfterLife(plan, root, Life(Auto, fuel), nonce))
  {
    var x := AfterLife(plan, root, Life(Auto, fuel), nonce);
    OneLife(plan, root, Life(Auto, fuel), nonce);
    if root.latest.Latest? {
      LatestIsAccepted(plan, root);
      ResumeAttempt(plan, root, root.latest.step, nonce, fuel, x);
    } else if root.latest.Unset? {
      FreshAttempt(plan, root, nonce, fuel, x);
    }
  }

  // ----- any number of processes -----

  ghost predicate AllAuto(lives: seq<Life>) {
    forall life | life in lives :: life.mode == Auto
  }

  /** However often the run is killed, wherever, the invariant survives. */
  lemma {:induction false} AutoLives(plan: Plan, root: Root, lives: seq<Life>)
    requires WellFormed(plan) && Good(plan, root) && AllAuto(lives)
    ensures Good(plan, Lives(plan, root, lives))
    decreases |lives|
  {
    if lives != [] {
      assert lives[0] in lives && lives[0] == Life(Auto, lives[0].fuel);
      AutoLife(plan, root, lives[0].fuel, |lives|);
      AutoLives(plan, AfterLife(plan, root, lives[0], |lives|), lives[1..]);
    }
  }

  /** Where one more process, left alone, finishes the run: the tracker names a checkpoint, or there is none and
      nothing has been committed. */
  ghost predicate CanFinish(root: Root)
    requires HasAllTables(root)
  {
    root.latest.Latest? || (root.latest.Unset? && NothingCommitted(root))
  }

  lemma FinishesIff(plan: Plan, root: Root, nonce: nat)
    requires WellFormed(plan) && Good(plan, root)
    ensures var run := TrainerRun(plan, root, Auto, nonce);
            && (run.live.Some? <==> CanFinish(root))
            && (run.live.Some? ==> AtPosition(plan, Last(root, run.images), |plan.ops|))
  {
    if root.latest.Latest? {
      LatestIsAccepted(plan, root);
      ResumedSessionIsFaithful(plan, root, root.latest.step, nonce, 0);
      ResumeEqualsNoCrashIffCovered(plan, root, root.latest.step, nonce);
    } else if root.latest.Unset? {
      FreshFinishesIff(plan, root, nonce);
    }
  }

  /** The recovery theorem.  Start from an empty output root and kill the run any number of times, anywhere.  One
      process that is then left alone finishes the run if and only if the latest tracker names a checkpoint, or
      there is no checkpoint and nothing has been committed; and when it finishes, every table is what an
      uninterrupted run leaves, up to the resume markers. */
  lemma CrashesDoNotShow(plan: Plan, lives: seq<Life>, nonce: nat)
    requires WellFormed(plan) && AllAuto(lives)
    ensures var root := Lives(plan, EmptyRoot(), lives);
            && Good(plan, root)
            && var run := TrainerRun(plan, root, Auto, nonce);
               && (run.live.Some? <==> CanFinish(root))
               && (run.live.Some? ==> AtPosition(plan, Last(root, run.images), |plan.ops|))
  {
    EmptyIsBlank(plan);
    AutoLives(plan, EmptyRoot(), lives);
    FinishesIff(plan, Lives(plan, EmptyRoot(), lives), nonce);
  }

  // ----- the runs that cannot be finished -----

  /** A truncated tracker is final: no later process changes anything, unless resuming is disabled. */
  lemma {:induction false} TruncatedIsFinal(plan: Plan, root: Root, lives: seq<Life>)
    requires HasAllTables(root) && root.latest.Truncated? && forall life | life in lives :: !life.mode.Disabled?
    ensures Lives(plan, root, lives) == root
    decreases |lives|
  {
    if lives != [] {
      assert lives[0] in lives;
      TruncatedIsFinal(plan, root, lives[1..]);
    }
  }

  /** Every crash point of every op is reached by some amount of fuel. */
  lemma {:induction false} EmissionReaches(plan: Plan, root: Root, live: Live, heads: Heads, c: nat, n: nat, k: nat,
                                           j: nat, nonce: nat, run: Run)
    returns (fuel: nat, rootK: Root, liveK: Live)
    requires WellFormed(plan) && Stage(plan, root, live, heads, c, n) && n <= k < |plan.ops| && 0 < j <= 3
    requires run == OpsRun(plan, root, live, n, nonce)
    ensures fuel > 0 && Stage(plan, rootK, liveK, heads, c, k)
    ensures At(root, run.images, fuel) == At(rootK, OpImages(plan.config, rootK, liveK, plan.ops[k], (nonce, k)), j)
    decreases k - n
  {
    var next := n + 1;
    var images, root', live', rest := EmitNext(plan, root, live, heads, c, n, nonce, run, next);
    if n == k {
      fuel, rootK, liveK := j, root, live;
      PrependImages(root, images, rest, fuel, 0);
    } else {
      var left;
      left, rootK, liveK := EmissionReaches(plan, root', live', heads, c, next, k, j, nonce, rest);
      fuel := |images| + left;
      PrependImages(root, images, rest, fuel, left);
    }
  }

  /** The window is real: every run that writes a checkpoint can be killed between the emptying and the writing of
      the tracker, after which no process finishes it. */
  lemma TruncationHappens(plan: Plan, root: Root, n: nat, nonce: nat) returns (fuel: nat, x: Root)
    requires WellFormed(plan) && Blank(plan, root) && n < |plan.ops| && plan.ops[n].CheckpointOp?
    ensures x == Lives(plan, root, [Life(Auto, fuel)]) && HasAllTables(x) && x.latest.Truncated?
    ensures TrainerRun(plan, x, Auto, nonce) == Run([], None)
  {
    var rootN, liveN, heads;
    fuel, rootN, liveN, heads := FreshReaches(plan, root, n, 2, 1);
    x := At(rootN, OpImages(plan.config, rootN, liveN, plan.ops[n], (1, n)), 2);
    UnsetStartsOver(plan, root, 1);
    FirstLife(plan, root, fuel, TrainerRun(plan, root, Auto, 1));
    TruncatedImage(plan, rootN, liveN, n, x);
    TruncatedFails(plan, x, nonce);
  }

  lemma TruncatedImage(plan: Plan, root: Root, live: Live, n: nat, x: Root)
    requires n < |plan.ops| && plan.ops[n].CheckpointOp? && HasAllTables(root) && Complete(live)
    requires x == At(root, OpImages(plan.config, root, live, plan.ops[n], (1, n)), 2)
    ensures HasAllTables(x) && x.latest.Truncated?
  {
    OpFrame(plan.config, root, live, plan.ops[n], (1, n), 2);
  }

  lemma TruncatedFails(plan: Plan, root: Root, nonce: nat)
    requires HasAllTables(root) && root.latest.Truncated?
    ensures TrainerRun(plan, root, Auto, nonce) == Run([], None)
  {
  }

  lemma FreshReaches(plan: Plan, root: Root, k: nat, j: nat, nonce: nat)
    returns (fuel: nat, rootK: Root, liveK: Live, heads: Heads)
    requires WellFormed(plan) && Blank(plan, root) && k < |plan.ops| && 0 < j <= 3
    ensures Stage(plan, rootK, liveK, heads, 0, k)
    ensures At(root, SessionRun(plan, root, None, nonce).images, fuel)
            == At(rootK, OpImages(plan.config, rootK, liveK, plan.ops[k], (nonce, k)), j)
  {
    var start, root', rest := FreshSplit(plan, root, nonce);
    FreshBegins(plan, root, nonce, start, root', rest);
    heads := NoHeads(root');
    var left;
    left, rootK, liveK := EmissionReaches(plan, root', start.live.value, heads, 0, 0, k, j, nonce, rest);
    fuel := |start.images| + left;
    FreshImages(plan, root, nonce, fuel, start, root', rest, left);
  }

  lemma UnsetStartsOver(plan: Plan, root: Root, nonce: nat)
    requires HasAllTables(root) && root.latest.Unset?
    ensures TrainerRun(plan, root, Auto, nonce) == SessionRun(plan, root, None, nonce)
  {
    StartsFrom(plan, root, Auto, None, nonce);
  }

  lemma FirstLife(plan: Plan, root: Root, fuel: nat, run: Run)
    requires HasAllTables(root) && run == TrainerRun(plan, root, Auto, 1)
    ensures Lives(plan, root, [Life(Auto, fuel)]) == At(root, run.images, fuel)
  {
    OneLifeOnly(plan, root, Life(Auto, fuel), At(root, run.images, fuel));
  }
}
