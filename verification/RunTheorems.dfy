/** The theorems about whole runs: resuming after crashes gives the tables of an uninterrupted run, and
    exactly when it does. */
module RunTheorems {
  import opened Options
  import opened PartLog
  import opened PartLogLaws
  import opened OutputDisk
  import opened RunModel
  import opened Subsequences
  import opened RunLaws
  import opened RunSteps

  /** A sidecar that some session of the plan has written: at a checkpoint, with all tables, and with the sum of
      the updates through its step. */
  ghost predicate Genuine(plan: Plan, s: int, sidecar: Sidecar) {
    && s >= 1 && CheckpointOp(s) in plan.ops && sidecar.configHash == plan.config.hash
    && sidecar.optimizerStep == UpdatesBefore(plan.ops, PositionAfter(plan.ops, s))
    && forall t: Table :: t in sidecar.partCounts
  }

  ghost predicate AllGenuine(plan: Plan, root: Root) {
    forall s | s in root.sidecars :: Genuine(plan, s, root.sidecars[s])
  }

  /** A sidecar that says the truth: its part counts are those of an uninterrupted run. */
  ghost predicate Honest(plan: Plan, s: int, sidecar: Sidecar) {
    && Genuine(plan, s, sidecar)
    && forall t: Table :: sidecar.partCounts[t] == |Window(plan, 0, PositionAfter(plan.ops, s), t)|
  }

  ghost predicate AllHonest(plan: Plan, root: Root) {
    forall s | s in root.sidecars :: Honest(plan, s, root.sidecars[s])
  }

  /** The check a caller could make before resuming at s, and the program does not make: every table still
      has, at or before step s, as many parts as the sidecar of s recorded. */
  predicate CountsCovered(root: Root, s: int)
    requires HasAllTables(root) && s in root.sidecars
  {
    forall t | t in root.sidecars[s].partCounts ::
      |Kept(root.tables[t].parts, Some(s))| >= root.sidecars[s].partCounts[t]
  }

  /** What a resume at s keeps is what an uninterrupted run would have written through s. */
  ghost predicate Covered(plan: Plan, root: Root, s: int) {
    && HasAllTables(root)
    && forall t: Table ::
         View(Kept(root.tables[t].parts, Some(s))) == Window(plan, 0, PositionAfter(plan.ops, s), t)
  }

  /** Every table holds exactly what the first m ops of an uninterrupted run write. */
  ghost predicate AtPosition(plan: Plan, root: Root, m: nat) {
    && m <= |plan.ops| && HasAllTables(root)
    && forall t: Table :: View(root.tables[t].parts) == Window(plan, 0, m, t)
  }

  // ----- resuming -----

  function HeadsAfter(root: Root, s: int): Heads
    requires HasAllTables(root)
  {
    map t: Table | t in root.tables :: View(Kept(root.tables[t].parts, Some(s)))
  }

  /** What a resume keeps of a faithful table is part of what an uninterrupted run writes through s. */
  lemma KeptBeforeStep(plan: Plan, root: Root, s: int, t: Table)
    requires WellFormed(plan) && Faithful(plan, root)
    ensures var c := PositionAfter(plan.ops, s);
            Subseq(View(Kept(root.tables[t].parts, Some(s))), Window(plan, 0, c, t))
  {
    ViewKept(root.tables[t].parts, s);
    UpToSub(View(root.tables[t].parts), Full(plan, t), s);
    UpToWindow(plan, |plan.ops|, t, s);
  }

  lemma AllKeptBeforeStep(plan: Plan, root: Root, s: int)
    requires WellFormed(plan) && Faithful(plan, root)
    ensures forall t: Table ::
              Subseq(View(Kept(root.tables[t].parts, Some(s))), Window(plan, 0, PositionAfter(plan.ops, s), t))
  {
    forall t: Table
      ensures Subseq(View(Kept(root.tables[t].parts, Some(s))), Window(plan, 0, PositionAfter(plan.ops, s), t))
    {
      KeptBeforeStep(plan, root, s, t);
    }
  }

  /** On a faithful root with an honest sidecar, the count check decides coverage. */
  lemma CountsDecide(plan: Plan, root: Root, s: int)
    requires WellFormed(plan) && Faithful(plan, root) && s in root.sidecars && Honest(plan, s, root.sidecars[s])
    ensures CountsCovered(root, s) <==> Covered(plan, root, s)
  {
    var c := PositionAfter(plan.ops, s);
    forall t: Table
      ensures |Kept(root.tables[t].parts, Some(s))| >= root.sidecars[s].partCounts[t] <==>
              View(Kept(root.tables[t].parts, Some(s))) == Window(plan, 0, c, t)
    {
      KeptBeforeStep(plan, root, s, t);
      SubseqLength(View(Kept(root.tables[t].parts, Some(s))), Window(plan, 0, c, t));
    }
  }

  lemma EveryTableListed(t: Table)
    ensures t in WRITER_TABLES
  {
  }

  /** Opening all tables, when none is refused. */
  lemma OpensEvery(plan: Plan, root: Root, requested: set<Table>, live: Live, resume: Option<int>, run: Run)
    requires Faithful(plan, root) && forall t | t in WRITER_TABLES :: t in requested
    requires run == OpenAll(root, WRITER_TABLES, requested, live, resume)
    ensures run.live.Some? && run.live.value.optimizerStep == live.optimizerStep && Complete(run.live.value)
    ensures Faithful(plan, Last(root, run.images)) && SameKept(Last(root, run.images), root, resume)
    ensures OpenedAs(Last(root, run.images), run.live.value, root, WRITER_TABLES, resume)
  {
    OpenAllDone(plan, root, WRITER_TABLES, requested, live, resume, run);
    OpenAllCrash(plan, root, WRITER_TABLES, requested, live, resume, |run.images|, run);
    assert Last(root, run.images) == At(root, run.images, |run.images|);
    forall t: Table
      ensures t in WRITER_TABLES
    {
      EveryTableListed(t);
    }
  }

  lemma AdmittedResume(plan: Plan, root: Root, s: int, sidecar: Sidecar)
    requires HasAllTables(root) && s in root.sidecars && sidecar == root.sidecars[s] && Genuine(plan, s, sidecar)
    ensures StartRun(plan.config, root, Some(s))
            == OpenAll(root, WRITER_TABLES, sidecar.partCounts.Keys, Live(map[], sidecar.optimizerStep, Some(s)), Some(s))
  {
  }

  /** A resume at s opens every table, and each then holds exactly what is kept. */
  lemma ResumeOpens(plan: Plan, root: Root, s: int)
    requires Faithful(plan, root) && s in root.sidecars && Genuine(plan, s, root.sidecars[s])
    ensures var run := StartRun(plan.config, root, Some(s));
            && run.live.Some? && run.live.value.optimizerStep == root.sidecars[s].optimizerStep
            && Complete(run.live.value)
            && Faithful(plan, Last(root, run.images))
            && OpenedAs(Last(root, run.images), run.live.value, root, WRITER_TABLES, Some(s))
  {
    AdmittedResume(plan, root, s, root.sidecars[s]);
    OpensEvery(plan, root, root.sidecars[s].partCounts.Keys, Live(map[], root.sidecars[s].optimizerStep, Some(s)), Some(s),
               StartRun(plan.config, root, Some(s)));
  }

  /** A resume at s stands at the position after step s. */
  lemma ResumeStage(plan: Plan, root: Root, s: int)
    requires WellFormed(plan) && Faithful(plan, root) && s in root.sidecars && Genuine(plan, s, root.sidecars[s])
    ensures var run := StartRun(plan.config, root, Some(s));
            var c := PositionAfter(plan.ops, s);
            && run.live.Some? && Stage(plan, Last(root, run.images), run.live.value, HeadsAfter(root, s), c, c)
  {
    var run := StartRun(plan.config, root, Some(s));
    var c := PositionAfter(plan.ops, s);
    ResumeOpens(plan, root, s);
    AllKeptBeforeStep(plan, root, s);
    OpenedStage(plan, Last(root, run.images), run.live.value, root, s);
  }

  lemma OpenedStage(plan: Plan, x: Root, live: Live, root: Root, s: int)
    requires Faithful(plan, x) && HasAllTables(root) && OpenedAs(x, live, root, WRITER_TABLES, Some(s))
    requires forall t: Table ::
               Subseq(View(Kept(root.tables[t].parts, Some(s))), Window(plan, 0, PositionAfter(plan.ops, s), t))
    requires live.optimizerStep == UpdatesBefore(plan.ops, PositionAfter(plan.ops, s))
    ensures Stage(plan, x, live, HeadsAfter(root, s), PositionAfter(plan.ops, s), PositionAfter(plan.ops, s))
  {
    var c := PositionAfter(plan.ops, s);
    forall t: Table
      ensures t in live.mems && Coherent(x.tables[t], live.mems[t])
      ensures TableAt(plan, x.tables[t], t, HeadsAfter(root, s)[t], c, c)
    {
      OpenedTableAt(plan, x, live, root, s, t);
    }
  }

  lemma OpenedTableAt(plan: Plan, x: Root, live: Live, root: Root, s: int, t: Table)
    requires Faithful(plan, x) && HasAllTables(root) && OpenedAs(x, live, root, WRITER_TABLES, Some(s))
    ensures var c := PositionAfter(plan.ops, s);
            && t in live.mems && Coherent(x.tables[t], live.mems[t])
            && TableAt(plan, x.tables[t], t, HeadsAfter(root, s)[t], c, c)
  {
    EveryTableListed(t);
    var head := View(Kept(root.tables[t].parts, Some(s)));
    assert head + [] == head;
  }

  /** A session is its start and then the emission of everything after step s. */
  lemma SessionUnfolds(plan: Plan, root: Root, s: int, nonce: nat, start: Run)
    requires HasAllTables(root) && start == StartRun(plan.config, root, Some(s))
    requires start.live.Some? && HasAllTables(Last(root, start.images)) && Complete(start.live.value)
    ensures SessionRun(plan, root, Some(s), nonce)
            == Prepend(start.images, OpsRun(plan, Last(root, start.images), start.live.value, PositionAfter(plan.ops, s), nonce))
  {
  }

  /** The parts of a session resumed at s: its start, and then the emission of everything after step s. */
  ghost predicate Parts(plan: Plan, root: Root, s: int, nonce: nat, start: Run, root': Root, rest: Run)
    requires HasAllTables(root)
  {
    && start == StartRun(plan.config, root, Some(s)) && root' == Last(root, start.images)
    && start.live.Some? && HasAllTables(root') && Complete(start.live.value)
    && rest == OpsRun(plan, root', start.live.value, PositionAfter(plan.ops, s), nonce)
  }

  lemma SessionParts(plan: Plan, root: Root, s: int, nonce: nat) returns (start: Run, root': Root, rest: Run)
    requires Faithful(plan, root) && s in root.sidecars && Genuine(plan, s, root.sidecars[s])
    ensures Parts(plan, root, s, nonce, start, root', rest)
  {
    ResumeOpens(plan, root, s);
    start := StartRun(plan.config, root, Some(s));
    root' := Last(root, start.images);
    rest := OpsRun(plan, root', start.live.value, PositionAfter(plan.ops, s), nonce);
  }

  /** The images of a session: those of the start, then those of emitting from the position after s. */
  lemma SessionImages(plan: Plan, root: Root, s: int, nonce: nat, fuel: nat, start: Run, root': Root, rest: Run, left: nat)
    requires HasAllTables(root) && Parts(plan, root, s, nonce, start, root', rest) && left == LeftAfter(start.images, fuel)
    ensures SessionRun(plan, root, Some(s), nonce).live == rest.live
    ensures fuel <= |start.images| ==>
              At(root, SessionRun(plan, root, Some(s), nonce).images, fuel) == At(root, start.images, fuel)
    ensures fuel > |start.images| ==>
              At(root, SessionRun(plan, root, Some(s), nonce).images, fuel) == At(root', rest.images, left)
  {
    SessionUnfolds(plan, root, s, nonce, start);
    PrependImages(root, start.images, rest, fuel, left);
  }

  lemma SessionLast(plan: Plan, root: Root, s: int, nonce: nat, start: Run, root': Root, rest: Run)
    requires HasAllTables(root) && Parts(plan, root, s, nonce, start, root', rest)
    ensures Last(root, SessionRun(plan, root, Some(s), nonce).images) == Last(root', rest.images)
  {
    SessionUnfolds(plan, root, s, nonce, start);
    PrependImages(root, start.images, rest, 0, 0);
  }

  /** After the start of a resumed session nothing fails, whatever crash is faithful, and every table gets the
      whole window. */
  lemma EmittingCrash(plan: Plan, root: Root, s: int, nonce: nat, fuel: nat, start: Run, root': Root, rest: Run)
    requires WellFormed(plan) && Faithful(plan, root) && s in root.sidecars && Genuine(plan, s, root.sidecars[s])
    requires Parts(plan, root, s, nonce, start, root', rest)
    ensures Faithful(plan, At(root', rest.images, fuel))
    ensures rest.live.Some? && PlanDone(plan, Last(root', rest.images), HeadsAfter(root, s), PositionAfter(plan.ops, s))
  {
    var c := PositionAfter(plan.ops, s);
    ResumeStage(plan, root, s);
    OpsCrash(plan, root', start.live.value, HeadsAfter(root, s), c, c, nonce, fuel, rest);
  }

  /** Wherever a resumed session dies, every table is sound and holds batches of the uninterrupted run, in
      its order, each with the optimizer step of the uninterrupted run; left alone, the session ends. */
  lemma ResumedSessionIsFaithful(plan: Plan, root: Root, s: int, nonce: nat, fuel: nat)
    requires WellFormed(plan) && Faithful(plan, root) && s in root.sidecars && Genuine(plan, s, root.sidecars[s])
    ensures Faithful(plan, At(root, SessionRun(plan, root, Some(s), nonce).images, fuel))
    ensures SessionRun(plan, root, Some(s), nonce).live.Some?
  {
    var start, root', rest := SessionParts(plan, root, s, nonce);
    var left := LeftAfter(start.images, fuel);
    SessionImages(plan, root, s, nonce, fuel, start, root', rest, left);
    EmittingCrash(plan, root, s, nonce, left, start, root', rest);
    if fuel <= |start.images| {
      ResumeStartCrash(plan, root, s, fuel, start);
      SameFaithful(plan, At(root, SessionRun(plan, root, Some(s), nonce).images, fuel), At(root, start.images, fuel));
    } else {
      SameFaithful(plan, At(root, SessionRun(plan, root, Some(s), nonce).images, fuel), At(root', rest.images, left));
    }
  }

  lemma ResumeStartCrash(plan: Plan, root: Root, s: int, fuel: nat, start: Run)
    requires Faithful(plan, root) && s in root.sidecars && Genuine(plan, s, root.sidecars[s])
    requires start == StartRun(plan.config, root, Some(s))
    ensures Faithful(plan, At(root, start.images, fuel)) && SameKept(At(root, start.images, fuel), root, Some(s))
  {
    OpenAllCrash(plan, root, WRITER_TABLES, root.sidecars[s].partCounts.Keys,
                 Live(map[], root.sidecars[s].optimizerStep, Some(s)), Some(s), fuel, start);
  }

  /** A resumed session that ends leaves in each table what the resume kept and everything emitted since. */
  lemma ResumedSessionEnds(plan: Plan, root: Root, s: int, nonce: nat, t: Table)
    requires WellFormed(plan) && Faithful(plan, root) && s in root.sidecars && Genuine(plan, s, root.sidecars[s])
    ensures var done := Last(root, SessionRun(plan, root, Some(s), nonce).images);
            && HasAllTables(done)
            && View(done.tables[t].parts)
               == View(Kept(root.tables[t].parts, Some(s))) + Window(plan, PositionAfter(plan.ops, s), |plan.ops|, t)
  {
    var start, root', rest := SessionParts(plan, root, s, nonce);
    EmittingCrash(plan, root, s, nonce, 0, start, root', rest);
    SessionLast(plan, root, s, nonce, start, root', rest);
    assert HeadsAfter(root, s)[t] == View(Kept(root.tables[t].parts, Some(s)));
  }

  /** Resume equals no crash, exactly when nothing is missing: a session resumed at s and run to the end leaves
      every table as an uninterrupted run does, up to the resume markers, if and only if the resume kept all that
      an uninterrupted run would have written through s.  What is missing stays missing. */
  lemma ResumeEqualsNoCrashIffCovered(plan: Plan, root: Root, s: int, nonce: nat)
    requires WellFormed(plan) && Faithful(plan, root) && s in root.sidecars && Genuine(plan, s, root.sidecars[s])
    ensures AtPosition(plan, Last(root, SessionRun(plan, root, Some(s), nonce).images), |plan.ops|)
            <==> Covered(plan, root, s)
  {
    var c := PositionAfter(plan.ops, s);
    var done := Last(root, SessionRun(plan, root, Some(s), nonce).images);
    forall t: Table
      ensures HasAllTables(done)
      ensures View(done.tables[t].parts) == Full(plan, t) <==>
              View(Kept(root.tables[t].parts, Some(s))) == Window(plan, 0, c, t)
    {
      ResumedSessionEnds(plan, root, s, nonce, t);
      WindowSplit(plan, 0, c, |plan.ops|, t);
      var head, tail := View(Kept(root.tables[t].parts, Some(s))), Window(plan, c, |plan.ops|, t);
      if head + tail == Window(plan, 0, c, t) + tail {
        assert |head| == |Window(plan, 0, c, t)|;
        assert head == (head + tail)[..|head|];
      }
    }
  }

  /** With an honest sidecar the count check decides it. */
  lemma ResumeEqualsNoCrashIff(plan: Plan, root: Root, s: int, nonce: nat)
    requires WellFormed(plan) && Faithful(plan, root) && s in root.sidecars && Honest(plan, s, root.sidecars[s])
    ensures AtPosition(plan, Last(root, SessionRun(plan, root, Some(s), nonce).images), |plan.ops|)
            <==> CountsCovered(root, s)
  {
    CountsDecide(plan, root, s);
    ResumeEqualsNoCrashIffCovered(plan, root, s, nonce);
  }

  lemma LongerWindow(plan: Plan, a: nat, b: nat, t: Table)
    requires a <= b <= |plan.ops| && Window(plan, a, b, t) != []
    ensures |Window(plan, 0, a, t)| < |Window(plan, 0, b, t)|
  {
    WindowSplit(plan, 0, a, b, t);
  }

  lemma {:induction false} KeptLength(parts: seq<Part>, resume: Option<int>)
    ensures |Kept(parts, resume)| <= |parts|
  {
    KeptSub(parts, resume);
    SubseqLength(Kept(parts, resume), parts);
  }

  /** What reopening at s leaves of a table is shorter than what an uninterrupted run has at a later checkpoint. */
  lemma ReopenedIsShort(plan: Plan, root: Root, s: int, c': nat, s': int, t: Table, x: Root)
    requires WellFormed(plan) && Faithful(plan, root) && s in root.sidecars && Genuine(plan, s, root.sidecars[s])
    requires x == Last(root, StartRun(plan.config, root, Some(s)).images)
    requires PositionAfter(plan.ops, s) <= c' <= |plan.ops| && Window(plan, PositionAfter(plan.ops, s), c', t) != []
    ensures HasAllTables(x) && |Kept(x.tables[t].parts, Some(s'))| < |Window(plan, 0, c', t)|
  {
    ResumeOpens(plan, root, s);
    EveryTableListed(t);
    KeptBeforeStep(plan, root, s, t);
    SubseqLength(View(Kept(root.tables[t].parts, Some(s))), Window(plan, 0, PositionAfter(plan.ops, s), t));
    LongerWindow(plan, PositionAfter(plan.ops, s), c', t);
    KeptLength(x.tables[t].parts, Some(s'));
  }

  lemma ReopenedRoot(plan: Plan, root: Root, s: int, x: Root)
    requires WellFormed(plan) && Faithful(plan, root) && s in root.sidecars && Genuine(plan, s, root.sidecars[s])
    requires x == Last(root, StartRun(plan.config, root, Some(s)).images)
    ensures Faithful(plan, x) && x.latest == root.latest && x.sidecars == root.sidecars
  {
    var start := StartRun(plan.config, root, Some(s));
    ResumeStartCrash(plan, root, s, |start.images|, start);
    assert x == At(root, start.images, |start.images|);
  }

  /** A resume at an older checkpoint makes every newer sidecar a trap.  If the process dies right after
      reopening at s, nothing on disk tells the newer sidecar is stale: the latest tracker is unchanged, a
      resume at s' is accepted and runs to its end, and the rows between s and s' are missing from the result. */
  lemma StaleCheckpointLosesRows(plan: Plan, root: Root, s: int, s': int, t: Table, nonce: nat, x: Root)
    requires WellFormed(plan) && Faithful(plan, root) && AllHonest(plan, root)
    requires s in root.sidecars && s' in root.sidecars
    requires PositionAfter(plan.ops, s) <= PositionAfter(plan.ops, s')
             && Window(plan, PositionAfter(plan.ops, s), PositionAfter(plan.ops, s'), t) != []
    requires x == Last(root, StartRun(plan.config, root, Some(s)).images)
    ensures HasAllTables(x) && x.latest == root.latest && x.sidecars == root.sidecars && !CountsCovered(x, s')
    ensures var run := SessionRun(plan, x, Some(s'), nonce);
            run.live.Some? && !AtPosition(plan, Last(x, run.images), |plan.ops|)
  {
    ReopenedRoot(plan, root, s, x);
    ReopenedIsShort(plan, root, s, PositionAfter(plan.ops, s'), s', t, x);
    assert Honest(plan, s', x.sidecars[s']);
    ResumeEqualsNoCrashIff(plan, x, s', nonce);
    ResumedSessionIsFaithful(plan, x, s', nonce, 0);
  }
}
