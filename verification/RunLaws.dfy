/** Facts about plans and tables that the theorems about whole runs rest on. */
module RunLaws {
  import opened Options
  import opened PartLog
  import opened PartLogLaws
  import opened OutputDisk
  import opened RunModel
  import opened Subsequences

  type Batch = seq<Row>

  // ----- parts that survive an open -----

  lemma {:induction false} KeptSub(parts: seq<Part>, resume: Option<int>)
    ensures Subseq(Kept(parts, resume), parts)
  {
    if parts != [] {
      var front, p := parts[..|parts| - 1], parts[|parts| - 1];
      KeptSub(front, resume);
      assert parts == front + [p];
      if FateOf(p, resume) == Keep {
        SubseqExtend(Kept(front, resume), front, [p]);
      } else {
        SubseqWiden(Kept(front, resume), front, [p]);
      }
    }
  }

  lemma {:induction false} RowsSub(a: seq<Part>, b: seq<Part>)
    requires Subseq(a, b)
    ensures forall row | row in RowsOf(a) :: row in RowsOf(b)
    decreases |b|
  {
    if a != [] {
      var b' := b[..|b| - 1];
      if a[|a| - 1] == b[|b| - 1] && Subseq(a[..|a| - 1], b') {
        RowsSub(a[..|a| - 1], b');
      } else {
        RowsSub(a, b');
      }
    }
  }

  /** Any subsequence of a sound listing is sound. */
  lemma {:induction false} SoundSub(a: seq<Part>, b: seq<Part>)
    requires Subseq(a, b) && SoundParts(b)
    ensures SoundParts(a)
    decreases |b|
  {
    if a != [] {
      var a', b', p := a[..|a| - 1], b[..|b| - 1], b[|b| - 1];
      UniqueSplit(RowsOf(b'), p.rows);
      if a[|a| - 1] == p && Subseq(a', b') {
        SoundSub(a', b');
        SubseqMembers(a', b');
        RowsSub(a', b');
        UniqueSplit(RowsOf(a'), p.rows);
        SubseqMembers(a, b);
        IncreasingEnd(a', b', p);
        assert a == a' + [p] && b == b' + [p];
      } else {
        SoundSub(a, b');
      }
    }
  }

  lemma IncreasingEnd(a: seq<Part>, b: seq<Part>, p: Part)
    requires Increasing(a) && Increasing(b + [p])
    requires forall q | q in a :: q in b
    ensures Increasing(a + [p])
  {
    forall i, j | 0 <= i < j < |a + [p]|
      ensures (a + [p])[i].number < (a + [p])[j].number
    {
      if j == |a| {
        assert a[i] in b;
        var k :| 0 <= k < |b| && b[k] == a[i];
        assert (b + [p])[k] == a[i] && (b + [p])[|b|] == p;
      }
    }
  }

  lemma QuarantineHead(d: Dir, i: nat, resume: Option<int>, n: nat, d': Dir)
    requires i < |d.parts| && n > 0 && FateOf(d.parts[i], resume) != Keep
    requires d' == MoveAside(d, i, FateOf(d.parts[i], resume))
    ensures At(d, QuarantineImages(d, i, resume), n) == At(d', QuarantineImages(d', i, resume), n - 1)
    ensures d'.parts == d.parts[..i] + d.parts[i + 1..]
  {
    AtConcat(d, [d'], QuarantineImages(d', i, resume), n);
  }

  lemma {:induction false} QuarantineSub(d: Dir, i: nat, resume: Option<int>, n: nat)
    requires i <= |d.parts|
    ensures Subseq(At(d, QuarantineImages(d, i, resume), n).parts, d.parts)
    decreases |d.parts| - i
  {
    SubseqRefl(d.parts);
    if i < |d.parts| && n > 0 {
      var fate := FateOf(d.parts[i], resume);
      if fate == Keep {
        QuarantineSub(d, i + 1, resume, n);
      } else {
        var d' := MoveAside(d, i, fate);
        QuarantineHead(d, i, resume, n, d');
        QuarantineSub(d', i, resume, n - 1);
        SubseqWithout(d.parts, i);
        SubseqTrans(At(d, QuarantineImages(d, i, resume), n).parts, d'.parts, d.parts);
      }
    }
  }

  lemma RebuildSub(d: Dir, schema: int, resume: Option<int>, n: nat)
    requires !SchemaClash(d, schema)
    ensures Subseq(At(d, RebuildImages(d, schema, resume), n).parts, d.parts)
  {
    var moves := QuarantineImages(d, 0, resume);
    var settled := Settled(d, schema, resume);
    AtConcat(d, moves, if d.manifest == settled.manifest then [] else [settled], n);
    QuarantineSub(d, 0, resume, n);
    QuarantineSub(d, 0, resume, |moves|);
    KeptSub(d.parts, resume);
  }

  lemma OpenSub(d: Dir, schema: int, resume: Option<int>, fuel: nat)
    requires !SchemaClash(d, schema)
    ensures var x := At(d, OpenImages(d, schema, resume), fuel);
            && Subseq(x.parts, d.parts) && Kept(x.parts, resume) == Kept(d.parts, resume)
  {
    var d1 := d.(schema := Some(schema));
    var head := SchemaImages(d, schema);
    var n := if fuel <= |head| then 0 else fuel - |head|;
    AtConcat(d, head, RebuildImages(d1, schema, resume), fuel);
    RebuildSub(d1, schema, resume, n);
    CrashedRebuild(d1, schema, resume, n);
    SubseqRefl(d.parts);
  }

  /** Opening a sound table, crash or not: the listing stays sound, loses nothing that would be kept, and a
      completed open leaves exactly the kept parts. */
  lemma OpenOfSound(d: Dir, schema: int, resume: Option<int>, fuel: nat)
    requires Sound(d, schema)
    ensures var x := At(d, OpenImages(d, schema, resume), fuel);
            && Sound(x, schema) && Subseq(x.parts, d.parts)
            && Kept(x.parts, resume) == Kept(d.parts, resume)
            && (resume == None ==> x.parts == d.parts)
    ensures var x := Last(d, OpenImages(d, schema, resume));
            && x.parts == Kept(d.parts, resume) && Sound(x, schema)
            && OpenOutcome(d, schema, resume) == Opened(MemOf(x.parts))
  {
    OpenSub(d, schema, resume, fuel);
    CrashedOpenConverges(d, schema, resume, fuel);
    var x := At(d, OpenImages(d, schema, resume), fuel);
    SoundSub(x.parts, d.parts);
    if resume == None {
      KeptAll(x.parts, None);
      KeptAll(d.parts, None);
    }
    KeptSub(d.parts, resume);
    SoundSub(Kept(d.parts, resume), d.parts);
  }

  // ----- views -----

  lemma ViewConcat(a: seq<Part>, b: seq<Part>)
    ensures View(a + b) == View(a) + View(b)
  {
  }

  lemma {:induction false} ViewSub(a: seq<Part>, b: seq<Part>)
    requires Subseq(a, b)
    ensures Subseq(View(a), View(b))
    decreases |b|
  {
    if a != [] {
      var a', b', p := a[..|a| - 1], b[..|b| - 1], b[|b| - 1];
      assert b == b' + [p];
      ViewConcat(b', [p]);
      if a[|a| - 1] == p && Subseq(a', b') {
        ViewSub(a', b');
        assert a == a' + [p];
        ViewConcat(a', [p]);
        SubseqExtend(View(a'), View(b'), View([p]));
      } else {
        ViewSub(a, b');
        SubseqWiden(View(a), View(b'), View([p]));
      }
    }
  }

  /** The batches without any row of a step after s. */
  function UpTo(batches: seq<Batch>, s: int): seq<Batch> {
    if batches == [] then []
    else
      var rest := UpTo(batches[..|batches| - 1], s);
      if HasFuture(batches[|batches| - 1], Some(s)) then rest else rest + [batches[|batches| - 1]]
  }

  lemma StripFuture(rows: seq<Row>, resume: Option<int>)
    ensures HasFuture(Strip(rows), resume) <==> HasFuture(rows, resume)
  {
    if resume.Some? {
      assert forall i | 0 <= i < |rows| :: IsFuture(Strip(rows)[i], resume.value) == IsFuture(rows[i], resume.value);
      if HasFuture(rows, resume) {
        var i :| 0 <= i < |rows| && IsFuture(rows[i], resume.value);
        assert Strip(rows)[i] in Strip(rows);
      }
    }
  }

  lemma {:induction false} ViewKept(parts: seq<Part>, s: int)
    requires AllKept(parts, None)
    ensures View(Kept(parts, Some(s))) == UpTo(View(parts), s)
  {
    if parts != [] {
      var front, p := parts[..|parts| - 1], parts[|parts| - 1];
      ViewKept(front, s);
      assert parts == front + [p];
      assert View(parts)[..|parts| - 1] == View(front);
      StripFuture(p.rows, Some(s));
      assert FateOf(p, None) == Keep;
      assert FateOf(p, Some(s)) == Keep <==> !HasFuture(p.rows, Some(s));
      ViewConcat(Kept(front, Some(s)), [p]);
    }
  }

  lemma {:induction false} UpToConcat(a: seq<Batch>, b: seq<Batch>, s: int)
    ensures UpTo(a + b, s) == UpTo(a, s) + UpTo(b, s)
  {
    if b == [] {
      assert a + b == a;
    } else {
      assert (a + b)[..|a + b| - 1] == a + b[..|b| - 1];
      UpToConcat(a, b[..|b| - 1], s);
    }
  }

  lemma {:induction false} UpToSub(a: seq<Batch>, b: seq<Batch>, s: int)
    requires Subseq(a, b)
    ensures Subseq(UpTo(a, s), UpTo(b, s))
    decreases |b|
  {
    if a != [] {
      var a', b', x := a[..|a| - 1], b[..|b| - 1], b[|b| - 1];
      if a[|a| - 1] == x && Subseq(a', b') {
        UpToSub(a', b', s);
        if !HasFuture(x, Some(s)) {
          SubseqExtend(UpTo(a', s), UpTo(b', s), [x]);
        }
      } else {
        UpToSub(a, b', s);
        if !HasFuture(x, Some(s)) {
          SubseqWiden(UpTo(a, s), UpTo(b', s), [x]);
        }
      }
    }
  }

  // ----- plans -----

  lemma {:induction false} WindowSplit(plan: Plan, a: nat, b: nat, c: nat, t: Table)
    requires a <= b <= c <= |plan.ops|
    ensures Window(plan, a, c, t) == Window(plan, a, b, t) + Window(plan, b, c, t)
    decreases c
  {
    if b < c {
      WindowSplit(plan, a, b, c - 1, t);
    }
  }

  lemma {:induction false} PositionSplits(ops: seq<Op>, s: int)
    requires forall i, j | 0 <= i < j < |ops| :: ops[i].step <= ops[j].step
    ensures forall i | 0 <= i < |ops| :: i < PositionAfter(ops, s) <==> ops[i].step <= s
  {
    if ops != [] {
      if ops[0].step <= s {
        PositionSplits(ops[1..], s);
        forall i | 0 <= i < |ops|
          ensures i < PositionAfter(ops, s) <==> ops[i].step <= s
        {
          if i > 0 {
            assert ops[1..][i - 1] == ops[i];
          }
        }
      }
    }
  }

  /** The rows of a batch carry the step of its op. */
  lemma ContributionStep(plan: Plan, i: nat, t: Table, s: int)
    requires WellFormed(plan) && i < |plan.ops|
    ensures UpTo(Contribution(plan, i, t), s) == if plan.ops[i].step <= s then Contribution(plan, i, t) else []
  {
    var op := plan.ops[i];
    if !op.CheckpointOp? && OpTable(op) == t {
      assert GoodBatch(op);
      var rows := OpRows(plan.config, op, UpdatesBefore(plan.ops, i), None);
      assert rows[0] in rows;
      StripFuture(rows, Some(s));
      assert HasFuture(rows, Some(s)) <==> op.step > s by {
        assert IsFuture(rows[0], s) <==> op.step > s;
      }
      var c := Contribution(plan, i, t);
      assert c[..0] == [] && c == [] + [c[0]];
    }
  }

  lemma StepAtPosition(plan: Plan, i: nat, s: int)
    requires WellFormed(plan) && i < |plan.ops|
    ensures i < PositionAfter(plan.ops, s) <==> plan.ops[i].step <= s
  {
    PositionSplits(plan.ops, s);
  }

  lemma WindowLast(plan: Plan, b: nat, t: Table)
    requires 0 < b <= |plan.ops|
    ensures Window(plan, 0, b, t) == Window(plan, 0, b - 1, t) + Contribution(plan, b - 1, t)
  {
  }

  /** Growing by batches that are all kept, or all dropped. */
  lemma UpToGrow(front: seq<Batch>, c: seq<Batch>, all: seq<Batch>, s: int)
    requires all == front + c
    ensures UpTo(c, s) == c ==> UpTo(all, s) == UpTo(front, s) + c
    ensures UpTo(c, s) == [] ==> UpTo(all, s) == UpTo(front, s)
  {
    UpToConcat(front, c, s);
  }

  lemma UpToPosition(plan: Plan, i: nat, t: Table, s: int)
    requires WellFormed(plan) && i < |plan.ops|
    ensures i < PositionAfter(plan.ops, s) ==> UpTo(Contribution(plan, i, t), s) == Contribution(plan, i, t)
    ensures i >= PositionAfter(plan.ops, s) ==> UpTo(Contribution(plan, i, t), s) == []
  {
    StepAtPosition(plan, i, s);
    ContributionStep(plan, i, t, s);
  }

  lemma {:induction false} UpToEarly(plan: Plan, b: nat, t: Table, s: int)
    requires WellFormed(plan) && b <= PositionAfter(plan.ops, s)
    ensures UpTo(Window(plan, 0, b, t), s) == Window(plan, 0, b, t)
  {
    if b > 0 {
      var i := b - 1;
      UpToEarly(plan, i, t, s);
      UpToPosition(plan, i, t, s);
      WindowLast(plan, b, t);
      UpToGrow(Window(plan, 0, i, t), Contribution(plan, i, t), Window(plan, 0, b, t), s);
    }
  }

  /** Filtering an uninterrupted table by step is cutting it at the position of that step. */
  lemma {:induction false} UpToWindow(plan: Plan, b: nat, t: Table, s: int)
    requires WellFormed(plan) && PositionAfter(plan.ops, s) <= b <= |plan.ops|
    ensures UpTo(Window(plan, 0, b, t), s) == Window(plan, 0, PositionAfter(plan.ops, s), t)
    decreases b
  {
    if b == PositionAfter(plan.ops, s) {
      UpToEarly(plan, b, t, s);
    } else {
      var i := b - 1;
      UpToWindow(plan, i, t, s);
      UpToPosition(plan, i, t, s);
      WindowLast(plan, b, t);
      UpToGrow(Window(plan, 0, i, t), Contribution(plan, i, t), Window(plan, 0, b, t), s);
    }
  }

  // ----- keys -----

  function BatchKeys(batches: seq<Batch>): set<Key> {
    set b, row | b in batches && row in b && row.key.Some? :: row.key.value
  }

  lemma StripKeys(rows: seq<Row>)
    ensures KeySet(Strip(rows)) == KeySet(rows)
  {
    forall k | k in KeySet(rows)
      ensures k in KeySet(Strip(rows))
    {
      var row :| row in rows && row.key == Some(k);
      var i :| 0 <= i < |rows| && rows[i] == row;
      assert Strip(rows)[i] in Strip(rows);
    }
  }

  lemma {:induction false} ViewKeys(parts: seq<Part>)
    ensures BatchKeys(View(parts)) == KeySet(RowsOf(parts))
  {
    if parts != [] {
      var front, p := parts[..|parts| - 1], parts[|parts| - 1];
      ViewKeys(front);
      assert View(parts) == View(front) + [Strip(p.rows)];
      StripKeys(p.rows);
      BatchKeysAppend(View(front), Strip(p.rows));
      assert KeySet(RowsOf(front) + p.rows) == KeySet(RowsOf(front)) + KeySet(p.rows);
    }
  }

  lemma BatchKeysAppend(batches: seq<Batch>, rows: Batch)
    ensures BatchKeys(batches + [rows]) == BatchKeys(batches) + KeySet(rows)
  {
    var all := batches + [rows];
    forall k | k in BatchKeys(batches) + KeySet(rows)
      ensures k in BatchKeys(all)
    {
      if k in KeySet(rows) {
        var row :| row in rows && row.key == Some(k);
        assert all[|batches|] == rows && rows in all;
      } else {
        var b, row :| b in batches && row in b && row.key == Some(k);
        assert b in all;
      }
    }
  }

  lemma OpKeys(config: Config, op: Op, before: int, mark: Option<int>)
    requires !op.CheckpointOp?
    ensures KeySet(OpRows(config, op, before, mark)) == KeySet(OpRows(config, op, 0, None))
  {
    if op.TrainOp? {
      var a, b := OpRows(config, op, before, mark), OpRows(config, op, 0, None);
      assert a[0] in a && b[0] in b;
    }
  }

  /** Keys of an op are new to everything committed before it on its table. */
  lemma {:induction false} WindowKeys(plan: Plan, a: nat, b: nat, n: nat)
    requires WellFormed(plan) && a <= b <= n < |plan.ops| && !plan.ops[n].CheckpointOp?
    ensures BatchKeys(Window(plan, a, b, OpTable(plan.ops[n]))) !! KeySet(OpRows(plan.config, plan.ops[n], 0, None))
    decreases b
  {
    var t, op := OpTable(plan.ops[n]), plan.ops[n];
    if a < b {
      WindowKeys(plan, a, b - 1, n);
      var other := plan.ops[b - 1];
      if !other.CheckpointOp? && OpTable(other) == t {
        var before := UpdatesBefore(plan.ops, b - 1);
        BatchKeysAppend(Window(plan, a, b - 1, t), Strip(OpRows(plan.config, other, before, None)));
        StripKeys(OpRows(plan.config, other, before, None));
        OpKeys(plan.config, other, before, None);
        assert KeysApart(plan.config, other, op);
      }
    }
  }

  lemma SubKeys(a: seq<Batch>, b: seq<Batch>)
    requires Subseq(a, b)
    ensures BatchKeys(a) <= BatchKeys(b)
  {
    SubseqMembers(a, b);
  }
}
