/** What a part table promises: opening repairs, appending is atomic, nothing is lost. */
module PartLogLaws {
  import opened Options
  import opened PartLog
  import opened Subsequences

  predicate Increasing(parts: seq<Part>) {
    forall i, j | 0 <= i < j < |parts| :: parts[i].number < parts[j].number
  }

  predicate AllKept(parts: seq<Part>, resume: Option<int>) {
    forall p | p in parts :: FateOf(p, resume) == Keep
  }

  /** The invariant of a table directory: every listed part is good, part numbers strictly increase
      and primary keys are unique over the whole table. */
  predicate Sound(d: Dir, schema: int) {
    !SchemaClash(d, schema) && SoundParts(d.parts)
  }

  predicate SoundParts(parts: seq<Part>) {
    AllKept(parts, None) && Increasing(parts) && UniqueKeys(RowsOf(parts))
  }

  /** The writer's memory agrees with the directory. */
  predicate Coherent(d: Dir, mem: Mem) {
    mem == MemOf(d.parts)
  }

  /** Every part the directory still holds, listed or quarantined. */
  function Evidence(d: Dir): multiset<Part> {
    multiset(d.parts) + multiset(Held(d.quarantine))
  }

  // ----- filtering -----

  lemma {:induction false} KeptConcat(a: seq<Part>, b: seq<Part>, resume: Option<int>)
    ensures Kept(a + b, resume) == Kept(a, resume) + Kept(b, resume)
    ensures Removed(a + b, resume) == Removed(a, resume) + Removed(b, resume)
  {
    if b == [] {
      assert a + b == a;
    } else {
      assert (a + b)[..|a + b| - 1] == a + b[..|b| - 1];
      KeptConcat(a, b[..|b| - 1], resume);
    }
  }

  lemma {:induction false} KeptAll(parts: seq<Part>, resume: Option<int>)
    requires AllKept(parts, resume)
    ensures Kept(parts, resume) == parts && Removed(parts, resume) == []
  {
    if parts != [] {
      KeptAll(parts[..|parts| - 1], resume);
      assert parts == parts[..|parts| - 1] + [parts[|parts| - 1]];
    }
  }

  lemma {:induction false} RowsConcat(a: seq<Part>, b: seq<Part>)
    ensures RowsOf(a + b) == RowsOf(a) + RowsOf(b)
  {
    if b == [] {
      assert a + b == a;
    } else {
      assert (a + b)[..|a + b| - 1] == a + b[..|b| - 1];
      RowsConcat(a, b[..|b| - 1]);
    }
  }

  /** Dropping parts keeps numbers increasing and keys unique. */
  lemma {:induction false} KeptIsSound(parts: seq<Part>, resume: Option<int>)
    ensures Increasing(parts) ==> Increasing(Kept(parts, resume))
    ensures UniqueKeys(RowsOf(parts)) ==> UniqueKeys(RowsOf(Kept(parts, resume)))
    ensures forall row | row in RowsOf(Kept(parts, resume)) :: row in RowsOf(parts)
  {
    if parts != [] {
      var front, p := parts[..|parts| - 1], parts[|parts| - 1];
      KeptIsSound(front, resume);
      if FateOf(p, resume) == Keep {
        assert Kept(parts, resume) == Kept(front, resume) + [p];
        assert RowsOf(Kept(parts, resume)) == RowsOf(Kept(front, resume)) + p.rows by {
          assert (Kept(front, resume) + [p])[..|Kept(front, resume)|] == Kept(front, resume);
        }
        if UniqueKeys(RowsOf(parts)) {
          UniqueSplit(RowsOf(front), p.rows);
          UniqueSplit(RowsOf(Kept(front, resume)), p.rows);
        }
        forall i, j | Increasing(parts) && 0 <= i < j < |Kept(parts, resume)|
          ensures Kept(parts, resume)[i].number < Kept(parts, resume)[j].number
        {
          if j == |Kept(front, resume)| {
            KeptMembers(front, resume);
            assert Kept(front, resume)[i] in front;
          }
        }
      } else if UniqueKeys(RowsOf(parts)) {
        UniqueSplit(RowsOf(front), p.rows);
      }
    }
  }

  /** Keys of a concatenation are unique exactly when they are unique on both sides and disjoint. */
  lemma UniqueSplit(a: seq<Row>, b: seq<Row>)
    ensures UniqueKeys(a + b) <==>
            UniqueKeys(a) && UniqueKeys(b) && forall r, s | r in a && s in b :: r.key != s.key
  {
    var ab := a + b;
    if UniqueKeys(ab) {
      assert forall i | 0 <= i < |a| :: ab[i] == a[i];
      assert forall j | 0 <= j < |b| :: ab[|a| + j] == b[j];
      forall r, s | r in a && s in b
        ensures r.key != s.key
      {
        var i :| 0 <= i < |a| && a[i] == r;
        var j :| 0 <= j < |b| && b[j] == s;
        assert ab[i] == r && ab[|a| + j] == s;
      }
    }
  }

  lemma UniqueJoin(a: seq<Row>, b: seq<Row>)
    requires UniqueKeys(a) && UniqueKeys(b) && forall r, s | r in a && s in b :: r.key != s.key
    ensures UniqueKeys(a + b)
  {
    UniqueSplit(a, b);
  }

  // ----- opening -----

  function Held(quarantine: seq<Quarantined>): (r: seq<Part>)
    ensures |r| == |quarantine|
  {
    seq(|quarantine|, i requires 0 <= i < |quarantine| => quarantine[i].part)
  }

  /** Moving a part aside loses nothing. */
  lemma MoveAsideKeepsEvidence(d: Dir, i: nat, fate: Fate)
    requires i < |d.parts|
    ensures Evidence(MoveAside(d, i, fate)) == Evidence(d)
  {
    var p := d.parts[i];
    assert Held(MoveAside(d, i, fate).quarantine) == Held(d.quarantine) + [p];
    WithoutParts(d.parts, i);
    assert multiset(d.parts) == multiset(d.parts[..i]) + multiset{p} + multiset(d.parts[i + 1..]);
  }

  lemma BadPart(p: Part, resume: Option<int>)
    requires FateOf(p, resume) != Keep
    ensures Kept([p], resume) == [] && Removed([p], resume) == [Quarantined(FateOf(p, resume), p)]
  {
    assert [p][..0] == [];
  }

  /** Moving bad parts aside changes neither what will be kept nor what ends up in quarantine. */
  lemma MoveAsideSettles(d: Dir, i: nat, resume: Option<int>)
    requires i < |d.parts| && AllKept(d.parts[..i], resume) && FateOf(d.parts[i], resume) != Keep
    ensures var x := MoveAside(d, i, FateOf(d.parts[i], resume));
            && Kept(x.parts, resume) == Kept(d.parts, resume)
            && x.quarantine + Removed(x.parts, resume) == d.quarantine + Removed(d.parts, resume)
  {
    FilterSkips(d.parts[..i], d.parts[i], d.parts[i + 1..], resume);
    WithoutParts(d.parts, i);
  }

  lemma FilterSkips(a: seq<Part>, p: Part, b: seq<Part>, resume: Option<int>)
    requires AllKept(a, resume) && FateOf(p, resume) != Keep
    ensures Kept(a + [p] + b, resume) == Kept(a + b, resume)
    ensures Removed(a + [p] + b, resume) == [Quarantined(FateOf(p, resume), p)] + Removed(a + b, resume)
  {
    KeptAll(a, resume);
    BadPart(p, resume);
    assert Kept(a + [p], resume) == a && Removed(a + [p], resume) == [Quarantined(FateOf(p, resume), p)] by {
      KeptConcat(a, [p], resume);
    }
    KeptConcat(a, b, resume);
    KeptConcat(a + [p], b, resume);
  }

  /** Some bad parts of d have been moved aside, and nothing else has happened. */
  ghost predicate PartlyMoved(x: Dir, d: Dir, resume: Option<int>) {
    && Kept(x.parts, resume) == Kept(d.parts, resume)
    && x.quarantine + Removed(x.parts, resume) == d.quarantine + Removed(d.parts, resume)
    && Evidence(x) == Evidence(d)
    && x == d.(parts := x.parts, quarantine := x.quarantine)
  }

  lemma PartlyMovedTrans(x: Dir, y: Dir, z: Dir, resume: Option<int>)
    requires PartlyMoved(x, y, resume) && PartlyMoved(y, z, resume)
    ensures PartlyMoved(x, z, resume)
  {
  }

  lemma OneMoved(d: Dir, i: nat, resume: Option<int>, d': Dir)
    requires i < |d.parts| && AllKept(d.parts[..i], resume) && FateOf(d.parts[i], resume) != Keep
    requires d' == MoveAside(d, i, FateOf(d.parts[i], resume))
    ensures PartlyMoved(d', d, resume) && i <= |d'.parts| && d'.parts[..i] == d.parts[..i]
  {
    MoveAsideSettles(d, i, resume);
    MoveAsideKeepsEvidence(d, i, FateOf(d.parts[i], resume));
  }

  lemma {:induction false} QuarantineSettles(d: Dir, i: nat, resume: Option<int>, n: nat)
    requires i <= |d.parts| && AllKept(d.parts[..i], resume)
    ensures PartlyMoved(At(d, QuarantineImages(d, i, resume), n), d, resume)
    ensures n >= |QuarantineImages(d, i, resume)| ==>
              At(d, QuarantineImages(d, i, resume), n).parts == Kept(d.parts, resume)
    decreases |d.parts| - i
  {
    if i == |d.parts| {
      assert d.parts[..i] == d.parts;
      KeptAll(d.parts, resume);
    } else {
      var fate := FateOf(d.parts[i], resume);
      if fate == Keep {
        assert d.parts[..i + 1] == d.parts[..i] + [d.parts[i]];
        QuarantineSettles(d, i + 1, resume, n);
      } else {
        var d' := MoveAside(d, i, fate);
        OneMoved(d, i, resume, d');
        AtConcat(d, [d'], QuarantineImages(d', i, resume), n);
        if n > 0 {
          QuarantineSettles(d', i, resume, n - 1);
          PartlyMovedTrans(At(d', QuarantineImages(d', i, resume), n - 1), d', d, resume);
        }
      }
    }
  }

  lemma KeptKept(parts: seq<Part>, resume: Option<int>)
    ensures Kept(Kept(parts, resume), resume) == Kept(parts, resume)
    ensures Removed(Kept(parts, resume), resume) == []
    ensures AllKept(Kept(parts, resume), None)
    ensures Kept(Kept(parts, resume), None) == Kept(parts, resume)
    ensures Removed(Kept(parts, resume), None) == []
  {
    KeptMembers(parts, resume);
    KeptAll(Kept(parts, resume), resume);
    forall p | p in Kept(parts, resume)
      ensures FateOf(p, None) == Keep
    {
      assert FateOf(p, resume) == Keep;
    }
    KeptAll(Kept(parts, resume), None);
  }

  /** Same listing after filtering, same quarantine in the end: the two directories settle alike. */
  ghost predicate SettlesLike(x: Dir, d: Dir, resume: Option<int>) {
    && Kept(x.parts, resume) == Kept(d.parts, resume)
    && x.quarantine + Removed(x.parts, resume) == d.quarantine + Removed(d.parts, resume)
    && x.temporaries == d.temporaries && x.checkpoint == d.checkpoint
    && Evidence(x) == Evidence(d)
  }

  lemma ScanSettles(d: Dir, resume: Option<int>, n: nat)
    ensures var images := QuarantineImages(d, 0, resume);
            && SettlesLike(At(d, images, n), d, resume)
            && At(d, images, n).schema == d.schema && At(d, images, n).manifest == d.manifest
            && Last(d, images) == d.(parts := Kept(d.parts, resume), quarantine := d.quarantine + Removed(d.parts, resume))
  {
    var images := QuarantineImages(d, 0, resume);
    QuarantineSettles(d, 0, resume, n);
    QuarantineSettles(d, 0, resume, |images|);
    var y := At(d, images, |images|);
    KeptKept(d.parts, resume);
    assert y.quarantine + [] == y.quarantine;
  }

  lemma CrashedRebuild(d: Dir, schema: int, resume: Option<int>, fuel: nat)
    requires !SchemaClash(d, schema)
    ensures var images := RebuildImages(d, schema, resume);
            var x := At(d, images, fuel);
            && SettlesLike(x, d, resume) && !SchemaClash(x, schema)
            && (d.schema == Some(schema) ==> Last(d, images) == Settled(d, schema, resume))
  {
    var moves := QuarantineImages(d, 0, resume);
    var settled := Settled(d, schema, resume);
    var tail := if d.manifest == settled.manifest then [] else [settled];
    ScanSettles(d, resume, fuel);
    SettledSettles(d, schema, resume);
    AtConcat(d, moves, tail, fuel);
  }

  /** A crash at any point of an open does no harm: the next open with the same resume step ends in
      the same directory with the same outcome, and no part has left the disk. */
  lemma CrashedOpenConverges(d: Dir, schema: int, resume: Option<int>, fuel: nat)
    requires !SchemaClash(d, schema)
    ensures var x := At(d, OpenImages(d, schema, resume), fuel);
            && !SchemaClash(x, schema)
            && Settled(x, schema, resume) == Settled(d, schema, resume)
            && OpenOutcome(x, schema, resume) == OpenOutcome(d, schema, resume)
            && Evidence(x) == Evidence(d)
    ensures Last(d, OpenImages(d, schema, resume)) == Settled(d, schema, resume)
  {
    var d1 := d.(schema := Some(schema));
    var head := SchemaImages(d, schema);
    AtConcat(d, head, RebuildImages(d1, schema, resume), fuel);
    assert Last(d, head) == d1;
    CrashedRebuild(d1, schema, resume, if fuel <= |head| then 0 else fuel - |head|);
    assert Settled(d1, schema, resume) == Settled(d, schema, resume) && Evidence(d1) == Evidence(d);
  }

  lemma SettledSettles(d: Dir, schema: int, resume: Option<int>)
    ensures SettlesLike(Settled(d, schema, resume), d, resume)
  {
    ScanSettles(d, resume, |QuarantineImages(d, 0, resume)|);
    KeptKept(d.parts, resume);
    var settled := Settled(d, schema, resume);
    assert settled.quarantine + [] == settled.quarantine;
  }

  /** A second open, with the same resume step or with none, touches nothing on disk. */
  lemma ReopenChangesNothing(d: Dir, schema: int, resume: Option<int>)
    ensures var settled := Settled(d, schema, resume);
            && OpenImages(settled, schema, resume) == []
            && OpenImages(settled, schema, None) == []
            && Settled(settled, schema, None) == settled
  {
    var settled := Settled(d, schema, resume);
    KeptKept(d.parts, resume);
    forall r | r == resume || r == None
      ensures Settled(settled, schema, r) == settled && OpenImages(settled, schema, r) == []
    {
      assert settled.quarantine + [] == settled.quarantine;
      KeptMembers(d.parts, resume);
      IdleQuarantine(settled, 0, r);
      assert settled.(schema := Some(schema)) == settled;
    }
  }

  lemma {:induction false} IdleQuarantine(d: Dir, i: nat, resume: Option<int>)
    requires i <= |d.parts| && AllKept(d.parts, resume)
    ensures QuarantineImages(d, i, resume) == []
    decreases |d.parts| - i
  {
    if i < |d.parts| {
      IdleQuarantine(d, i + 1, resume);
    }
  }

  // ----- what opening means, part by part -----

  /** Some row is later than the resume step. */
  predicate ReachesPast(p: Part, resume: Option<int>) {
    exists row | row in p.rows :: resume.Some? && row.step.Some? && resume.value < row.step.value
  }

  /** A part belongs in the table: it reads back in the right schema, every row is complete, and no row is later than
      the resume step. */
  predicate Belongs(p: Part, resume: Option<int>) {
    && p.readable && p.schemaMatches && !ReachesPast(p, resume)
    && forall row | row in p.rows :: row.conforms && row.key.Some?
  }

  /** Opening made `after` of `before`: exactly the parts that belong are listed, as often as before and in the same
      order; every other part is in quarantine, behind what was there, labelled with its reason; and no part is
      gone. */
  ghost predicate Reconciled(before: Dir, after: Dir, resume: Option<int>) {
    && Subseq(after.parts, before.parts)
    && (forall p :: multiset(after.parts)[p] == if Belongs(p, resume) then multiset(before.parts)[p] else 0)
    && before.quarantine <= after.quarantine
    && (forall q | q in after.quarantine[|before.quarantine|..] ::
          && q.part in before.parts && !Belongs(q.part, resume)
          && q.fate == if q.part.readable && ReachesPast(q.part, resume) then FutureStep else Unreadable)
    && Evidence(after) == Evidence(before)
    && after.temporaries == before.temporaries && after.checkpoint == before.checkpoint
  }

  /** No two rows of the listing, at different places, have the same key. */
  ghost predicate DistinctKeys(parts: seq<Part>) {
    forall i, a, j, b | 0 <= i <= j < |parts| && 0 <= a < |parts[i].rows| && 0 <= b < |parts[j].rows| && (i < j || a < b) ::
      parts[i].rows[a].key != parts[j].rows[b].key
  }

  /** One manifest entry for each part, in order. */
  predicate Describe(entries: seq<Entry>, parts: seq<Part>) {
    && |entries| == |parts|
    && forall i | 0 <= i < |parts| :: entries[i] == Entry(parts[i].number, parts[i].uuid, |parts[i].rows|)
  }

  /** A memory holds the manifest entries of the parts and the keys of all rows. */
  ghost predicate Remembers(mem: Mem, parts: seq<Part>) {
    && Describe(mem.entries, parts)
    && forall k :: k in mem.keys <==> exists p, row | p in parts && row in p.rows :: row.key == Some(k)
  }

  lemma BelongsIsKept(p: Part, resume: Option<int>)
    ensures FateOf(p, resume) == Keep <==> Belongs(p, resume)
    ensures FateOf(p, resume) == FutureStep <==> p.readable && ReachesPast(p, resume)
  {
  }

  lemma {:induction false} KeptIsSubseq(parts: seq<Part>, resume: Option<int>)
    ensures Subseq(Kept(parts, resume), parts)
  {
    if parts != [] {
      var front, last := parts[..|parts| - 1], [parts[|parts| - 1]];
      KeptIsSubseq(front, resume);
      assert parts == front + last;
      SubseqOneMore(Kept(front, resume), front, last);
    }
  }

  lemma SubseqOneMore(a: seq<Part>, b: seq<Part>, x: seq<Part>)
    requires Subseq(a, b)
    ensures Subseq(a, b + x) && Subseq(a + x, b + x)
  {
    SubseqWiden(a, b, x);
    SubseqExtend(a, b, x);
  }

  lemma {:induction false} KeptTimes(parts: seq<Part>, resume: Option<int>, p: Part)
    ensures multiset(Kept(parts, resume))[p] == if Belongs(p, resume) then multiset(parts)[p] else 0
  {
    if parts != [] {
      var front, last := parts[..|parts| - 1], parts[|parts| - 1];
      KeptTimes(front, resume, p);
      BelongsIsKept(last, resume);
      assert parts == front + [last];
    }
  }

  lemma {:induction false} RemovedLabels(parts: seq<Part>, resume: Option<int>)
    ensures forall q | q in Removed(parts, resume) ::
              && q.part in parts && !Belongs(q.part, resume)
              && q.fate == if q.part.readable && ReachesPast(q.part, resume) then FutureStep else Unreadable
  {
    if parts != [] {
      var front, last := parts[..|parts| - 1], parts[|parts| - 1];
      RemovedLabels(front, resume);
      BelongsIsKept(last, resume);
    }
  }

  lemma SettledReconciles(d: Dir, x: Dir, resume: Option<int>)
    requires x.parts == Kept(d.parts, resume) && x.quarantine == d.quarantine + Removed(d.parts, resume)
    requires x.temporaries == d.temporaries && x.checkpoint == d.checkpoint
    ensures Reconciled(d, x, resume)
  {
    KeptIsSubseq(d.parts, resume);
    forall p {
      KeptTimes(d.parts, resume, p);
    }
    assert x.quarantine[|d.quarantine|..] == Removed(d.parts, resume);
    RemovedLabels(d.parts, resume);
    SettledEvidence(d, x, resume);
  }

  lemma SettledEvidence(d: Dir, x: Dir, resume: Option<int>)
    requires x.parts == Kept(d.parts, resume) && x.quarantine == d.quarantine + Removed(d.parts, resume)
    ensures Evidence(x) == Evidence(d)
  {
    var moves := QuarantineImages(d, 0, resume);
    ScanSettles(d, resume, |moves|);
    assert Evidence(At(d, moves, |moves|)) == Evidence(d);
  }

  lemma {:induction false} RowsAre(parts: seq<Part>)
    ensures forall row :: row in RowsOf(parts) <==> exists p | p in parts :: row in p.rows
  {
    if parts != [] {
      var front, last := parts[..|parts| - 1], parts[|parts| - 1];
      RowsAre(front);
      assert parts == front + [last];
    }
  }

  lemma MemRemembers(parts: seq<Part>)
    ensures Remembers(MemOf(parts), parts)
  {
    RowsAre(parts);
    forall k
      ensures k in MemOf(parts).keys <==> exists p, row | p in parts && row in p.rows :: row.key == Some(k)
    {
      if k in MemOf(parts).keys {
        var row :| row in RowsOf(parts) && row.key == Some(k);
        var p :| p in parts && row in p.rows;
      }
    }
  }

  lemma {:induction false} UniqueMeans(parts: seq<Part>)
    ensures UniqueKeys(RowsOf(parts)) <==> DistinctKeys(parts)
  {
    if parts != [] {
      var front, last := parts[..|parts| - 1], parts[|parts| - 1];
      UniqueMeans(front);
      UniqueSplit(RowsOf(front), last.rows);
      RowsAre(front);
      if DistinctKeys(parts) {
        DistinctSplits(parts, front, last);
      } else if UniqueKeys(RowsOf(parts)) {
        DistinctJoins(parts, front, last);
      }
    }
  }

  lemma DistinctSplits(parts: seq<Part>, front: seq<Part>, last: Part)
    requires parts == front + [last] && DistinctKeys(parts)
    ensures DistinctKeys(front) && UniqueKeys(last.rows)
    ensures forall p, r, s | p in front && r in p.rows && s in last.rows :: r.key != s.key
  {
    var n := |front|;
    forall i, a, j, b | 0 <= i <= j < n && 0 <= a < |front[i].rows| && 0 <= b < |front[j].rows| && (i < j || a < b)
      ensures front[i].rows[a].key != front[j].rows[b].key
    {
      assert parts[i] == front[i] && parts[j] == front[j];
    }
    forall a, b | 0 <= a < b < |last.rows|
      ensures last.rows[a].key != last.rows[b].key
    {
      assert parts[n].rows[a].key != parts[n].rows[b].key;
    }
    forall p, r, s | p in front && r in p.rows && s in last.rows
      ensures r.key != s.key
    {
      var i :| 0 <= i < n && front[i] == p;
      var a :| 0 <= a < |p.rows| && p.rows[a] == r;
      var b :| 0 <= b < |last.rows| && last.rows[b] == s;
      assert parts[i].rows[a].key != parts[n].rows[b].key;
    }
  }

  lemma DistinctJoins(parts: seq<Part>, front: seq<Part>, last: Part)
    requires parts == front + [last] && DistinctKeys(front) && UniqueKeys(last.rows)
    requires forall p, r, s | p in front && r in p.rows && s in last.rows :: r.key != s.key
    ensures DistinctKeys(parts)
  {
    var n := |front|;
    forall i, a, j, b | 0 <= i <= j <= n && 0 <= a < |parts[i].rows| && 0 <= b < |parts[j].rows| && (i < j || a < b)
      ensures parts[i].rows[a].key != parts[j].rows[b].key
    {
      if j < n {
        assert parts[i] == front[i] && parts[j] == front[j];
      } else if i < n {
        assert parts[i] == front[i] && front[i] in front && parts[i].rows[a] in front[i].rows && parts[n].rows[b] in last.rows;
      }
    }
  }

  /** The parts of a listing that belong repeat no key. */
  ghost predicate DistinctAmong(parts: seq<Part>, resume: Option<int>) {
    forall i, a, j, b | 0 <= i <= j < |parts| && Belongs(parts[i], resume) && Belongs(parts[j], resume)
                        && 0 <= a < |parts[i].rows| && 0 <= b < |parts[j].rows| && (i < j || a < b) ::
      parts[i].rows[a].key != parts[j].rows[b].key
  }

  lemma {:induction false} DistinctKept(parts: seq<Part>, resume: Option<int>)
    ensures DistinctKeys(Kept(parts, resume)) <==> DistinctAmong(parts, resume)
  {
    if parts != [] {
      var front, last := parts[..|parts| - 1], parts[|parts| - 1];
      DistinctKept(front, resume);
      BelongsIsKept(last, resume);
      assert parts == front + [last];
      if Belongs(last, resume) {
        KeptMembers(front, resume);
        forall p {
          BelongsIsKept(p, resume);
        }
        OneMoreDistinct(Kept(front, resume), last, Kept(parts, resume));
        OneMoreAmong(front, last, parts, resume);
      } else {
        SkipAmong(front, last, parts, resume);
      }
    }
  }

  lemma OneMoreDistinct(front: seq<Part>, last: Part, parts: seq<Part>)
    requires parts == front + [last]
    ensures DistinctKeys(parts) <==>
              DistinctKeys(front) && UniqueKeys(last.rows)
              && forall p, r, s | p in front && r in p.rows && s in last.rows :: r.key != s.key
  {
    if DistinctKeys(parts) {
      DistinctSplits(parts, front, last);
    } else if DistinctKeys(front) && UniqueKeys(last.rows)
              && forall p, r, s | p in front && r in p.rows && s in last.rows :: r.key != s.key {
      DistinctJoins(parts, front, last);
    }
  }

  lemma SkipAmong(front: seq<Part>, last: Part, parts: seq<Part>, resume: Option<int>)
    requires parts == front + [last] && !Belongs(last, resume)
    ensures DistinctAmong(parts, resume) <==> DistinctAmong(front, resume)
  {
    assert forall i | 0 <= i < |front| :: parts[i] == front[i];
  }

  lemma OneMoreAmong(front: seq<Part>, last: Part, parts: seq<Part>, resume: Option<int>)
    requires parts == front + [last] && Belongs(last, resume)
    ensures DistinctAmong(parts, resume) <==>
              DistinctAmong(front, resume) && UniqueKeys(last.rows)
              && forall p, r, s | p in front && Belongs(p, resume) && r in p.rows && s in last.rows :: r.key != s.key
  {
    var n := |front|;
    assert forall i | 0 <= i < n :: parts[i] == front[i];
    if DistinctAmong(parts, resume) {
      forall p, r, s | p in front && Belongs(p, resume) && r in p.rows && s in last.rows
        ensures r.key != s.key
      {
        var i :| 0 <= i < n && front[i] == p;
        var a :| 0 <= a < |p.rows| && p.rows[a] == r;
        var b :| 0 <= b < |last.rows| && last.rows[b] == s;
        assert parts[i].rows[a].key != parts[n].rows[b].key;
      }
      forall a, b | 0 <= a < b < |last.rows|
        ensures last.rows[a].key != last.rows[b].key
      {
        assert parts[n].rows[a].key != parts[n].rows[b].key;
      }
    }
    if DistinctAmong(front, resume) && UniqueKeys(last.rows)
       && forall p, r, s | p in front && Belongs(p, resume) && r in p.rows && s in last.rows :: r.key != s.key {
      AmongJoins(front, last, parts, resume);
    }
  }

  lemma AmongJoins(front: seq<Part>, last: Part, parts: seq<Part>, resume: Option<int>)
    requires parts == front + [last] && DistinctAmong(front, resume) && UniqueKeys(last.rows)
    requires forall p, r, s | p in front && Belongs(p, resume) && r in p.rows && s in last.rows :: r.key != s.key
    ensures DistinctAmong(parts, resume)
  {
    var n := |front|;
    forall i, a, j, b | 0 <= i <= j <= n && Belongs(parts[i], resume) && Belongs(parts[j], resume)
                        && 0 <= a < |parts[i].rows| && 0 <= b < |parts[j].rows| && (i < j || a < b)
      ensures parts[i].rows[a].key != parts[j].rows[b].key
    {
      if j < n {
        assert parts[i] == front[i] && parts[j] == front[j];
      } else if i < n {
        assert parts[i] == front[i] && front[i] in front && parts[i].rows[a] in front[i].rows && parts[n].rows[b] in last.rows;
      }
    }
  }

  /** When an open succeeds: the schema file and the manifest name the right schema or are missing, and the parts that
      belong repeat no key.  The listing, the quarantine and the memory are then as they should be. */
  lemma OpenMeans(d: Dir, schema: int, resume: Option<int>)
    ensures var x, outcome := Settled(d, schema, resume), OpenOutcome(d, schema, resume);
            && (outcome == Refused(SchemaMismatch)
                <==> (d.schema.Some? && d.schema.value != schema) || (d.manifest.Some? && d.manifest.value.schema != schema))
            && (outcome != Refused(SchemaMismatch) ==> (outcome.Opened? <==> DistinctKeys(x.parts)))
            && (outcome.Refused? ==> outcome.error == SchemaMismatch || outcome.error == DuplicateCommitted)
            && Reconciled(d, x, resume) && x.schema == Some(schema)
            && (outcome.Opened? ==>
                  Remembers(outcome.mem, x.parts) && x.manifest == Some(Manifest(schema, outcome.mem.entries)))
  {
    var kept := Kept(d.parts, resume);
    UniqueMeans(kept);
    SettledReconciles(d, Settled(d, schema, resume), resume);
    MemRemembers(kept);
  }

  /** Whatever was on disk, a successful open leaves a directory whose listing is exactly the parts that belong,
      and a memory that agrees with it; a sound table stays sound and with no resume step loses nothing. */
  lemma OpenRebuilds(d: Dir, schema: int, resume: Option<int>)
    requires OpenOutcome(d, schema, resume).Opened?
    ensures var x := Settled(d, schema, resume);
            && Coherent(x, OpenOutcome(d, schema, resume).mem) && Remembers(OpenOutcome(d, schema, resume).mem, x.parts)
            && AllKept(x.parts, None) && UniqueKeys(RowsOf(x.parts))
            && Reconciled(d, x, resume) && DistinctKeys(x.parts)
            && forall p :: p in x.parts <==>
                 && p in d.parts && p.readable && p.schemaMatches
                 && (forall row | row in p.rows :: row.conforms && row.key.Some?)
                 && forall row | row in p.rows :: resume.Some? && row.step.Some? ==> row.step.value <= resume.value
    ensures Increasing(d.parts) ==> Sound(Settled(d, schema, resume), schema)
    ensures (forall p | p in d.parts :: Belongs(p, resume)) ==> Settled(d, schema, resume).parts == d.parts
  {
    OpenMeans(d, schema, resume);
    KeptBelongs(d.parts, resume);
    SettledSound(d, schema, resume);
  }

  lemma SettledSound(d: Dir, schema: int, resume: Option<int>)
    requires OpenOutcome(d, schema, resume).Opened?
    ensures var x := Settled(d, schema, resume);
            && Coherent(x, OpenOutcome(d, schema, resume).mem) && AllKept(x.parts, None) && UniqueKeys(RowsOf(x.parts))
            && (Increasing(d.parts) ==> Sound(x, schema))
  {
    KeptKept(d.parts, resume);
    KeptIsSound(d.parts, resume);
  }

  lemma KeptBelongs(parts: seq<Part>, resume: Option<int>)
    ensures forall p :: p in Kept(parts, resume) <==>
              && p in parts && p.readable && p.schemaMatches
              && (forall row | row in p.rows :: row.conforms && row.key.Some?)
              && forall row | row in p.rows :: resume.Some? && row.step.Some? ==> row.step.value <= resume.value
    ensures (forall p | p in parts :: Belongs(p, resume)) ==> Kept(parts, resume) == parts
  {
    KeptMembers(parts, resume);
    forall p
      ensures FateOf(p, resume) == Keep <==> Belongs(p, resume)
    {
      BelongsIsKept(p, resume);
    }
    if AllKept(parts, resume) {
      KeptAll(parts, resume);
    }
  }

  lemma {:induction false} KeptMembers(parts: seq<Part>, resume: Option<int>)
    ensures forall p :: p in Kept(parts, resume) <==> p in parts && FateOf(p, resume) == Keep
  {
    if parts != [] {
      KeptMembers(parts[..|parts| - 1], resume);
      assert parts == parts[..|parts| - 1] + [parts[|parts| - 1]];
    }
  }

  // ----- appending -----

  lemma NewKeysApart(d: Dir, mem: Mem, rows: seq<Row>)
    requires Coherent(d, mem) && AppendError(mem, rows) == None
    ensures forall r, s | r in RowsOf(d.parts) && s in rows :: r.key != s.key
  {
    forall r, s | r in RowsOf(d.parts) && s in rows
      ensures r.key != s.key
    {
      assert s.key.value in KeySet(rows);
      assert s.key.value !in mem.keys by {
        assert forall k | k in KeySet(rows) :: k !in KeySet(rows) * mem.keys;
      }
      if r.key.Some? {
        assert r.key.value in mem.keys;
      }
    }
  }

  lemma NewNumberIsHighest(parts: seq<Part>, mem: Mem, number: int)
    requires mem.entries == Entries(parts) && number == MaxNumber(mem.entries) + 1
    ensures forall i | 0 <= i < |parts| :: parts[i].number < number
  {
    MaxIsLargest(mem.entries);
    assert forall i | 0 <= i < |parts| :: mem.entries[i].number == parts[i].number;
  }

  /** The memory after an append is that of the longer listing. */
  lemma MemGrows(parts: seq<Part>, mem: Mem, rows: seq<Row>, uuid: Uuid, p: Part)
    requires mem == MemOf(parts) && p == NewPart(mem, rows, uuid)
    ensures RowsOf(parts + [p]) == RowsOf(parts) + rows && AppendedMem(mem, rows, uuid) == MemOf(parts + [p])
  {
    assert (parts + [p])[..|parts|] == parts;
    assert KeySet(RowsOf(parts) + rows) == KeySet(RowsOf(parts)) + KeySet(rows);
    assert Entries(parts + [p]) == Entries(parts) + [EntryOf(p)];
  }

  lemma NewKeysJoin(d: Dir, mem: Mem, rows: seq<Row>)
    requires Coherent(d, mem) && AppendError(mem, rows) == None && UniqueKeys(RowsOf(d.parts))
    ensures UniqueKeys(RowsOf(d.parts) + rows)
  {
    NewKeysApart(d, mem, rows);
    UniqueJoin(RowsOf(d.parts), rows);
  }

  lemma NewPartIsGood(mem: Mem, rows: seq<Row>, uuid: Uuid)
    requires AppendError(mem, rows) == None
    ensures FateOf(NewPart(mem, rows, uuid), None) == Keep
  {
  }

  /** A good part with a higher number goes to the end of the listing. */
  lemma NewPartIsLast(parts: seq<Part>, p: Part)
    requires AllKept(parts, None) && Increasing(parts) && FateOf(p, None) == Keep
    requires forall i | 0 <= i < |parts| :: parts[i].number < p.number
    ensures Insert(parts, p) == parts + [p] && AllKept(parts + [p], None) && Increasing(parts + [p])
  {
  }

  /** An accepted batch extends a sound table soundly, at the end of the listing. */
  lemma AppendExtends(d: Dir, schema: int, mem: Mem, rows: seq<Row>, uuid: Uuid)
    requires Sound(d, schema) && Coherent(d, mem) && AppendError(mem, rows) == None
    ensures var p := NewPart(mem, rows, uuid);
            && Insert(d.parts, p) == d.parts + [p]
            && AllKept(d.parts + [p], None) && Increasing(d.parts + [p])
            && RowsOf(d.parts + [p]) == RowsOf(d.parts) + rows
            && UniqueKeys(RowsOf(d.parts + [p]))
            && AppendedMem(mem, rows, uuid) == MemOf(d.parts + [p])
  {
    var p := NewPart(mem, rows, uuid);
    NewNumberIsHighest(d.parts, mem, p.number);
    MemGrows(d.parts, mem, rows, uuid, p);
    NewPartIsGood(mem, rows, uuid);
    NewPartIsLast(d.parts, p);
    NewKeysJoin(d, mem, rows);
  }

  // ----- what appending means -----

  /** A batch that can be appended: not empty, every row complete, no key twice and none committed before. */
  predicate Acceptable(keys: set<Key>, rows: seq<Row>) {
    && rows != []
    && (forall row | row in rows :: row.key.Some? && row.conforms && row.key.value !in keys)
    && forall i, j | 0 <= i < j < |rows| :: rows[i].key != rows[j].key
  }

  /** The first reason, in this order, for which a batch is refused. */
  predicate Refuses(error: Error, keys: set<Key>, rows: seq<Row>) {
    var keyed, distinct := forall row | row in rows :: row.key.Some?, forall i, j | 0 <= i < j < |rows| :: rows[i].key != rows[j].key;
    match error
    case EmptyBatch => rows == []
    case MissingKey => rows != [] && !keyed
    case DuplicateInBatch => keyed && !distinct
    case DuplicateCommitted => keyed && distinct && exists row | row in rows :: row.key.Some? && row.key.value in keys
    case SchemaMismatch =>
      keyed && distinct && (forall row | row in rows :: row.key.Some? && row.key.value !in keys) && exists row | row in rows :: !row.conforms
  }

  lemma RefusalMeans(mem: Mem, rows: seq<Row>)
    ensures AppendError(mem, rows) == None <==> Acceptable(mem.keys, rows)
    ensures AppendError(mem, rows).Some? ==> Refuses(AppendError(mem, rows).value, mem.keys, rows)
  {
    KeysMeet(rows, mem.keys);
  }

  lemma KeysMeet(rows: seq<Row>, keys: set<Key>)
    ensures KeySet(rows) * keys != {} <==> exists row | row in rows :: row.key.Some? && row.key.value in keys
  {
    if row :| row in rows && row.key.Some? && row.key.value in keys {
      assert row.key.value in KeySet(rows) * keys;
    }
    if KeySet(rows) * keys != {} {
      var k :| k in KeySet(rows) * keys;
      var row :| row in rows && row.key == Some(k);
    }
  }

  /** A batch has become a part of the table, with the number after the highest one (0 for the first); the manifest, in
      memory and on disk, and the writer checkpoint say so, and nothing else has changed. */
  ghost predicate Published(before: Dir, after: Dir, schema: int, entries: seq<Entry>, entries': seq<Entry>, rows: seq<Row>,
                            uuid: Uuid)
  {
    && |entries'| == |entries| + 1
    && var n := entries'[|entries|].number;
       var p := Part(n, uuid, rows, true, true);
       && entries' == entries + [Entry(n, uuid, |rows|)]
       && (forall e | e in entries :: e.number < n)
       && (if entries == [] then n == 0 else exists e | e in entries :: e.number == n - 1)
       && multiset(after.parts) == multiset(before.parts) + multiset{p}
       && ((forall q | q in before.parts :: q.number <= n) ==> after.parts == before.parts + [p])
       && after.manifest == Some(Manifest(schema, entries')) && after.checkpoint == Some(Summary(n, |entries'|))
       && after.quarantine == before.quarantine && after.temporaries == before.temporaries && after.schema == before.schema
  }

  lemma {:induction false} InsertBag(parts: seq<Part>, p: Part)
    ensures multiset(Insert(parts, p)) == multiset(parts) + multiset{p}
  {
    if parts != [] && parts[|parts| - 1].number > p.number {
      InsertBag(parts[..|parts| - 1], p);
      assert parts == parts[..|parts| - 1] + [parts[|parts| - 1]];
    }
  }

  /** The number of a new part. */
  lemma NextNumberIs(entries: seq<Entry>, n: int)
    requires n == MaxNumber(entries) + 1
    ensures forall e | e in entries :: e.number < n
    ensures if entries == [] then n == 0 else exists e | e in entries :: e.number == n - 1
  {
    MaxIsLargest(entries);
    if entries != [] {
      var i :| 0 <= i < |entries| && entries[i].number == MaxNumber(entries);
      assert entries[i] in entries;
    }
  }

  lemma LastIsHighest(entries: seq<Entry>, e: Entry)
    requires e.number == MaxNumber(entries) + 1
    ensures SummaryOf(entries + [e]) == Summary(e.number, |entries| + 1)
  {
    assert (entries + [e])[..|entries|] == entries;
  }

  lemma AppendMeans(d: Dir, schema: int, mem: Mem, rows: seq<Row>, uuid: Uuid)
    ensures Published(d, Last(d, AppendImages(d, schema, mem, rows, uuid)), schema, mem.entries,
                      AppendedMem(mem, rows, uuid).entries, rows, uuid)
    ensures forall k :: k in AppendedMem(mem, rows, uuid).keys <==> k in mem.keys || exists row | row in rows :: row.key == Some(k)
  {
    var p := NewPart(mem, rows, uuid);
    AppendEnds(d, schema, mem, rows, uuid, p, mem.entries + [EntryOf(p)]);
    PublishedPart(d, Last(d, AppendImages(d, schema, mem, rows, uuid)), schema, mem.entries, mem.entries + [EntryOf(p)], p);
  }

  lemma AppendEnds(d: Dir, schema: int, mem: Mem, rows: seq<Row>, uuid: Uuid, p: Part, entries': seq<Entry>)
    requires p == NewPart(mem, rows, uuid) && entries' == mem.entries + [EntryOf(p)]
    ensures Last(d, AppendImages(d, schema, mem, rows, uuid))
            == d.(parts := Insert(d.parts, p), manifest := Some(Manifest(schema, entries')),
                  checkpoint := Some(SummaryOf(entries')))
  {
  }

  lemma PublishedPart(d: Dir, x: Dir, schema: int, entries: seq<Entry>, entries': seq<Entry>, p: Part)
    requires p.number == MaxNumber(entries) + 1 && p.readable && p.schemaMatches && entries' == entries + [EntryOf(p)]
    requires x == d.(parts := Insert(d.parts, p), manifest := Some(Manifest(schema, entries')),
                     checkpoint := Some(SummaryOf(entries')))
    ensures Published(d, x, schema, entries, entries', p.rows, p.uuid)
  {
    NextNumberIs(entries, p.number);
    LastIsHighest(entries, EntryOf(p));
    InsertBag(d.parts, p);
    InsertBehind(d.parts, p);
  }

  lemma InsertBehind(parts: seq<Part>, p: Part)
    ensures (forall q | q in parts :: q.number <= p.number) ==> Insert(parts, p) == parts + [p]
  {
  }

  lemma AppendImageParts(d: Dir, schema: int, mem: Mem, rows: seq<Row>, uuid: Uuid, fuel: nat)
    ensures var x := At(d, AppendImages(d, schema, mem, rows, uuid), fuel);
            && x.parts == (if fuel < 3 then d.parts else Insert(d.parts, NewPart(mem, rows, uuid)))
            && x.quarantine == d.quarantine && x.schema == d.schema
            && (x.manifest == d.manifest || (x.manifest.Some? && x.manifest.value.schema == schema))
  {
    assert fuel == 0 || fuel == 1 || fuel == 2 || fuel == 3 || fuel == 4 || fuel >= 5;
  }

  /** What the crash images of an append hold, compared with the directory before. */
  lemma CrashedAppendImage(d: Dir, schema: int, mem: Mem, rows: seq<Row>, uuid: Uuid, fuel: nat)
    requires Sound(d, schema) && Coherent(d, mem) && AppendError(mem, rows) == None
    ensures var x := At(d, AppendImages(d, schema, mem, rows, uuid), fuel);
            && x.parts == (if fuel < 3 then d.parts else d.parts + [NewPart(mem, rows, uuid)])
            && x.quarantine == d.quarantine
            && Sound(x, schema)
            && RowsOf(x.parts) == (if fuel < 3 then RowsOf(d.parts) else RowsOf(d.parts) + rows)
  {
    AppendExtends(d, schema, mem, rows, uuid);
    AppendImageParts(d, schema, mem, rows, uuid, fuel);
  }

  lemma FinishedAppend(d: Dir, schema: int, mem: Mem, rows: seq<Row>, uuid: Uuid)
    requires Sound(d, schema) && Coherent(d, mem) && AppendError(mem, rows) == None
    ensures var done := Last(d, AppendImages(d, schema, mem, rows, uuid));
            && Sound(done, schema) && Coherent(done, AppendedMem(mem, rows, uuid))
            && done.parts == d.parts + [NewPart(mem, rows, uuid)]
  {
    AppendExtends(d, schema, mem, rows, uuid);
    CrashedAppendImage(d, schema, mem, rows, uuid, 5);
  }

  /** A sound table is already settled. */
  lemma SoundIsSettled(d: Dir, schema: int)
    requires Sound(d, schema)
    ensures var reopened := Settled(d, schema, None);
            && reopened.parts == d.parts && reopened.quarantine == d.quarantine
            && OpenOutcome(d, schema, None) == Opened(MemOf(d.parts))
            && Sound(reopened, schema)
            && OpenImages(reopened, schema, None) == []
  {
    KeptAll(d.parts, None);
    assert d.quarantine + [] == d.quarantine;
    ReopenChangesNothing(d, schema, None);
  }

  /** Append is atomic under crashes: wherever the process dies, the next open finds the old rows, or the
      old rows and the whole batch - the latter exactly when the rename had happened - in a sound table,
      with a memory that agrees with the disk; opening once more changes nothing. */
  lemma CrashedAppendIsAtomic(d: Dir, schema: int, mem: Mem, rows: seq<Row>, uuid: Uuid, fuel: nat)
    requires Sound(d, schema) && Coherent(d, mem) && AppendError(mem, rows) == None
    ensures var crashed := At(d, AppendImages(d, schema, mem, rows, uuid), fuel);
            var reopened := Settled(crashed, schema, None);
            && OpenOutcome(crashed, schema, None) == Opened(MemOf(reopened.parts))
            && RowsOf(reopened.parts) == (if fuel < 3 then RowsOf(d.parts) else RowsOf(d.parts) + rows)
            && d.parts <= reopened.parts
            && Sound(reopened, schema)
            && reopened.quarantine == d.quarantine
            && OpenImages(reopened, schema, None) == []
  {
    CrashedAppendImage(d, schema, mem, rows, uuid, fuel);
    SoundIsSettled(At(d, AppendImages(d, schema, mem, rows, uuid), fuel), schema);
  }
}
