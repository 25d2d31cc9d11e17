/** Selecting trajectories and measuring support (latent_grpo_runner/metrics/support.py:117-201), over the reals. */
module SupportSelection {
  import opened Options
  import opened Floats

  datatype Trajectory = Trajectory(group: string, id: nat, correct: bool, score: Float, overlong: bool)

  // ----- the groups -----

  /** `dict.fromkeys(group_ids)`: the groups in the order of their first trajectory. */
  function Groups(ts: seq<Trajectory>): seq<string> {
    if ts == [] then []
    else
      var front, g := Groups(ts[..|ts| - 1]), ts[|ts| - 1].group;
      if g in front then front else front + [g]
  }

  lemma {:induction false} GroupsAre(ts: seq<Trajectory>)
    ensures forall g :: g in Groups(ts) <==> exists i :: 0 <= i < |ts| && ts[i].group == g
  {
    if ts != [] {
      var front := ts[..|ts| - 1];
      GroupsAre(front);
      forall g
        ensures g in Groups(ts) <==> exists i :: 0 <= i < |ts| && ts[i].group == g
      {
        if i :| 0 <= i < |front| && front[i].group == g {
          assert ts[i].group == g;
        }
        if i :| 0 <= i < |ts| && ts[i].group == g {
          assert i < |front| ==> front[i].group == g;
        }
      }
    }
  }

  lemma {:induction false} GroupsDistinct(ts: seq<Trajectory>, i: nat, j: nat)
    requires i < j < |Groups(ts)|
    ensures Groups(ts)[i] != Groups(ts)[j]
  {
    var front := Groups(ts[..|ts| - 1]);
    if j < |front| {
      GroupsDistinct(ts[..|ts| - 1], i, j);
    } else {
      assert front[i] in front;
    }
  }

  // ----- the best candidate -----

  /** Trajectory i may represent its group and class. */
  predicate Candidate(ts: seq<Trajectory>, i: nat, group: string, correct: bool) {
    && i < |ts| && ts[i].group == group && ts[i].correct == correct
    && !ts[i].overlong && ts[i].score.Finite?
  }

  /** Order of the tuples (score, -id, index). */
  predicate Better(ts: seq<Trajectory>, i: nat, j: nat)
    requires i < |ts| && j < |ts| && ts[i].score.Finite? && ts[j].score.Finite?
  {
    ts[i].score.value > ts[j].score.value
    || (ts[i].score.value == ts[j].score.value && (ts[i].id < ts[j].id || (ts[i].id == ts[j].id && i > j)))
  }

  ghost predicate IsBest(ts: seq<Trajectory>, i: nat, group: string, correct: bool) {
    Candidate(ts, i, group, correct)
    && forall j: nat | Candidate(ts, j, group, correct) && j != i :: Better(ts, i, j)
  }

  /** A trajectory of this group and class that is not overlong and has a finite score. */
  predicate Eligible(t: Trajectory, group: string, correct: bool) {
    t.group == group && t.correct == correct && !t.overlong && t.score != NotFinite
  }

  /** Trajectory i is eligible for its group and class, no eligible one has a higher score, none of the same score has
      a smaller id, and none with the same id stands behind it. */
  ghost predicate Selected(ts: seq<Trajectory>, i: nat) {
    && i < |ts| && Eligible(ts[i], ts[i].group, ts[i].correct)
    && forall j: nat | j < |ts| && Eligible(ts[j], ts[i].group, ts[i].correct) :: !Outranks(ts, j, i)
  }

  predicate Outranks(ts: seq<Trajectory>, j: nat, i: nat)
    requires i < |ts| && j < |ts| && ts[i].score != NotFinite && ts[j].score != NotFinite
  {
    var a, b := ts[j].score.value, ts[i].score.value;
    b < a || (b == a && ts[j].id < ts[i].id) || (b == a && ts[j].id == ts[i].id && i < j)
  }

  lemma BestMeans(ts: seq<Trajectory>, i: nat)
    ensures i < |ts| && IsBest(ts, i, ts[i].group, ts[i].correct) <==> Selected(ts, i)
  {
    if i < |ts| {
      forall j: nat | j < |ts|
        ensures Candidate(ts, j, ts[i].group, ts[i].correct) <==> Eligible(ts[j], ts[i].group, ts[i].correct)
        ensures ts[i].score.Finite? && ts[j].score.Finite? && j != i ==> (Better(ts, i, j) <==> !Outranks(ts, j, i))
      {
      }
    }
  }

  /** `max` over the candidates of a group and class. */
  method BestCandidate(ts: seq<Trajectory>, group: string, correct: bool) returns (best: Option<nat>)
    ensures best.None? ==> forall j: nat :: !Candidate(ts, j, group, correct)
    ensures best.Some? ==> IsBest(ts, best.value, group, correct)
    ensures best.None? <==> forall j | 0 <= j < |ts| :: !Eligible(ts[j], group, correct)
    ensures best.Some? ==> Selected(ts, best.value) && Eligible(ts[best.value], group, correct)
  {
    best := None;
    for i := 0 to |ts|
      invariant best.None? ==> forall j: nat | j < i :: !Candidate(ts, j, group, correct)
      invariant best.Some? ==> best.value < i && Candidate(ts, best.value, group, correct)
      invariant best.Some? ==>
                  forall j: nat | j < i && Candidate(ts, j, group, correct) && j != best.value :: Better(ts, best.value, j)
    {
      if Candidate(ts, i, group, correct) && (best.None? || Better(ts, i, best.value)) {
        best := Some(i);
      }
    }
    FoundMeans(ts, group, correct, best);
  }

  lemma FoundMeans(ts: seq<Trajectory>, group: string, correct: bool, best: Option<nat>)
    requires best.None? ==> forall j: nat :: !Candidate(ts, j, group, correct)
    requires best.Some? ==> IsBest(ts, best.value, group, correct)
    ensures best.None? <==> forall j | 0 <= j < |ts| :: !Eligible(ts[j], group, correct)
    ensures best.Some? ==> Selected(ts, best.value) && Eligible(ts[best.value], group, correct)
  {
    if best.Some? {
      BestMeans(ts, best.value);
    } else {
      forall j | 0 <= j < |ts|
        ensures !Eligible(ts[j], group, correct)
      {
        assert !Candidate(ts, j, group, correct);
      }
    }
  }

  // ----- the selection -----

  /** Trajectory i is selected for its group and class. */
  ghost predicate Represents(ts: seq<Trajectory>, i: nat) {
    i < |ts| && IsBest(ts, i, ts[i].group, ts[i].correct)
  }

  ghost predicate SameSlot(ts: seq<Trajectory>, i: nat, j: nat) {
    i < |ts| && j < |ts| && ts[i].group == ts[j].group && ts[i].correct == ts[j].correct
  }

  /** Exactly the best candidates of the groups `done` have been selected, one for each group and class. */
  ghost predicate SelectedFor(ts: seq<Trajectory>, done: seq<string>, selected: seq<nat>) {
    && (forall k | 0 <= k < |selected| :: Represents(ts, selected[k]) && ts[selected[k]].group in done)
    && (forall a, b | 0 <= a < b < |selected| :: !SameSlot(ts, selected[a], selected[b]))
    && (forall i: nat | Represents(ts, i) && ts[i].group in done :: i in selected)
  }

  lemma BestIsUnique(ts: seq<Trajectory>, i: nat, j: nat)
    requires Represents(ts, i) && Represents(ts, j) && SameSlot(ts, i, j)
    ensures i == j
  {
    assert Candidate(ts, j, ts[i].group, ts[i].correct) && Candidate(ts, i, ts[j].group, ts[j].correct);
  }

  /** `_select_trajectories`: at most one trajectory for each group and class, the candidate with the highest score
      and then the smallest id; every group and class with a candidate has one. */
  method SelectTrajectories(ts: seq<Trajectory>) returns (selected: seq<nat>)
    ensures forall k | 0 <= k < |selected| :: Represents(ts, selected[k])
    ensures forall a, b | 0 <= a < b < |selected| :: !SameSlot(ts, selected[a], selected[b])
    ensures forall i: nat | Represents(ts, i) :: i in selected
    ensures forall i: nat :: i in selected <==> Selected(ts, i)
  {
    forall i: nat
      ensures Represents(ts, i) <==> Selected(ts, i)
    {
      BestMeans(ts, i);
    }
    var groups := Groups(ts);
    selected := [];
    for g := 0 to |groups|
      invariant SelectedFor(ts, groups[..g], selected)
    {
      var correct := BestCandidate(ts, groups[g], true);
      var other := BestCandidate(ts, groups[g], false);
      assert groups[g] !in groups[..g] by {
        forall i | 0 <= i < g
          ensures groups[i] != groups[g]
        {
          GroupsDistinct(ts, i, g);
        }
      }
      AddGroup(ts, groups[..g], selected, groups[g], correct, other);
      assert groups[..g + 1] == groups[..g] + [groups[g]];
      selected := selected + Listed(correct) + Listed(other);
    }
    assert groups[..|groups|] == groups;
    GroupsAre(ts);
  }

  function Listed(i: Option<nat>): seq<nat> {
    if i.Some? then [i.value] else []
  }

  ghost predicate BestOrNone(ts: seq<Trajectory>, best: Option<nat>, group: string, correct: bool) {
    match best
    case None => forall j: nat :: !Candidate(ts, j, group, correct)
    case Some(i) => IsBest(ts, i, group, correct)
  }

  lemma AddGroup(ts: seq<Trajectory>, done: seq<string>, selected: seq<nat>, g: string, correct: Option<nat>,
                 other: Option<nat>)
    requires SelectedFor(ts, done, selected) && g !in done
    requires BestOrNone(ts, correct, g, true) && BestOrNone(ts, other, g, false)
    ensures SelectedFor(ts, done + [g], selected + Listed(correct) + Listed(other))
  {
    var more := selected + Listed(correct) + Listed(other);
    forall k | 0 <= k < |more|
      ensures Represents(ts, more[k]) && ts[more[k]].group in done + [g]
      ensures k < |selected| ==> ts[more[k]].group in done && more[k] == selected[k]
      ensures k >= |selected| ==> ts[more[k]].group == g
    {
      if k < |selected| {
        assert Represents(ts, selected[k]);
      }
    }
    forall i: nat | Represents(ts, i) && ts[i].group in done + [g]
      ensures i in more
    {
      if ts[i].group == g {
        BestIsListed(ts, g, if ts[i].correct then correct else other, i);
      }
    }
  }

  lemma BestIsListed(ts: seq<Trajectory>, g: string, best: Option<nat>, i: nat)
    requires Represents(ts, i) && ts[i].group == g && BestOrNone(ts, best, g, ts[i].correct)
    ensures i in Listed(best)
  {
    assert best.Some?;
    BestIsUnique(ts, i, best.value);
    assert best.value in Listed(best);
  }

  // ----- candidate counts -----

  function One(b: bool): nat {
    if b then 1 else 0
  }

  /** `_candidate_count`. */
  function CandidateCount(ts: seq<Trajectory>, group: string): nat {
    if ts == [] then 0
    else CandidateCount(ts[..|ts| - 1], group) + One(ts[|ts| - 1].group == group && !ts[|ts| - 1].overlong)
  }

  /** The candidate count of the benchmark row. */
  function AllCandidates(ts: seq<Trajectory>): nat {
    if ts == [] then 0 else AllCandidates(ts[..|ts| - 1]) + One(!ts[|ts| - 1].overlong)
  }

  function SumCounts(ts: seq<Trajectory>, groups: seq<string>): nat {
    if groups == [] then 0 else SumCounts(ts, groups[..|groups| - 1]) + CandidateCount(ts, groups[|groups| - 1])
  }

  function Occurrences(groups: seq<string>, g: string): nat {
    if groups == [] then 0 else Occurrences(groups[..|groups| - 1], g) + One(groups[|groups| - 1] == g)
  }

  lemma {:induction false} OneMoreTrajectory(ts: seq<Trajectory>, t: Trajectory, groups: seq<string>)
    ensures SumCounts(ts + [t], groups) == SumCounts(ts, groups) + if t.overlong then 0 else Occurrences(groups, t.group)
  {
    if groups != [] {
      OneMoreTrajectory(ts, t, groups[..|groups| - 1]);
      assert (ts + [t])[..|ts|] == ts;
    }
  }

  lemma {:induction false} NoCandidates(ts: seq<Trajectory>, g: string)
    requires g !in Groups(ts)
    ensures CandidateCount(ts, g) == 0
  {
    if ts != [] {
      NoCandidates(ts[..|ts| - 1], g);
    }
  }

  lemma {:induction false} OccursOnce(ts: seq<Trajectory>, g: string)
    ensures Occurrences(Groups(ts), g) == One(g in Groups(ts))
  {
    if ts != [] {
      var front := Groups(ts[..|ts| - 1]);
      OccursOnce(ts[..|ts| - 1], g);
      if ts[|ts| - 1].group !in front {
        assert (front + [ts[|ts| - 1].group])[..|front|] == front;
      }
    }
  }

  /** The candidate counts of the groups sum to the benchmark's candidate count. */
  lemma {:induction false} CountsConserved(ts: seq<Trajectory>)
    ensures SumCounts(ts, Groups(ts)) == AllCandidates(ts)
  {
    if ts != [] {
      var front, t := ts[..|ts| - 1], ts[|ts| - 1];
      CountsConserved(front);
      assert ts == front + [t];
      OneMoreTrajectory(front, t, Groups(front));
      OccursOnce(front, t.group);
      if t.group !in Groups(front) {
        assert (Groups(front) + [t.group])[..|Groups(front)|] == Groups(front);
        NoCandidates(front, t.group);
      }
    }
  }

  // ----- retention -----

  const PADDING := -100

  function ToSet(xs: seq<int>): set<int> {
    set x | x in xs
  }

  lemma {:induction false} SetSize(xs: seq<int>)
    ensures |ToSet(xs)| <= |xs|
  {
    if xs == [] {
      assert ToSet(xs) == {};
    } else {
      var front, last := xs[..|xs| - 1], xs[|xs| - 1];
      SetSize(front);
      assert xs == front + [last];
      assert ToSet(xs) == ToSet(front) + {last};
    }
  }

  /** A position counts unless it is masked out, hard, or holds a padding token. */
  predicate Counted(rollout: seq<int>, included: bool) {
    && included && PADDING !in rollout
    && !(|rollout| > 1 && forall i | 1 <= i < |rollout| :: rollout[i] == PADDING)
  }

  function Kept(rollout: seq<int>, clean: seq<int>): nat {
    |ToSet(rollout) * ToSet(clean)|
  }

  lemma KeptBound(rollout: seq<int>, clean: seq<int>)
    ensures Kept(rollout, clean) <= |rollout|
  {
    SetSize(rollout);
    SubsetSize(ToSet(rollout) * ToSet(clean), ToSet(rollout));
  }

  lemma SubsetSize(a: set<int>, b: set<int>)
    requires a <= b
    ensures |a| <= |b|
  {
    assert b == a + (b - a);
  }

  function CountedTo(rollout: seq<seq<int>>, mask: seq<bool>, p: nat): nat
    requires p <= |rollout| == |mask|
  {
    if p == 0 then 0 else CountedTo(rollout, mask, p - 1) + One(Counted(rollout[p - 1], mask[p - 1]))
  }

  /** Tokens kept over the counted positions. */
  function KeptTo(rollout: seq<seq<int>>, clean: seq<seq<int>>, mask: seq<bool>, p: nat): nat
    requires p <= |rollout| == |clean| == |mask|
  {
    if p == 0 then 0
    else KeptTo(rollout, clean, mask, p - 1) + if Counted(rollout[p - 1], mask[p - 1]) then Kept(rollout[p - 1], clean[p - 1]) else 0
  }

  /** Counted positions whose first token was kept. */
  function FirstKept(rollout: seq<seq<int>>, clean: seq<seq<int>>, mask: seq<bool>, p: nat): nat
    requires p <= |rollout| == |clean| == |mask| && forall q | 0 <= q < |rollout| :: |rollout[q]| > 0
  {
    if p == 0 then 0
    else FirstKept(rollout, clean, mask, p - 1)
         + One(Counted(rollout[p - 1], mask[p - 1]) && rollout[p - 1][0] in clean[p - 1])
  }

  // ----- what is counted -----

  /** The positions that count: included, and without a padding token. */
  ghost function CountedPositions(rollout: seq<seq<int>>, mask: seq<bool>): set<nat>
    requires |rollout| == |mask|
  {
    set p: nat | p < |rollout| && mask[p] && forall i | 0 <= i < |rollout[p]| :: rollout[p][i] != -100
  }

  /** The different tokens of the counted positions that are also among the clean tokens of their position. */
  ghost function KeptTokens(rollout: seq<seq<int>>, clean: seq<seq<int>>, mask: seq<bool>): set<(nat, int)>
    requires |rollout| == |clean| == |mask|
  {
    set p: nat, t: int | p < |rollout| && p in CountedPositions(rollout, mask) && t in rollout[p] && t in clean[p] :: (p, t)
  }

  /** The counted positions whose first token is among the clean tokens. */
  ghost function FirstTokens(rollout: seq<seq<int>>, clean: seq<seq<int>>, mask: seq<bool>): set<nat>
    requires |rollout| == |clean| == |mask| && forall q | 0 <= q < |rollout| :: |rollout[q]| > 0
  {
    set p: nat | p < |rollout| && p in CountedPositions(rollout, mask) && rollout[p][0] in clean[p]
  }

  lemma CountedMeans(rollout: seq<seq<int>>, mask: seq<bool>, p: nat)
    requires p < |rollout| == |mask|
    ensures Counted(rollout[p], mask[p]) <==> p in CountedPositions(rollout, mask)
  {
    NoPadding(rollout[p]);
  }

  /** A hard token is one with padding behind its first token, so the check for padding covers it. */
  lemma NoPadding(tokens: seq<int>)
    ensures PADDING !in tokens <==> forall i | 0 <= i < |tokens| :: tokens[i] != -100
    ensures PADDING !in tokens && |tokens| > 1 ==> tokens[1] != PADDING
  {
    forall i | 0 <= i < |tokens|
      ensures tokens[i] in tokens
    {
    }
  }

  lemma {:induction false} CountedToIs(rollout: seq<seq<int>>, mask: seq<bool>, p: nat)
    requires p <= |rollout| == |mask|
    ensures CountedTo(rollout, mask, p) == |set q | q in CountedPositions(rollout, mask) && q < p|
  {
    var all := CountedPositions(rollout, mask);
    if p == 0 {
      assert (set q | q in all && q < p) == {};
    } else {
      CountedToIs(rollout, mask, p - 1);
      CountedMeans(rollout, mask, p - 1);
      OneMorePosition(all, p - 1);
    }
  }

  lemma OneMorePosition(all: set<nat>, p: nat)
    ensures |set q | q in all && q < p + 1| == |set q | q in all && q < p| + if p in all then 1 else 0
  {
    var before, after := set q | q in all && q < p, set q | q in all && q < p + 1;
    assert after == if p in all then before + {p} else before;
  }

  lemma {:induction false} FirstKeptIs(rollout: seq<seq<int>>, clean: seq<seq<int>>, mask: seq<bool>, p: nat)
    requires p <= |rollout| == |clean| == |mask| && forall q | 0 <= q < |rollout| :: |rollout[q]| > 0
    ensures FirstKept(rollout, clean, mask, p) == |set q | q in FirstTokens(rollout, clean, mask) && q < p|
  {
    var all := FirstTokens(rollout, clean, mask);
    if p == 0 {
      assert (set q | q in all && q < p) == {};
    } else {
      FirstKeptIs(rollout, clean, mask, p - 1);
      CountedMeans(rollout, mask, p - 1);
      OneMorePosition(all, p - 1);
    }
  }

  ghost function Tagged(tokens: set<int>, p: nat): set<(nat, int)> {
    set t | t in tokens :: (p, t)
  }

  lemma TaggedStep(tokens: set<int>, t: int, p: nat)
    ensures Tagged(tokens + {t}, p) == Tagged(tokens, p) + {(p, t)}
    ensures |Tagged(tokens + {t}, p)| == |Tagged(tokens, p)| + if t in tokens then 0 else 1
    ensures |tokens + {t}| == |tokens| + if t in tokens then 0 else 1
  {
    assert Tagged(tokens + {t}, p) == Tagged(tokens, p) + {(p, t)};
    if t in tokens {
      assert tokens + {t} == tokens;
    }
  }

  /** Naming the position does not change the number of tokens. */
  lemma {:induction false} TaggedSize(rollout: seq<int>, clean: seq<int>, p: nat)
    ensures |Tagged(ToSet(rollout) * ToSet(clean), p)| == Kept(rollout, clean)
  {
    if rollout == [] {
      assert ToSet(rollout) * ToSet(clean) == {} && Tagged({}, p) == {};
    } else {
      var n := |rollout| - 1;
      var front, last := rollout[..n], rollout[n];
      TaggedSize(front, clean, p);
      assert rollout == front + [last];
      TokensStep(front, last, clean);
      if last in clean {
        TaggedStep(ToSet(front) * ToSet(clean), last, p);
      }
    }
  }

  lemma {:induction false} KeptToIs(rollout: seq<seq<int>>, clean: seq<seq<int>>, mask: seq<bool>, p: nat)
    requires p <= |rollout| == |clean| == |mask|
    ensures KeptTo(rollout, clean, mask, p) == |set pair | pair in KeptTokens(rollout, clean, mask) && pair.0 < p|
  {
    var all := KeptTokens(rollout, clean, mask);
    if p == 0 {
      assert (set pair | pair in all && pair.0 < p) == {};
    } else {
      KeptToIs(rollout, clean, mask, p - 1);
      CountedMeans(rollout, mask, p - 1);
      KeptAt(rollout, clean, mask, p - 1, all);
    }
  }

  lemma OneMorePair(all: set<(nat, int)>, p: nat, here: set<(nat, int)>)
    requires forall pair :: pair in here <==> pair in all && pair.0 == p
    ensures |set pair | pair in all && pair.0 < p + 1| == |set pair | pair in all && pair.0 < p| + |here|
  {
    var before, after := set pair | pair in all && pair.0 < p, set pair | pair in all && pair.0 < p + 1;
    assert after == before + here && before !! here;
  }

  lemma KeptAt(rollout: seq<seq<int>>, clean: seq<seq<int>>, mask: seq<bool>, p: nat, all: set<(nat, int)>)
    requires p < |rollout| == |clean| == |mask| && all == KeptTokens(rollout, clean, mask)
    ensures |set pair | pair in all && pair.0 < p + 1|
            == |set pair | pair in all && pair.0 < p|
               + if p in CountedPositions(rollout, mask) then Kept(rollout[p], clean[p]) else 0
  {
    if p in CountedPositions(rollout, mask) {
      PairsHere(rollout, clean, mask, p);
      OneMorePair(all, p, Tagged(ToSet(rollout[p]) * ToSet(clean[p]), p));
      TaggedSize(rollout[p], clean[p], p);
    } else {
      OneMorePair(all, p, {});
    }
  }

  lemma PairsHere(rollout: seq<seq<int>>, clean: seq<seq<int>>, mask: seq<bool>, p: nat)
    requires p < |rollout| == |clean| == |mask| && p in CountedPositions(rollout, mask)
    ensures forall pair :: pair in Tagged(ToSet(rollout[p]) * ToSet(clean[p]), p) <==>
                             pair in KeptTokens(rollout, clean, mask) && pair.0 == p
  {
    forall pair: (nat, int)
      ensures pair in Tagged(ToSet(rollout[p]) * ToSet(clean[p]), p) <==>
                pair in KeptTokens(rollout, clean, mask) && pair.0 == p
    {
      assert pair == (pair.0, pair.1);
    }
  }

  /** The three counts, without the sums. */
  lemma CountsMean(rollout: seq<seq<int>>, clean: seq<seq<int>>, mask: seq<bool>)
    requires |rollout| == |clean| == |mask| && forall q | 0 <= q < |rollout| :: |rollout[q]| > 0
    ensures CountedTo(rollout, mask, |rollout|) == |CountedPositions(rollout, mask)|
    ensures KeptTo(rollout, clean, mask, |rollout|) == |KeptTokens(rollout, clean, mask)|
    ensures FirstKept(rollout, clean, mask, |rollout|) == |FirstTokens(rollout, clean, mask)|
  {
    var n := |rollout|;
    CountedToIs(rollout, mask, n);
    KeptToIs(rollout, clean, mask, n);
    FirstKeptIs(rollout, clean, mask, n);
    assert (set q | q in CountedPositions(rollout, mask) && q < n) == CountedPositions(rollout, mask);
    assert (set pair | pair in KeptTokens(rollout, clean, mask) && pair.0 < n) == KeptTokens(rollout, clean, mask);
    assert (set q | q in FirstTokens(rollout, clean, mask) && q < n) == FirstTokens(rollout, clean, mask);
  }

  predicate DistinctTokens(tokens: seq<int>) {
    forall i, j | 0 <= i < j < |tokens| :: tokens[i] != tokens[j]
  }

  lemma {:induction false} DistinctSize(xs: seq<int>)
    requires DistinctTokens(xs)
    ensures |ToSet(xs)| == |xs|
  {
    if xs == [] {
      assert ToSet(xs) == {};
    } else {
      var front, last := xs[..|xs| - 1], xs[|xs| - 1];
      DistinctSize(front);
      assert xs == front + [last];
      assert ToSet(xs) == ToSet(front) + {last};
    }
  }

  /** All tokens of a position are kept exactly when all are clean; none exactly when none is. */
  lemma KeptExtremes(rollout: seq<int>, clean: seq<int>)
    requires DistinctTokens(rollout)
    ensures Kept(rollout, clean) == |rollout| <==> forall i | 0 <= i < |rollout| :: rollout[i] in clean
    ensures Kept(rollout, clean) == 0 <==> forall i | 0 <= i < |rollout| :: rollout[i] !in clean
  {
    DistinctSize(rollout);
    var both := ToSet(rollout) * ToSet(clean);
    SubsetSize(both, ToSet(rollout));
    if Kept(rollout, clean) == |rollout| {
      SameSize(both, ToSet(rollout));
      assert forall i | 0 <= i < |rollout| :: rollout[i] in both;
    }
    if forall i | 0 <= i < |rollout| :: rollout[i] in clean {
      assert both == ToSet(rollout);
    }
    if Kept(rollout, clean) == 0 {
      assert forall i | 0 <= i < |rollout| :: rollout[i] !in both;
    }
  }

  lemma SameSize(a: set<int>, b: set<int>)
    requires a <= b && |a| == |b|
    ensures a == b
  {
    assert b == a + (b - a) && |b| == |a| + |b - a|;
    assert b - a == {};
  }

  lemma FullStep(kept: nat, more: nat, count: nat, k: nat)
    requires kept <= count * k && more <= k
    ensures kept + more <= (count + 1) * k
    ensures kept + more == (count + 1) * k <==> kept == count * k && more == k
  {
    assert (count + 1) * k == count * k + k;
  }

  /** Over all counted positions, likewise. */
  lemma {:induction false} KeptToExtremes(rollout: seq<seq<int>>, clean: seq<seq<int>>, mask: seq<bool>, k: nat, p: nat)
    requires p <= |rollout| == |clean| == |mask|
    requires forall q | 0 <= q < |rollout| :: |rollout[q]| == k
    requires forall q | 0 <= q < p && Counted(rollout[q], mask[q]) :: DistinctTokens(rollout[q])
    ensures KeptTo(rollout, clean, mask, p) <= CountedTo(rollout, mask, p) * k
    ensures KeptTo(rollout, clean, mask, p) == CountedTo(rollout, mask, p) * k <==>
              forall q, i | 0 <= q < p && Counted(rollout[q], mask[q]) && 0 <= i < k :: rollout[q][i] in clean[q]
    ensures KeptTo(rollout, clean, mask, p) == 0 <==>
              forall q, i | 0 <= q < p && Counted(rollout[q], mask[q]) && 0 <= i < k :: rollout[q][i] !in clean[q]
  {
    if p > 0 {
      KeptToExtremes(rollout, clean, mask, k, p - 1);
      if Counted(rollout[p - 1], mask[p - 1]) {
        KeptBound(rollout[p - 1], clean[p - 1]);
        KeptExtremes(rollout[p - 1], clean[p - 1]);
        FullStep(KeptTo(rollout, clean, mask, p - 1), Kept(rollout[p - 1], clean[p - 1]), CountedTo(rollout, mask, p - 1), k);
      }
    }
  }

  /** The places of clean tokens, and the clean tokens, of a list. */
  ghost function CleanPlaces(rollout: seq<int>, clean: seq<int>): set<nat> {
    set i: nat | i < |rollout| && rollout[i] in clean
  }

  lemma PlacesStep(front: seq<int>, last: int, clean: seq<int>)
    ensures CleanPlaces(front + [last], clean) == CleanPlaces(front, clean) + if last in clean then {|front|} else {}
  {
    var all := front + [last];
    assert forall i: nat | i < |front| :: all[i] == front[i];
  }

  lemma TokensStep(front: seq<int>, last: int, clean: seq<int>)
    ensures ToSet(front + [last]) * ToSet(clean) == ToSet(front) * ToSet(clean) + if last in clean then {last} else {}
  {
  }

  /** Different tokens are as many as their places. */
  lemma {:induction false} DistinctPlaces(rollout: seq<int>, clean: seq<int>)
    requires DistinctTokens(rollout)
    ensures Kept(rollout, clean) == |CleanPlaces(rollout, clean)| == |set i | 0 <= i < |rollout| && rollout[i] in clean|
  {
    assert CleanPlaces(rollout, clean) == set i | 0 <= i < |rollout| && rollout[i] in clean;
    if rollout == [] {
      assert ToSet(rollout) * ToSet(clean) == {};
    } else {
      var n := |rollout| - 1;
      var front, last := rollout[..n], rollout[n];
      DistinctPlaces(front, clean);
      assert rollout == front + [last];
      PlacesStep(front, last, clean);
      TokensStep(front, last, clean);
      assert last !in ToSet(front) && n !in CleanPlaces(front, clean);
    }
  }

  lemma {:induction false} OnlyOne(rollout: seq<seq<int>>, clean: seq<seq<int>>, mask: seq<bool>, p: nat, n: nat)
    requires n <= |rollout| == |clean| == |mask| && p < |rollout|
    requires forall q | 0 <= q < |rollout| :: Counted(rollout[q], mask[q]) <==> q == p
    ensures KeptTo(rollout, clean, mask, n) == if p < n then Kept(rollout[p], clean[p]) else 0
    ensures CountedTo(rollout, mask, n) == if p < n then 1 else 0
  {
    if n > 0 {
      OnlyOne(rollout, clean, mask, p, n - 1);
    }
  }

  predicate SumIs(sum: real, kept: nat, k: nat) {
    sum * k as real == kept as real
  }

  /** The three accumulators after p positions. */
  ghost predicate Tallied(rollout: seq<seq<int>>, clean: seq<seq<int>>, mask: seq<bool>, k: nat, p: nat,
                          retentionSum: real, top1Count: nat, effectiveCount: nat)
    requires p <= |rollout| == |clean| == |mask| && forall q | 0 <= q < |rollout| :: |rollout[q]| > 0
  {
    && effectiveCount == CountedTo(rollout, mask, p)
    && top1Count == FirstKept(rollout, clean, mask, p) <= effectiveCount
    && SumIs(retentionSum, KeptTo(rollout, clean, mask, p), k)
    && KeptTo(rollout, clean, mask, p) <= effectiveCount * k
  }

  lemma TallyNext(rollout: seq<seq<int>>, clean: seq<seq<int>>, mask: seq<bool>, k: nat, p: nat,
                  retentionSum: real, top1Count: nat, effectiveCount: nat)
    requires p < |rollout| == |clean| == |mask| && k > 0
    requires forall q | 0 <= q < |rollout| :: |rollout[q]| == k
    requires Tallied(rollout, clean, mask, k, p, retentionSum, top1Count, effectiveCount) && Counted(rollout[p], mask[p])
    ensures Tallied(rollout, clean, mask, k, p + 1, retentionSum + Kept(rollout[p], clean[p]) as real / k as real,
                    top1Count + One(rollout[p][0] in ToSet(clean[p])), effectiveCount + 1)
  {
    KeptBound(rollout[p], clean[p]);
    NextShare(retentionSum, KeptTo(rollout, clean, mask, p), Kept(rollout[p], clean[p]), k, effectiveCount);
  }

  /** The effective count is the number of counted positions; the rates are missing without one, and otherwise are the
      share of kept tokens among the k of every counted position, and of counted positions whose first token is kept. */
  ghost predicate Measured(retention: Option<real>, top1: Option<real>, effective: nat, rollout: seq<seq<int>>,
                           clean: seq<seq<int>>, mask: seq<bool>, k: nat)
    requires |rollout| == |clean| == |mask| && k > 0 && forall p | 0 <= p < |rollout| :: |rollout[p]| == k
  {
    && effective == |CountedPositions(rollout, mask)|
    && (retention.Some? <==> effective > 0) && (top1.Some? <==> effective > 0)
    && (retention.Some? ==>
          && 0.0 <= retention.value <= 1.0
          && retention.value * (effective * k) as real == |KeptTokens(rollout, clean, mask)| as real
          && RetentionIs(rollout, clean, mask, k, retention.value))
    && (top1.Some? ==>
          && 0.0 <= top1.value <= 1.0
          && top1.value * effective as real == |FirstTokens(rollout, clean, mask)| as real)
  }

  /** The two retention rates of one trajectory, None without a counted position.  Both are rates: the kept share
      of the k tokens of all counted positions, and the share of counted positions whose first token was kept. */
  method Retention(rollout: seq<seq<int>>, clean: seq<seq<int>>, mask: seq<bool>, k: nat)
    returns (retention: Option<real>, top1: Option<real>, effectiveCount: nat)
    requires |rollout| == |clean| == |mask| && k > 0
    requires forall p | 0 <= p < |rollout| :: |rollout[p]| == k
    ensures effectiveCount == CountedTo(rollout, mask, |rollout|)
    ensures (retention.Some? <==> effectiveCount > 0) && (top1.Some? <==> effectiveCount > 0)
    ensures retention.Some? ==> IsRate(retention.value, KeptTo(rollout, clean, mask, |rollout|), effectiveCount * k)
    ensures top1.Some? ==> IsRate(top1.value, FirstKept(rollout, clean, mask, |rollout|), effectiveCount)
    ensures Measured(retention, top1, effectiveCount, rollout, clean, mask, k)
  {
    retention, top1, effectiveCount := Tally(rollout, clean, mask, k);
    CountsMean(rollout, clean, mask);
    if retention.Some? {
      RetentionMeans(rollout, clean, mask, k, retention.value, effectiveCount);
    }
  }

  /** What the rate says when the tokens of each counted position are different: it is 1 exactly when all of them are
      clean tokens of their position and 0 exactly when none is, and for a single counted position it is the share of
      the k places with a clean token. */
  ghost predicate RetentionIs(rollout: seq<seq<int>>, clean: seq<seq<int>>, mask: seq<bool>, k: nat, rate: real)
    requires |rollout| == |clean| == |mask| && forall p | 0 <= p < |rollout| :: |rollout[p]| == k
  {
    (forall p | p in CountedPositions(rollout, mask) :: DistinctTokens(rollout[p])) ==>
      && (rate == 1.0 <==> forall p, i | p in CountedPositions(rollout, mask) && 0 <= i < k :: rollout[p][i] in clean[p])
      && (rate == 0.0 <==> forall p, i | p in CountedPositions(rollout, mask) && 0 <= i < k :: rollout[p][i] !in clean[p])
      && forall p | CountedPositions(rollout, mask) == {p} ::
           rate * k as real == |set i | 0 <= i < k && rollout[p][i] in clean[p]| as real
  }

  lemma RetentionMeans(rollout: seq<seq<int>>, clean: seq<seq<int>>, mask: seq<bool>, k: nat, rate: real, count: nat)
    requires |rollout| == |clean| == |mask| && k > 0
    requires forall p | 0 <= p < |rollout| :: |rollout[p]| == k
    requires count == CountedTo(rollout, mask, |rollout|) > 0
    requires IsRate(rate, KeptTo(rollout, clean, mask, |rollout|), count * k)
    ensures RetentionIs(rollout, clean, mask, k, rate)
  {
    var n := |rollout|;
    forall p | 0 <= p < n
      ensures Counted(rollout[p], mask[p]) <==> p in CountedPositions(rollout, mask)
    {
      CountedMeans(rollout, mask, p);
    }
    if forall p | p in CountedPositions(rollout, mask) :: DistinctTokens(rollout[p]) {
      KeptToExtremes(rollout, clean, mask, k, n);
      RateExtremes(rate, KeptTo(rollout, clean, mask, n), count * k, count, k);
      forall p | CountedPositions(rollout, mask) == {p}
        ensures rate * k as real == |set i | 0 <= i < k && rollout[p][i] in clean[p]| as real
      {
        SinglePosition(rollout, clean, mask, k, rate, count, p);
      }
    }
  }

  lemma SinglePosition(rollout: seq<seq<int>>, clean: seq<seq<int>>, mask: seq<bool>, k: nat, rate: real, count: nat, p: nat)
    requires |rollout| == |clean| == |mask| && k > 0 && p < |rollout|
    requires (forall q | 0 <= q < |rollout| :: |rollout[q]| == k) && DistinctTokens(rollout[p])
    requires forall q | 0 <= q < |rollout| :: Counted(rollout[q], mask[q]) <==> q == p
    requires count == CountedTo(rollout, mask, |rollout|)
    requires IsRate(rate, KeptTo(rollout, clean, mask, |rollout|), count * k)
    ensures rate * k as real == |set i | 0 <= i < k && rollout[p][i] in clean[p]| as real
  {
    OnlyOne(rollout, clean, mask, p, |rollout|);
    DistinctPlaces(rollout[p], clean[p]);
    OneShare(rate, Kept(rollout[p], clean[p]), count, k);
  }

  lemma OneShare(rate: real, kept: nat, count: nat, k: nat)
    requires IsRate(rate, kept, count * k) && count == 1
    ensures rate * k as real == kept as real
  {
    assert count * k == k;
  }

  lemma RateExtremes(rate: real, part: nat, whole: nat, count: nat, k: nat)
    requires IsRate(rate, part, whole) && whole == count * k && count > 0 && k > 0
    ensures rate == 1.0 <==> part == whole
    ensures rate == 0.0 <==> part == 0
  {
    assert whole > 0;
    assert rate * whole as real == part as real;
    if part == whole {
      assert (rate - 1.0) * whole as real == 0.0;
    }
  }

  /** The loop over the positions of one trajectory. */
  method Tally(rollout: seq<seq<int>>, clean: seq<seq<int>>, mask: seq<bool>, k: nat)
    returns (retention: Option<real>, top1: Option<real>, effectiveCount: nat)
    requires |rollout| == |clean| == |mask| && k > 0
    requires forall p | 0 <= p < |rollout| :: |rollout[p]| == k
    ensures effectiveCount == CountedTo(rollout, mask, |rollout|)
    ensures (retention.Some? <==> effectiveCount > 0) && (top1.Some? <==> effectiveCount > 0)
    ensures retention.Some? ==> IsRate(retention.value, KeptTo(rollout, clean, mask, |rollout|), effectiveCount * k)
    ensures top1.Some? ==> IsRate(top1.value, FirstKept(rollout, clean, mask, |rollout|), effectiveCount)
  {
    var retentionSum := 0.0;
    var top1Count: nat := 0;
    effectiveCount := 0;
    for p := 0 to |rollout|
      invariant Tallied(rollout, clean, mask, k, p, retentionSum, top1Count, effectiveCount)
    {
      if !Counted(rollout[p], mask[p]) {
        continue;
      }
      TallyNext(rollout, clean, mask, k, p, retentionSum, top1Count, effectiveCount);
      retentionSum := retentionSum + Kept(rollout[p], clean[p]) as real / k as real;
      top1Count := top1Count + One(rollout[p][0] in ToSet(clean[p]));
      effectiveCount := effectiveCount + 1;
    }
    retention, top1 := None, None;
    if effectiveCount > 0 {
      Share(retentionSum, KeptTo(rollout, clean, mask, |rollout|), k, effectiveCount);
      ShareOf(top1Count, effectiveCount);
      retention := Some(retentionSum / effectiveCount as real);
      top1 := Some(top1Count as real / effectiveCount as real);
    }
  }

  /** `rate` is the share part / whole, and lies between 0 and 1. */
  predicate IsRate(rate: real, part: nat, whole: nat) {
    0.0 <= rate <= 1.0 && rate * whole as real == part as real
  }

  lemma NextShare(sum: real, kept: nat, more: nat, k: nat, count: nat)
    requires k > 0 && SumIs(sum, kept, k) && more <= k && kept <= count * k
    ensures SumIs(sum + more as real / k as real, kept + more, k)
    ensures kept + more <= (count + 1) * k
  {
    var share := more as real / k as real;
    assert share * k as real == more as real;
    assert (sum + share) * k as real == sum * k as real + share * k as real;
  }

  lemma Share(sum: real, kept: nat, k: nat, count: nat)
    requires k > 0 && count > 0 && SumIs(sum, kept, k) && kept <= count * k
    ensures IsRate(sum / count as real, kept, count * k)
  {
    var rate, n, w := sum / count as real, count as real, k as real;
    assert rate * n == sum;
    assert (count * k) as real == n * w;
    assert rate * (n * w) == rate * n * w;
    Between(rate, n * w, kept as real);
  }

  lemma Between(rate: real, d: real, x: real)
    requires d > 0.0 && rate * d == x && 0.0 <= x <= d
    ensures 0.0 <= rate <= 1.0
  {
  }

  lemma ShareOf(part: nat, count: nat)
    requires count > 0 && part <= count
    ensures IsRate(part as real / count as real, part, count)
  {
  }

  // ----- the emitted rows -----

  /** The run and step a call reports about. */
  datatype Occasion = Occasion(profile: string, seed: int, step: int)

  datatype SupportRow = SupportRow(on: Occasion, group: string, id: nat, correct: bool, score: real, candidates: nat,
                                   retention: Option<real>, top1: Option<real>, effective: nat)
  datatype Benchmark = Benchmark(selected: nat, candidates: nat, effective: nat)

  /** Rank-3 token ids of all trajectories, each with positions of k tokens, and the position masks. */
  predicate Shaped(ts: seq<Trajectory>, rollout: seq<seq<seq<int>>>, clean: seq<seq<seq<int>>>, mask: seq<seq<bool>>, k: nat) {
    && k > 0 && |ts| == |rollout| == |clean| == |mask|
    && forall i | 0 <= i < |ts| ::
         |rollout[i]| == |clean[i]| == |mask[i]| && forall p | 0 <= p < |rollout[i]| :: |rollout[i][p]| == k
  }

  /** The primary key of the support table (latent_grpo_runner/metrics/storage.py:98). */
  function KeyOf(row: SupportRow): (string, int, int, string, nat, bool) {
    (row.on.profile, row.on.seed, row.on.step, row.group, row.id, row.correct)
  }

  function EffectiveSum(rows: seq<SupportRow>): nat {
    if rows == [] then 0 else EffectiveSum(rows[..|rows| - 1]) + rows[|rows| - 1].effective
  }

  /** A row tells the truth about trajectory i. */
  ghost predicate Describes(row: SupportRow, on: Occasion, ts: seq<Trajectory>, rollout: seq<seq<seq<int>>>,
                            clean: seq<seq<seq<int>>>, mask: seq<seq<bool>>, k: nat, i: nat)
    requires Shaped(ts, rollout, clean, mask, k) && i < |ts|
  {
    && row.on == on && row.group == ts[i].group && row.id == ts[i].id && row.correct == ts[i].correct
    && ts[i].score == Finite(row.score) && row.candidates == |CandidatesOf(ts, ts[i].group)|
    && Measured(row.retention, row.top1, row.effective, rollout[i], clean[i], mask[i], k)
  }

  /** The trajectories of a group that are not overlong, and those of all groups. */
  ghost function CandidatesOf(ts: seq<Trajectory>, group: string): set<nat> {
    set j: nat | j < |ts| && ts[j].group == group && !ts[j].overlong
  }

  ghost function EveryCandidate(ts: seq<Trajectory>): set<nat> {
    set j: nat | j < |ts| && !ts[j].overlong
  }

  lemma {:induction false} CandidatesAre(ts: seq<Trajectory>, group: string)
    ensures CandidateCount(ts, group) == |CandidatesOf(ts, group)|
  {
    if ts != [] {
      var n := |ts| - 1;
      CandidatesAre(ts[..n], group);
      assert CandidatesOf(ts, group)
             == CandidatesOf(ts[..n], group) + if ts[n].group == group && !ts[n].overlong then {n} else {};
    }
  }

  lemma {:induction false} EveryCandidateIs(ts: seq<Trajectory>)
    ensures AllCandidates(ts) == |EveryCandidate(ts)|
  {
    if ts != [] {
      var n := |ts| - 1;
      EveryCandidateIs(ts[..n]);
      assert EveryCandidate(ts) == EveryCandidate(ts[..n]) + if !ts[n].overlong then {n} else {};
    }
  }

  ghost predicate DescribeAll(rows: seq<SupportRow>, on: Occasion, ts: seq<Trajectory>, rollout: seq<seq<seq<int>>>,
                              clean: seq<seq<seq<int>>>, mask: seq<seq<bool>>, k: nat, selected: seq<nat>)
    requires Shaped(ts, rollout, clean, mask, k)
  {
    && |rows| == |selected|
    && forall a | 0 <= a < |rows| :: selected[a] < |ts| && Describes(rows[a], on, ts, rollout, clean, mask, k, selected[a])
  }

  /** The row of a selected trajectory. */
  method RowOf(on: Occasion, ts: seq<Trajectory>, rollout: seq<seq<seq<int>>>, clean: seq<seq<seq<int>>>,
               mask: seq<seq<bool>>, k: nat, i: nat) returns (row: SupportRow)
    requires Shaped(ts, rollout, clean, mask, k) && i < |ts| && ts[i].score.Finite?
    ensures Describes(row, on, ts, rollout, clean, mask, k, i)
  {
    var retention, top1, effective := Retention(rollout[i], clean[i], mask[i], k);
    CandidatesAre(ts, ts[i].group);
    row := SupportRow(on, ts[i].group, ts[i].id, ts[i].correct, ts[i].score.value, CandidateCount(ts, ts[i].group),
                      retention, top1, effective);
  }

  /** Rows of different groups or classes have different keys. */
  lemma SlotsHaveKeys(a: SupportRow, b: SupportRow, on: Occasion, ts: seq<Trajectory>, rollout: seq<seq<seq<int>>>,
                      clean: seq<seq<seq<int>>>, mask: seq<seq<bool>>, k: nat, i: nat, j: nat)
    requires Shaped(ts, rollout, clean, mask, k) && i < |ts| && j < |ts| && !SameSlot(ts, i, j)
    requires Describes(a, on, ts, rollout, clean, mask, k, i) && Describes(b, on, ts, rollout, clean, mask, k, j)
    ensures KeyOf(a) != KeyOf(b)
  {
  }

  /** The row loop: one row for each selected trajectory, no two with the same primary key, and a benchmark row that
      counts the rows, the candidates and the positions behind them. */
  method CollectRows(on: Occasion, ts: seq<Trajectory>, rollout: seq<seq<seq<int>>>, clean: seq<seq<seq<int>>>,
                     mask: seq<seq<bool>>, k: nat)
    returns (rows: seq<SupportRow>, benchmark: Benchmark, selected: seq<nat>)
    requires Shaped(ts, rollout, clean, mask, k)
    ensures forall i: nat :: i in selected <==> Selected(ts, i)
    ensures DescribeAll(rows, on, ts, rollout, clean, mask, k, selected)
    ensures forall a, b | 0 <= a < b < |rows| :: KeyOf(rows[a]) != KeyOf(rows[b])
    ensures benchmark == Benchmark(|rows|, AllCandidates(ts), EffectiveSum(rows))
    ensures benchmark.candidates == |EveryCandidate(ts)|
  {
    EveryCandidateIs(ts);
    selected := SelectTrajectories(ts);
    rows := [];
    var total: nat := 0;
    for a := 0 to |selected|
      invariant |rows| == a && total == EffectiveSum(rows)
      invariant DescribeAll(rows, on, ts, rollout, clean, mask, k, selected[..a])
    {
      assert Represents(ts, selected[a]) && Selected(ts, selected[a]);
      var row := RowOf(on, ts, rollout, clean, mask, k, selected[a]);
      assert (rows + [row])[..a] == rows;
      assert selected[..a + 1] == selected[..a] + [selected[a]];
      rows, total := rows + [row], total + row.effective;
    }
    assert selected[..|selected|] == selected;
    forall a, b | 0 <= a < b < |rows|
      ensures KeyOf(rows[a]) != KeyOf(rows[b])
    {
      assert !SameSlot(ts, selected[a], selected[b]);
      SlotsHaveKeys(rows[a], rows[b], on, ts, rollout, clean, mask, k, selected[a], selected[b]);
    }
    benchmark := Benchmark(|rows|, AllCandidates(ts), total);
  }
}
