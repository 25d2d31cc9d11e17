/** Resolution of redirected lines in the line-retrieval generator
    (Latent-GRPO/sglang_latent_reasoning_pkg/benchmark/line_retrieval/gen_data.py:56-76). */
module RedirectChains {
  import opened Options

  type Redirects = seq<Option<nat>>

  ghost predicate Closed(redirects: Redirects) {
    forall i | 0 <= i < |redirects| :: redirects[i].Some? ==> redirects[i].value < |redirects|
  }

  /** Each line of the chain redirects to the next one. */
  ghost predicate Chain(redirects: Redirects, lines: seq<nat>) {
    && |lines| > 0
    && (forall k | 0 <= k < |lines| :: lines[k] < |redirects|)
    && (forall k | 0 < k < |lines| :: redirects[lines[k - 1]] == Some(lines[k]))
  }

  function Last(lines: seq<nat>): nat
    requires |lines| > 0
  {
    lines[|lines| - 1]
  }

  ghost predicate Distinct(lines: seq<nat>) {
    forall i, j | 0 <= i < j < |lines| :: lines[i] != lines[j]
  }

  /** Following the redirects from line i along `path` ends at a line that is not redirected. */
  ghost predicate Reaches(redirects: Redirects, i: nat, path: seq<nat>) {
    Chain(redirects, [i] + path) && redirects[Last([i] + path)].None?
  }

  /** Following the redirects from line i along `path` comes back to an earlier line for the first time. */
  ghost predicate Loops(redirects: Redirects, i: nat, path: seq<nat>) {
    && Chain(redirects, [i] + path) && path != []
    && Distinct(([i] + path)[..|path|]) && Last(path) in ([i] + path)[..|path|]
  }

  // ----- following redirects is deterministic -----

  lemma {:induction false} SameSteps(redirects: Redirects, a: seq<nat>, b: seq<nat>, k: nat)
    requires Chain(redirects, a) && Chain(redirects, b) && a[0] == b[0] && k < |a| && k < |b|
    ensures a[k] == b[k]
  {
    if k > 0 {
      SameSteps(redirects, a, b, k - 1);
    }
  }

  lemma RedirectedInside(redirects: Redirects, lines: seq<nat>, k: nat)
    requires Chain(redirects, lines) && k < |lines| - 1
    ensures redirects[lines[k]].Some?
  {
    assert redirects[lines[(k + 1) - 1]] == Some(lines[k + 1]);
  }

  lemma RootEndsTheWalk(redirects: Redirects, i: nat, p: seq<nat>, q: seq<nat>)
    requires Reaches(redirects, i, p) && Chain(redirects, [i] + q)
    ensures |q| <= |p|
  {
    if |q| > |p| {
      RedirectedInside(redirects, [i] + q, |p|);
      SameSteps(redirects, [i] + p, [i] + q, |p|);
    }
  }

  /** The root and the links of a line are unique. */
  lemma RootIsUnique(redirects: Redirects, i: nat, p: seq<nat>, q: seq<nat>)
    requires Reaches(redirects, i, p) && Reaches(redirects, i, q)
    ensures p == q
  {
    var a, b := [i] + p, [i] + q;
    RootEndsTheWalk(redirects, i, p, q);
    RootEndsTheWalk(redirects, i, q, p);
    forall k | 0 <= k < |p|
      ensures p[k] == q[k]
    {
      SameSteps(redirects, a, b, k + 1);
      assert a[k + 1] == p[k] && b[k + 1] == q[k];
    }
  }

  lemma WithoutRound(redirects: Redirects, lines: seq<nat>, a: nat, b: nat)
    requires Chain(redirects, lines) && a < b < |lines| && lines[a] == lines[b]
    ensures var short := lines[..a] + lines[b..];
            Chain(redirects, short) && short[0] == lines[0] && Last(short) == Last(lines)
  {
    var short := lines[..a] + lines[b..];
    forall k | 0 < k < |short|
      ensures redirects[short[k - 1]] == Some(short[k])
    {
      if k < a {
        assert redirects[lines[k - 1]] == Some(lines[k]);
      } else if k == a {
        assert redirects[lines[a - 1]] == Some(lines[a]);
      } else {
        assert redirects[lines[k + b - a - 1]] == Some(lines[k + b - a]);
      }
    }
  }

  /** Once the walk has come back to a line, it is always redirected further. */
  lemma {:induction false} LoopingGoesOn(redirects: Redirects, loop: seq<nat>, a: nat, lines: seq<nat>)
    requires Chain(redirects, loop) && a < |loop| - 1 && loop[a] == Last(loop)
    requires Chain(redirects, lines) && lines[0] == loop[0]
    ensures redirects[Last(lines)].Some?
    decreases |lines|
  {
    var b := |loop| - 1;
    if |lines| <= b {
      SameSteps(redirects, loop, lines, |lines| - 1);
      assert redirects[loop[|lines| - 1]] == Some(loop[|lines|]);
    } else {
      SameSteps(redirects, loop, lines, a);
      SameSteps(redirects, loop, lines, b);
      WithoutRound(redirects, lines, a, b);
      LoopingGoesOn(redirects, loop, a, lines[..a] + lines[b..]);
    }
  }

  /** A line whose walk loops never reaches a line that is not redirected. */
  lemma LoopNeverReaches(redirects: Redirects, i: nat, path: seq<nat>, other: seq<nat>)
    requires Loops(redirects, i, path)
    ensures !Reaches(redirects, i, other)
  {
    var loop := [i] + path;
    var a :| 0 <= a < |path| && ([i] + path)[..|path|][a] == Last(path);
    assert loop[a] == Last(loop);
    if Chain(redirects, [i] + other) {
      LoopingGoesOn(redirects, loop, a, [i] + other);
    }
  }

  /** A longer walk repeats what a shorter one repeated. */
  lemma RepeatsAgain(redirects: Redirects, i: nat, p: seq<nat>, q: seq<nat>)
    requires Loops(redirects, i, p) && Chain(redirects, [i] + q) && |p| < |q|
    ensures !Distinct(([i] + q)[..|q|])
  {
    var a, b := [i] + p, [i] + q;
    var k :| 0 <= k < |p| && ([i] + p)[..|p|][k] == Last(p);
    SameSteps(redirects, a, b, k);
    SameSteps(redirects, a, b, |p|);
    var front := b[..|q|];
    assert a[k] == a[|p|];
    assert front[k] == front[|p|];
  }

  lemma LoopIsUnique(redirects: Redirects, i: nat, p: seq<nat>, q: seq<nat>)
    requires Loops(redirects, i, p) && Loops(redirects, i, q) && |p| <= |q|
    ensures Last(p) == Last(q)
  {
    SameSteps(redirects, [i] + p, [i] + q, |p|);
    if |p| < |q| {
      RepeatsAgain(redirects, i, p, q);
    }
  }

  lemma ChainSuffix(redirects: Redirects, lines: seq<nat>, a: nat)
    requires Chain(redirects, lines) && a < |lines|
    ensures Chain(redirects, lines[a..])
  {
    forall k | 0 < k < |lines| - a
      ensures redirects[lines[a..][k - 1]] == Some(lines[a..][k])
    {
      assert redirects[lines[a + k - 1]] == Some(lines[a + k]);
    }
  }

  /** The line where a walk first repeats lies on the ring: its own walk repeats at itself. */
  lemma EntryLoopsAtItself(redirects: Redirects, i: nat, path: seq<nat>) returns (round: seq<nat>)
    requires Loops(redirects, i, path)
    ensures Loops(redirects, Last(path), round) && Last(round) == Last(path)
  {
    var loop := [i] + path;
    var front := loop[..|path|];
    var a :| 0 <= a < |path| && front[a] == Last(path);
    round := loop[a + 1..];
    ChainSuffix(redirects, loop, a);
    assert loop[a..] == [Last(path)] + round;
    assert loop[a..][..|round|] == front[a..];
    assert front[a..][0] == Last(path);
  }

  // ----- the scan -----

  /** What the scan records for line i: its links and the line whose original value it shows. */
  ghost predicate Resolved(redirects: Redirects, i: nat, link: Option<seq<nat>>, source: nat) {
    match link
    case Some(path) => Reaches(redirects, i, path) && source == Last([i] + path)
    case None => exists path :: Loops(redirects, i, path) && source == Last(path)
  }

  /** The source of a line is a line whose own source is itself. */
  lemma SourceIsSettled(redirects: Redirects, i: nat, link: Option<seq<nat>>, source: nat,
                        link': Option<seq<nat>>, source': nat)
    requires Resolved(redirects, i, link, source) && Resolved(redirects, source, link', source')
    ensures source' == source
  {
    match link
    case Some(path) =>
      assert Reaches(redirects, source, []);
      match link' {
        case Some(q) => RootIsUnique(redirects, source, [], q);
        case None =>
          var q :| Loops(redirects, source, q) && source' == Last(q);
          LoopNeverReaches(redirects, source, q, []);
      }
    case None =>
      var path :| Loops(redirects, i, path) && source == Last(path);
      var round := EntryLoopsAtItself(redirects, i, path);
      match link' {
        case Some(q) => LoopNeverReaches(redirects, source, round, q);
        case None =>
          var q :| Loops(redirects, source, q) && source' == Last(q);
          if |q| <= |round| {
            LoopIsUnique(redirects, source, q, round);
          } else {
            LoopIsUnique(redirects, source, round, q);
          }
      }
  }

  lemma {:induction false} BoundedSize(s: set<nat>, n: nat)
    requires forall x | x in s :: x < n
    ensures |s| <= n
  {
    if n > 0 {
      var rest := s - {n - 1};
      BoundedSize(rest, n - 1);
      if n - 1 in s {
        assert s == rest + {n - 1};
      } else {
        assert s == rest;
      }
    } else {
      assert s == {};
    }
  }

  /** The walk has passed the lines of `walked`; `visited` holds all of them but the last. */
  ghost predicate OnTheWay(redirects: Redirects, walked: seq<nat>, visited: set<nat>) {
    && Chain(redirects, walked) && Distinct(walked)
    && forall x :: x in visited <==> x in walked[..|walked| - 1]
  }

  lemma VisitedSoFar(walked: seq<nat>, visited: set<nat>, x: nat)
    requires |walked| > 0 && (x in visited <==> x in walked[..|walked| - 1])
    ensures x in visited + {Last(walked)} <==> x in walked
  {
    assert walked == walked[..|walked| - 1] + [Last(walked)];
  }

  lemma VisitedIsBounded(redirects: Redirects, walked: seq<nat>, visited: set<nat>)
    requires OnTheWay(redirects, walked, visited)
    ensures Last(walked) !in visited && |visited| + 1 <= |redirects|
  {
    forall x | x in visited + {Last(walked)}
      ensures x < |redirects|
    {
      VisitedSoFar(walked, visited, x);
    }
    BoundedSize(visited + {Last(walked)}, |redirects|);
  }

  lemma Onward(redirects: Redirects, walked: seq<nat>, visited: set<nat>, next: nat)
    requires OnTheWay(redirects, walked, visited)
    requires redirects[Last(walked)] == Some(next) && next < |redirects| && next !in visited + {Last(walked)}
    ensures OnTheWay(redirects, walked + [next], visited + {Last(walked)})
  {
    forall x
      ensures x in visited + {Last(walked)} <==> x in walked
    {
      VisitedSoFar(walked, visited, x);
    }
    assert (walked + [next])[..|walked|] == walked;
  }

  lemma OneMore(redirects: Redirects, walked: seq<nat>, next: nat)
    requires Chain(redirects, walked) && redirects[Last(walked)] == Some(next) && next < |redirects|
    ensures Chain(redirects, walked + [next])
  {
  }

  lemma ComesBack(redirects: Redirects, i: nat, link: seq<nat>, visited: set<nat>, next: nat)
    requires OnTheWay(redirects, [i] + link, visited)
    requires redirects[Last([i] + link)] == Some(next) && next in visited + {Last([i] + link)} && next < |redirects|
    ensures Loops(redirects, i, link + [next])
  {
    var walked := [i] + link;
    VisitedSoFar(walked, visited, next);
    OneMore(redirects, walked, next);
    LoopOf(redirects, i, link + [next], walked, next);
  }

  lemma LoopOf(redirects: Redirects, i: nat, path: seq<nat>, walked: seq<nat>, next: nat)
    requires Chain(redirects, walked + [next]) && Distinct(walked) && next in walked
    requires |walked| > 0 && path == walked[1..] + [next] && walked[0] == i
    ensures Loops(redirects, i, path)
  {
    assert [i] + path == walked + [next];
    assert (walked + [next])[..|walked|] == walked;
  }

  lemma LoopsMeansNoRoot(redirects: Redirects, i: nat, path: seq<nat>)
    requires Loops(redirects, i, path)
    ensures !exists other :: Reaches(redirects, i, other)
  {
    forall other
      ensures !Reaches(redirects, i, other)
    {
      LoopNeverReaches(redirects, i, path, other);
    }
  }

  /** The inner loop: the links of line i, and the line it stops at. */
  method Walk(redirects: Redirects, i: nat) returns (link: Option<seq<nat>>, cur: nat)
    requires Closed(redirects) && i < |redirects|
    ensures Resolved(redirects, i, link, cur) && cur < |redirects|
    ensures link.None? <==> !exists path :: Reaches(redirects, i, path)
  {
    var tmpLink: seq<nat> := [];
    cur := i;
    var visited: set<nat> := {};
    while redirects[cur].Some?
      invariant OnTheWay(redirects, [i] + tmpLink, visited) && cur == Last([i] + tmpLink)
      decreases |redirects| - |visited|
    {
      VisitedIsBounded(redirects, [i] + tmpLink, visited);
      var next := redirects[cur].value;
      if next in visited + {cur} {
        ComesBack(redirects, i, tmpLink, visited, next);
        LoopsMeansNoRoot(redirects, i, tmpLink + [next]);
      } else {
        Onward(redirects, [i] + tmpLink, visited, next);
        assert [i] + tmpLink + [next] == [i] + (tmpLink + [next]);
      }
      visited := visited + {cur};
      tmpLink := tmpLink + [next];
      cur := next;
      if cur in visited {
        return None, cur;
      }
    }
    link := Some(tmpLink);
    assert Reaches(redirects, i, tmpLink);
  }

  /** The scan overwrites `values` as it goes, yet every line ends up with an original value: that of its root,
      or, for a line that runs into a ring, that of the line where it enters the ring.  A line is reported as
      containing a ring exactly when following redirects from it reaches no line that is not redirected. */
  method ResolveRedirects<V>(redirects: Redirects, values: array<V>)
    returns (links: seq<Option<seq<nat>>>, containsRing: set<nat>, ghost sources: seq<nat>)
    requires Closed(redirects) && values.Length == |redirects|
    modifies values
    ensures |links| == |sources| == |redirects|
    ensures forall i | 0 <= i < |redirects| :: i in containsRing <==> !exists path :: Reaches(redirects, i, path)
    ensures forall i | i in containsRing :: i < |redirects|
    ensures forall i | 0 <= i < |redirects| :: i in containsRing <==> links[i].None?
    ensures forall i | 0 <= i < |redirects| :: sources[i] < |redirects| && Resolved(redirects, i, links[i], sources[i])
    ensures forall i | 0 <= i < |redirects| :: values[i] == old(values[sources[i]])
  {
    links := seq(|redirects|, _ => Some([]));
    containsRing := {};
    sources := [];
    for i := 0 to |redirects|
      invariant |links| == |redirects| && |sources| == i
      invariant forall j | 0 <= j < i :: j in containsRing <==> !exists path :: Reaches(redirects, j, path)
      invariant forall j | j in containsRing :: j < i
      invariant forall j | 0 <= j < i :: j in containsRing <==> links[j].None?
      invariant forall j | i <= j < |redirects| :: links[j] == Some([])
      invariant forall j | 0 <= j < i :: sources[j] < |redirects| && Resolved(redirects, j, links[j], sources[j])
      invariant forall j | 0 <= j < i :: values[j] == old(values[sources[j]])
      invariant forall j | i <= j < |redirects| :: values[j] == old(values[j])
    {
      if redirects[i].None? {
        assert Reaches(redirects, i, []);
        sources := sources + [i];
      } else {
        var tmpLink, cur := Walk(redirects, i);
        if cur < i {
          SourceIsSettled(redirects, i, tmpLink, cur, links[cur], sources[cur]);
        }
        if tmpLink.None? {
          containsRing := containsRing + {i};
        }
        values[i] := values[cur];
        links := links[i := tmpLink];
        sources := sources + [cur];
      }
    }
  }
}
