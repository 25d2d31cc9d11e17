/** Subsequences: what remains of a table after parts have been moved aside. */
module Subsequences {
  ghost predicate Subseq<T>(a: seq<T>, b: seq<T>) {
    if a == [] then true
    else if b == [] then false
    else
      || (a[|a| - 1] == b[|b| - 1] && Subseq(a[..|a| - 1], b[..|b| - 1]))
      || Subseq(a, b[..|b| - 1])
  }

  lemma {:induction false} SubseqRefl<T>(a: seq<T>)
    ensures Subseq(a, a)
  {
    if a != [] {
      SubseqRefl(a[..|a| - 1]);
    }
  }

  lemma {:induction false} SubseqFront<T>(a: seq<T>, b: seq<T>)
    requires Subseq(a, b) && a != []
    ensures Subseq(a[..|a| - 1], b)
    decreases |b|
  {
    var front := a[..|a| - 1];
    if a[|a| - 1] == b[|b| - 1] && Subseq(front, b[..|b| - 1]) {
      SubseqWiden(front, b[..|b| - 1], [b[|b| - 1]]);
      assert b[..|b| - 1] + [b[|b| - 1]] == b;
    } else {
      SubseqFront(a, b[..|b| - 1]);
      SubseqWiden(front, b[..|b| - 1], [b[|b| - 1]]);
      assert b[..|b| - 1] + [b[|b| - 1]] == b;
    }
  }

  lemma {:induction false} SubseqWiden<T>(a: seq<T>, b: seq<T>, x: seq<T>)
    requires Subseq(a, b)
    ensures Subseq(a, b + x)
    decreases |x|
  {
    if x == [] {
      assert b + x == b;
    } else {
      SubseqWiden(a, b, x[..|x| - 1]);
      assert (b + x)[..|b + x| - 1] == b + x[..|x| - 1];
    }
  }

  lemma {:induction false} SubseqExtend<T>(a: seq<T>, b: seq<T>, x: seq<T>)
    requires Subseq(a, b)
    ensures Subseq(a + x, b + x)
    decreases |x|
  {
    if x == [] {
      assert a + x == a && b + x == b;
    } else {
      SubseqExtend(a, b, x[..|x| - 1]);
      assert (b + x)[..|b + x| - 1] == b + x[..|x| - 1];
      assert (a + x)[..|a + x| - 1] == a + x[..|x| - 1];
    }
  }

  /** A subsequence is no longer than the whole, and equal to it when equally long. */
  lemma {:induction false} SubseqLength<T>(a: seq<T>, b: seq<T>)
    requires Subseq(a, b)
    ensures |a| <= |b|
    ensures |a| == |b| ==> a == b
    decreases |b|
  {
    if a != [] {
      if a[|a| - 1] == b[|b| - 1] && Subseq(a[..|a| - 1], b[..|b| - 1]) {
        SubseqLength(a[..|a| - 1], b[..|b| - 1]);
        assert a == a[..|a| - 1] + [a[|a| - 1]] && b == b[..|b| - 1] + [b[|b| - 1]];
      } else {
        SubseqLength(a, b[..|b| - 1]);
      }
    }
  }

  lemma {:induction false} SubseqMembers<T>(a: seq<T>, b: seq<T>)
    requires Subseq(a, b)
    ensures forall x | x in a :: x in b
    decreases |b|
  {
    if a != [] {
      if a[|a| - 1] == b[|b| - 1] && Subseq(a[..|a| - 1], b[..|b| - 1]) {
        SubseqMembers(a[..|a| - 1], b[..|b| - 1]);
        assert a == a[..|a| - 1] + [a[|a| - 1]];
      } else {
        SubseqMembers(a, b[..|b| - 1]);
      }
    }
  }

  lemma {:induction false} SubseqTrans<T>(a: seq<T>, b: seq<T>, c: seq<T>)
    requires Subseq(a, b) && Subseq(b, c)
    ensures Subseq(a, c)
    decreases |c|
  {
    if a != [] {
      var b', c' := b[..|b| - 1], c[..|c| - 1];
      if b[|b| - 1] == c[|c| - 1] && Subseq(b', c') {
        if a[|a| - 1] == b[|b| - 1] && Subseq(a[..|a| - 1], b') {
          SubseqTrans(a[..|a| - 1], b', c');
        } else {
          SubseqTrans(a, b', c');
        }
      } else {
        SubseqTrans(a, b, c');
      }
    }
  }

  lemma WithoutParts<T>(a: seq<T>, i: nat)
    requires i < |a|
    ensures a == a[..i] + [a[i]] + a[i + 1..]
  {
  }

  lemma WithoutBag<T>(a: seq<T>, i: nat)
    requires i < |a|
    ensures multiset(a) == multiset(a[..i] + a[i + 1..]) + multiset{a[i]}
  {
    WithoutParts(a, i);
    assert multiset(a) == multiset(a[..i] + [a[i]] + a[i + 1..]);
  }

  /** Leaving out one element. */
  lemma SubseqWithout<T>(a: seq<T>, i: nat)
    requires i < |a|
    ensures Subseq(a[..i] + a[i + 1..], a)
  {
    var front, rest := a[..i], a[i + 1..];
    SubseqRefl(front);
    SubseqWiden(front, front, [a[i]]);
    SubseqExtend(front, front + [a[i]], rest);
    WithoutParts(a, i);
  }
}
