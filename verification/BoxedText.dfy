/** Extracting the last boxed answer of a text (Latent-GRPO/eval/eval_high_tasks_sglang.py:146-178). */
module BoxedText {
  import opened Options
  import opened Strings

  const BOXED := "\\boxed"
  const BOXED_SPACE := "\\boxed "
  const BOXED_BRACE := "\\boxed{"
  const FBOX := "\\fbox"

  // ----- braces -----

  function Weight(c: char): int {
    if c == '{' then 1 else if c == '}' then -1 else 0
  }

  /** Opening braces less closing braces. */
  function Depth(s: string): int {
    if s == [] then 0 else Depth(s[..|s| - 1]) + Weight(s[|s| - 1])
  }

  lemma {:induction false} DepthJoins(a: string, b: string)
    ensures Depth(a + b) == Depth(a) + Depth(b)
  {
    if b == [] {
      assert a + b == a;
    } else {
      DepthJoins(a, b[..|b| - 1]);
      assert (a + b)[..|a + b| - 1] == a + b[..|b| - 1];
    }
  }

  /** A closing brace at j brings the depth counted from idx to zero. */
  predicate Closes(s: string, idx: nat, j: nat) {
    idx <= j < |s| && s[j] == '}' && Depth(s[idx..j + 1]) == 0
  }

  ghost predicate FirstClose(s: string, idx: nat, j: nat) {
    Closes(s, idx, j) && forall k: nat | k < j :: !Closes(s, idx, k)
  }

  /** The brace counter. */
  method MatchBrace(s: string, idx: nat) returns (rightBraceIdx: Option<nat>)
    requires idx <= |s|
    ensures rightBraceIdx.Some? ==> FirstClose(s, idx, rightBraceIdx.value)
    ensures rightBraceIdx.None? ==> forall k: nat :: !Closes(s, idx, k)
  {
    var i := idx;
    var numLeftBracesOpen := 0;
    assert s[idx..idx] == [];
    while i < |s|
      invariant idx <= i <= |s| && numLeftBracesOpen == Depth(s[idx..i])
      invariant forall k: nat | k < i :: !Closes(s, idx, k)
    {
      assert s[idx..i + 1][..i - idx] == s[idx..i];
      if s[i] == '{' {
        numLeftBracesOpen := numLeftBracesOpen + 1;
      }
      if s[i] == '}' {
        numLeftBracesOpen := numLeftBracesOpen - 1;
        if numLeftBracesOpen == 0 {
          return Some(i);
        }
      }
      i := i + 1;
    }
    rightBraceIdx := None;
  }

  // ----- extraction -----

  /** Where the brace search starts: at the last box, or at the last frame when there is no box. */
  function StartOf(s: string): int {
    if Contains(s, BOXED) then Rfind(s, BOXED) else Rfind(s, FBOX)
  }

  /** What `last_boxed_only_string` returns: after the last box with a space, the text up to a dollar sign;
      otherwise the shortest text from the last box or frame that ends in a brace bringing the depth to zero. */
  ghost predicate Extracted(s: string, r: Option<string>) {
    if Contains(s, BOXED_SPACE) then
      r == Some(BOXED_SPACE + UpTo(s[Rfind(s, BOXED_SPACE) + |BOXED_SPACE|..], '$'))
    else
      var idx := StartOf(s);
      if idx < 0 then r.None?
      else
        match r
        case None => forall k: nat :: !Closes(s, idx, k)
        case Some(t) => exists j: nat :: FirstClose(s, idx, j) && t == s[idx..j + 1]
  }

  /** `last_boxed_only_string`. */
  method LastBoxedOnlyString(s: string) returns (r: Option<string>)
    ensures Extracted(s, r)
  {
    var idx := Rfind(s, BOXED);
    if Contains(s, BOXED_SPACE) {
      return Some(BOXED_SPACE + UpTo(s[Rfind(s, BOXED_SPACE) + |BOXED_SPACE|..], '$'));
    }
    if idx < 0 {
      idx := Rfind(s, FBOX);
      if idx < 0 {
        return None;
      }
    }
    var rightBraceIdx := MatchBrace(s, idx);
    if rightBraceIdx.None? {
      r := None;
    } else {
      r := Some(s[idx..rightBraceIdx.value + 1]);
    }
  }

  /** `remove_boxed`: None where an assertion fails or the text is too short. */
  function RemoveBoxed(s: string): Option<string> {
    if Contains(s, BOXED_SPACE) then
      if At(s, 0, BOXED_SPACE) then Some(s[|BOXED_SPACE|..]) else None
    else if At(s, 0, BOXED_BRACE) && s[|s| - 1] == '}' then
      Some((assert s[..|BOXED_BRACE|][6] == '{'; s[|BOXED_BRACE|..|s| - 1]))
    else None
  }

  /** Stripping gives c exactly for a spaced box in front of c, and for a box around c that holds no spaced box. */
  lemma RemoveBoxedMeans(s: string, c: string)
    ensures RemoveBoxed(s) == Some(c) <==>
              s == BOXED_SPACE + c || (s == BOXED_BRACE + c + "}" && forall k :: !At(s, k, BOXED_SPACE))
  {
    if Contains(s, BOXED_SPACE) {
      assert At(s, Rfind(s, BOXED_SPACE), BOXED_SPACE);
      SpacedFront(s, c);
    } else {
      forall k
        ensures !At(s, k, BOXED_SPACE)
      {
        Absent(s, BOXED_SPACE, k);
      }
      assert s == BOXED_SPACE + c ==> At(s, 0, BOXED_SPACE);
      BracedFront(s, c);
    }
  }

  lemma SpacedFront(s: string, c: string)
    ensures s == BOXED_SPACE + c <==> At(s, 0, BOXED_SPACE) && s[|BOXED_SPACE|..] == c
  {
    if At(s, 0, BOXED_SPACE) {
      assert s == s[..|BOXED_SPACE|] + s[|BOXED_SPACE|..];
    }
    if s == BOXED_SPACE + c {
      assert s[0..|BOXED_SPACE|] == BOXED_SPACE;
    }
  }

  lemma BracedFront(s: string, c: string)
    ensures s == BOXED_BRACE + c + "}" <==>
              At(s, 0, BOXED_BRACE) && |s| > |BOXED_BRACE| && s[|s| - 1] == '}' && s[|BOXED_BRACE|..|s| - 1] == c
    ensures At(s, 0, BOXED_BRACE) && s[|s| - 1] == '}' ==> |s| > |BOXED_BRACE|
  {
    if At(s, 0, BOXED_BRACE) && |s| > |BOXED_BRACE| {
      assert s == s[..|BOXED_BRACE|] + s[|BOXED_BRACE|..|s| - 1] + [s[|s| - 1]];
    }
    if s == BOXED_BRACE + c + "}" {
      assert s[0..|BOXED_BRACE|] == BOXED_BRACE;
    }
    if At(s, 0, BOXED_BRACE) && |s| == |BOXED_BRACE| {
      assert s == BOXED_BRACE && BOXED_BRACE[6] == '{';
    }
  }

  // ----- the round trip -----

  /** Braces close in order: no prefix closes more than it opens, and the whole closes all it opens. */
  ghost predicate Balanced(c: string) {
    Depth(c) == 0 && forall k | 0 <= k <= |c| :: Depth(c[..k]) >= 0
  }

  /** Text without braces is balanced, and so is everything built of balanced texts by joining and by putting braces
      around them. */
  lemma PlainIsBalanced(s: string)
    requires '{' !in s && '}' !in s
    ensures Balanced(s)
  {
    NoBraces(s);
    forall k | 0 <= k <= |s|
      ensures Depth(s[..k]) >= 0
    {
      NoBraces(s[..k]);
    }
  }

  lemma NestedIsBalanced(a: string, b: string, c: string)
    requires Balanced(a) && Balanced(b) && Balanced(c)
    ensures Balanced(a + "{" + b + "}" + c)
  {
    BracesAreBalanced(b);
    JoinedIsBalanced(a, "{" + b + "}");
    JoinedIsBalanced(a + ("{" + b + "}"), c);
    assert a + ("{" + b + "}") + c == a + "{" + b + "}" + c;
  }

  lemma BracesAreBalanced(b: string)
    requires Balanced(b)
    ensures Balanced("{" + b + "}")
  {
    var t := "{" + b + "}";
    OneBrace();
    assert Depth("{") == 1 by {
      assert "{"[..0] == [];
    }
    DepthJoins("{", b);
    DepthJoins("{" + b, "}");
    forall k | 0 <= k <= |t|
      ensures Depth(t[..k]) >= 0
    {
      if k == 0 {
        NoBraces(t[..0]);
      } else if k <= |b| + 1 {
        assert t[..k] == "{" + b[..k - 1];
        DepthJoins("{", b[..k - 1]);
      } else {
        assert t[..k] == t;
      }
    }
  }

  lemma JoinedIsBalanced(a: string, b: string)
    requires Balanced(a) && Balanced(b)
    ensures Balanced(a + b)
  {
    DepthJoins(a, b);
    forall k | 0 <= k <= |a + b|
      ensures Depth((a + b)[..k]) >= 0
    {
      if k <= |a| {
        assert (a + b)[..k] == a[..k];
      } else {
        assert (a + b)[..k] == a + b[..k - |a|];
        DepthJoins(a, b[..k - |a|]);
      }
    }
  }

  function Whole(p: string, c: string, r: string): string {
    p + BOXED_BRACE + c + "}" + r
  }

  lemma BoxDepth(c: string)
    ensures Depth(BOXED_BRACE + c) == 1 + Depth(c) && Depth(BOXED_BRACE + c + "}") == Depth(c)
  {
    DepthJoins(BOXED_BRACE, c);
    DepthJoins(BOXED_BRACE + c, "}");
    OneBrace();
  }

  lemma OneBrace()
    ensures Depth(BOXED_BRACE) == 1 && Depth("}") == -1
  {
    assert "}"[..0] == [];
    assert BOXED_BRACE == BOXED + "{";
    DepthJoins(BOXED, "{");
    assert "{"[..0] == [];
    NoBraces(BOXED);
  }

  lemma {:induction false} NoBraces(s: string)
    requires '{' !in s && '}' !in s
    ensures Depth(s) == 0
  {
    if s != [] {
      NoBraces(s[..|s| - 1]);
    }
  }

  /** Inside the box no brace closes it; the brace after the content does. */
  lemma BoxCloses(p: string, c: string, r: string)
    requires Balanced(c)
    ensures FirstClose(Whole(p, c, r), |p|, |p| + |BOXED_BRACE| + |c|)
  {
    var s, n := Whole(p, c, r), |BOXED_BRACE|;
    var end := |p| + n + |c|;
    assert s[|p|..end + 1] == BOXED_BRACE + c + "}";
    BoxDepth(c);
    forall k: nat | k < end
      ensures !Closes(s, |p|, k)
    {
      if |p| <= k < |p| + n {
        assert s[k] == BOXED_BRACE[k - |p|];
      } else if |p| + n <= k {
        var m := k + 1 - |p| - n;
        assert s[|p|..k + 1] == BOXED_BRACE + c[..m];
        BoxDepth(c[..m]);
      }
    }
  }

  lemma Inside(p: string, t: string, r: string, i: nat, j: nat)
    requires i <= j <= |t|
    ensures (p + t + r)[|p| + i..|p| + j] == t[i..j]
  {
  }

  lemma NoSpaceInside(p: string, c: string, r: string)
    requires !Contains(Whole(p, c, r), BOXED_SPACE)
    ensures !Contains(BOXED_BRACE + c + "}", BOXED_SPACE)
  {
    var t, s := BOXED_BRACE + c + "}", Whole(p, c, r);
    var i := Rfind(t, BOXED_SPACE);
    if i >= 0 {
      assert s == p + t + r;
      Inside(p, t, r, i, i + |BOXED_SPACE|);
      Found(s, BOXED_SPACE, |p| + i);
    }
  }

  /** The round trip: for balanced content, with no spaced box anywhere and no later box, extracting the last box
      and stripping it gives the content back. */
  lemma BoxRoundTrip(p: string, c: string, r: string, extracted: Option<string>)
    requires Balanced(c) && !Contains(Whole(p, c, r), BOXED_SPACE)
    requires forall k: int | k > |p| :: !At(Whole(p, c, r), k, BOXED)
    requires Extracted(Whole(p, c, r), extracted)
    ensures extracted == Some(BOXED_BRACE + c + "}") && RemoveBoxed(BOXED_BRACE + c + "}") == Some(c)
  {
    var s := Whole(p, c, r);
    assert s[|p|..|p| + |BOXED|] == BOXED;
    Found(s, BOXED, |p|);
    assert StartOf(s) == |p|;
    BoxCloses(p, c, r);
    assert extracted.Some?;
    var j: nat :| FirstClose(s, |p|, j) && extracted.value == s[|p|..j + 1];
    assert j == |p| + |BOXED_BRACE| + |c|;
    assert s[|p|..j + 1] == BOXED_BRACE + c + "}";
    Stripped(p, c, r);
  }

  /** With a spaced box, the text behind the last one up to a dollar sign comes back. */
  lemma SpacedRoundTrip(p: string, c: string, r: string, extracted: Option<string>)
    requires '$' !in c && (r != [] ==> r[0] == '$')
    requires forall k: int | k > |p| :: !At(p + BOXED_SPACE + c + r, k, BOXED_SPACE)
    requires Extracted(p + BOXED_SPACE + c + r, extracted)
    ensures extracted == Some(BOXED_SPACE + c) && RemoveBoxed(extracted.value) == Some(c)
  {
    var s := p + BOXED_SPACE + c + r;
    assert s[|p|..|p| + |BOXED_SPACE|] == BOXED_SPACE;
    Found(s, BOXED_SPACE, |p|);
    assert s[|p| + |BOXED_SPACE|..] == c + r;
    UpToIs(c + r, '$', c);
    RemoveBoxedMeans(BOXED_SPACE + c, c);
  }

  lemma Stripped(p: string, c: string, r: string)
    requires !Contains(Whole(p, c, r), BOXED_SPACE)
    ensures RemoveBoxed(BOXED_BRACE + c + "}") == Some(c)
  {
    NoSpaceInside(p, c, r);
    var t := BOXED_BRACE + c + "}";
    assert t[0..|BOXED_BRACE|] == BOXED_BRACE;
    assert t[|BOXED_BRACE|..|t| - 1] == c;
  }
}
