/** The names of the prediction files and the key they are sorted by
    (Latent-GRPO/eval/eval_high_tasks_sglang.py:616,630). */
module PredictionPaths {
  import opened Options
  import opened Strings

  const MARK := "_gpu_"
  const STEM := "temp_preds"

  /** The output directory, and what follows the number of the GPU in a file name. */
  datatype Place = Place(directory: string, tag: string)

  /** A directory with the separator that `os.path.join` puts behind it. */
  function Root(directory: string): string {
    if directory == [] || directory[|directory| - 1] == '/' then directory else directory + "/"
  }

  function Named(place: Place, number: string): string {
    Root(place.directory) + STEM + MARK + number + "_" + place.tag + ".json"
  }

  function PathOf(place: Place, gpu: int): string {
    Named(place, Decimal(gpu))
  }

  /** `s.split(mark)[1]`; None where the index is out of range. */
  function SecondPart(s: string, mark: string): Option<string> {
    var i := Find(s, mark, 0);
    if i < 0 then None
    else
      var rest := s[i + |mark|..];
      var j := Find(rest, mark, 0);
      Some(if j < 0 then rest else rest[..j])
  }

  /** `int(path.split("_gpu_")[1].split("_")[0])`; None where it raises. */
  function SortKey(path: string): Option<int> {
    match SecondPart(path, MARK)
    case None => None
    case Some(part) => ParseInt(UpTo(part, '_'))
  }

  /** The second cut makes no difference: the mark begins with the character of the third. */
  lemma KeyFrom(path: string, i: nat, token: string)
    requires At(path, i, MARK) && forall k | 0 <= k < i :: !At(path, k, MARK)
    requires token == UpTo(path[i + |MARK|..], '_')
    ensures SortKey(path) == ParseInt(token)
  {
    FindIs(path, MARK, i);
    var rest := path[i + |MARK|..];
    var j := Find(rest, MARK, 0);
    if j >= 0 {
      assert rest[j] == rest[j..j + |MARK|][0] == '_';
      Apart(rest, '_', rest[..j], token);
      UpToIs(rest[..j], '_', token);
    }
  }

  /** One other character is enough. */
  lemma NoMark(s: string, k: nat, o: nat)
    requires o < |MARK| && k + o < |s| && s[k + o] != MARK[o]
    ensures !At(s, k, MARK)
  {
    assert k + |MARK| <= |s| ==> s[k..k + |MARK|][o] == s[k + o];
  }

  lemma AtPrefix(a: string, b: string, k: nat)
    requires k + |MARK| <= |a|
    ensures At(a + b, k, MARK) <==> At(a, k, MARK)
  {
    assert (a + b)[k..k + |MARK|] == a[k..k + |MARK|];
  }

  /** Without a mark in the directory, the mark of the file name is the first one. */
  lemma FirstMark(directory: string, rest: string, k: nat)
    requires !Contains(directory, MARK) && k < |Root(directory) + STEM| && |rest| > 0
    ensures !At(Root(directory) + STEM + rest, k, MARK)
  {
    var root := Root(directory);
    var s := root + STEM + rest;
    if |root| <= k {
      assert s[k] == STEM[k - |root|];
      if k - |root| == 4 {
        assert s[k + 1] == STEM[5];
        NoMark(s, k, 1);
      } else {
        NoMark(s, k, 0);
      }
    } else if |root| <= k + |MARK| {
      assert s[|root| - 1] == root[|root| - 1] == '/';
      NoMark(s, k, |root| - 1 - k);
    } else {
      assert s == directory + (root[|directory|..] + STEM + rest);
      AtPrefix(directory, root[|directory|..] + STEM + rest, k);
      Absent(directory, MARK, k);
    }
  }

  lemma KeyAfter(before: string, rest: string, path: string, token: string)
    requires path == before + (MARK + rest) && (forall k | 0 <= k < |before| :: !At(path, k, MARK))
    requires token == UpTo(rest, '_')
    ensures SortKey(path) == ParseInt(token)
  {
    assert path[|before|..|before| + |MARK|] == MARK && path[|before| + |MARK|..] == rest;
    KeyFrom(path, |before|, token);
  }

  lemma OwnToken(place: Place, number: string)
    requires !Contains(place.directory, MARK) && '_' !in number
    ensures SortKey(Named(place, number)) == ParseInt(number)
  {
    var before, rest := Root(place.directory) + STEM, number + "_" + place.tag + ".json";
    var path := Named(place, number);
    assert path == before + (MARK + rest);
    forall k | 0 <= k < |before|
      ensures !At(path, k, MARK)
    {
      FirstMark(place.directory, MARK + rest, k);
    }
    UpToIs(rest, '_', number);
    KeyAfter(before, rest, path, number);
  }

  /** In a directory without the mark, a file is sorted by the number of its GPU. */
  lemma OwnKey(place: Place, gpu: int)
    requires !Contains(place.directory, MARK)
    ensures SortKey(PathOf(place, gpu)) == Some(gpu)
  {
    ParseDecimal(gpu);
    OwnToken(place, Decimal(gpu));
  }

  /** The key that a directory with a mark forces on every file in it. */
  function DirectoryKey(directory: string): Option<int>
    requires Contains(directory, MARK)
  {
    var i := Find(directory, MARK, 0);
    assert At(directory, Rfind(directory, MARK), MARK);
    ParseInt(UpTo((Root(directory) + "temp_")[i + |MARK|..], '_'))
  }

  lemma UpToPrefix(a: string, b: string, c: char)
    requires c in a
    ensures UpTo(a + b, c) == UpTo(a, c)
  {
    var u := UpTo(a, c);
    assert |u| == |a| ==> u == a;
    assert (a + b)[|u|] == a[|u|] && u <= a + b;
    UpToIs(a + b, c, u);
  }

  lemma ForeignMark(directory: string, i: nat, more: string, path: string)
    requires Contains(directory, MARK) && i == Find(directory, MARK, 0) && path == directory + more
    ensures At(path, i, MARK) && forall k | 0 <= k < i :: !At(path, k, MARK)
  {
    forall k | 0 <= k <= i
      ensures At(path, k, MARK) <==> k == i
    {
      AtPrefix(directory, more, k);
    }
  }

  lemma ForeignToken(directory: string, i: nat, head: string, tail: string, path: string)
    requires Contains(directory, MARK) && i == Find(directory, MARK, 0) && i + |MARK| <= |directory| < |head|
    requires directory <= head && head[|head| - 1] == '_' && path == head + tail
    ensures SortKey(path) == ParseInt(UpTo(head[i + |MARK|..], '_'))
  {
    var n := i + |MARK|;
    CutHead(directory, head, tail, path, n);
    ForeignMark(directory, i, path[|directory|..], path);
    UpToPrefix(head[n..], tail, '_');
    KeyFrom(path, i, UpTo(head[n..], '_'));
  }

  lemma CutHead(directory: string, head: string, tail: string, path: string, n: nat)
    requires n <= |directory| < |head| && directory <= head && head[|head| - 1] == '_' && path == head + tail
    ensures path == directory + path[|directory|..] && path[n..] == head[n..] + tail && '_' in head[n..]
  {
    assert head[n..][|head| - 1 - n] == '_';
  }

  lemma NameSplits(root: string, rest: string)
    ensures root + STEM + rest == (root + "temp_") + ("preds" + rest)
  {
    assert STEM == "temp_" + "preds";
  }

  lemma RestOfName(place: Place, number: string) returns (rest: string)
    ensures Named(place, number) == Root(place.directory) + STEM + rest
  {
    rest := MARK + number + "_" + place.tag + ".json";
  }

  /** In a directory with the mark, all files have the same key, whatever their GPUs, or none has one. */
  lemma ForeignKey(place: Place, gpu: int)
    requires Contains(place.directory, MARK)
    ensures SortKey(PathOf(place, gpu)) == DirectoryKey(place.directory)
  {
    var root := Root(place.directory);
    assert At(place.directory, Rfind(place.directory, MARK), MARK);
    var rest := RestOfName(place, Decimal(gpu));
    NameSplits(root, rest);
    ForeignToken(place.directory, Find(place.directory, MARK, 0), root + "temp_", "preds" + rest, PathOf(place, gpu));
  }

  /** The text between the first mark of a directory and the next underscore is the key of every file. */
  lemma MarkedDirectory(a: string, token: string, b: string, directory: string)
    requires '_' !in a && '_' !in token && directory == a + MARK + token + "_" + b
    ensures Contains(directory, MARK) && DirectoryKey(directory) == ParseInt(token)
  {
    assert directory[|a|..|a| + |MARK|] == MARK;
    Found(directory, MARK, |a|);
    forall k | 0 <= k < |a|
      ensures !At(directory, k, MARK)
    {
      assert directory[k] == a[k] && a[k] in a;
      NoMark(directory, k, 0);
    }
    FindIs(directory, MARK, |a|);
    var rest := (Root(directory) + "temp_")[|a| + |MARK|..];
    assert token <= rest && rest[|token|] == '_';
    UpToIs(rest, '_', token);
  }

  lemma NumberedDirectory(a: string, number: int, b: string, directory: string)
    requires '_' !in a && directory == a + MARK + Decimal(number) + "_" + b
    ensures Contains(directory, MARK) && DirectoryKey(directory) == Some(number)
  {
    ParseDecimal(number);
    MarkedDirectory(a, Decimal(number), b, directory);
  }
}
