/** The output root on disk and the process that works on it.

    `image` is what a later process would find.  `fuel` counts the disk actions the process will still
    survive: the action after the last one kills it, and a dead process changes nothing any more.
    A law about every fuel is therefore a law about every crash point. */
module OutputDisk {
  import opened Options
  import opened PartLog

  datatype Table = TrainStep | TrainGroup | Support | SupportBenchmark | Probe | ProbeBenchmark

  /** The order in which writers are opened (latent_grpo_runner/metrics/integration.py:33-40). */
  const WRITER_TABLES := [TrainStep, TrainGroup, Support, SupportBenchmark, Probe, ProbeBenchmark]

  /** The checkpoint sidecar; `partCounts` are the committed part counts of the writer manifests. */
  datatype Sidecar = Sidecar(configHash: int, optimizerStep: int, partCounts: map<Table, nat>)

  /** The trainer's file naming the newest checkpoint: it is opened for writing, which empties it, and then
      written, so a process can die in between (verl/trainer/ppo/ray_trainer.py:998-1000). */
  datatype Tracker = Unset | Truncated | Latest(step: int)

  datatype Root = Root(tables: map<Table, Dir>, sidecars: map<int, Sidecar>, latest: Tracker)

  predicate HasAllTables(root: Root) {
    forall t: Table :: t in root.tables
  }

  function WithDir(root: Root, t: Table, d: Dir): Root {
    root.(tables := root.tables[t := d])
  }

  lemma WithDirAgain(root: Root, t: Table, d: Dir, d': Dir)
    ensures WithDir(WithDir(root, t, d), t, d') == WithDir(root, t, d')
  {
    assert root.tables[t := d][t := d'] == root.tables[t := d'];
  }

  lemma WithSameDir(root: Root, t: Table)
    requires t in root.tables
    ensures WithDir(root, t, root.tables[t]) == root
  {
    assert root.tables[t := root.tables[t]] == root.tables;
  }

  /** The images of an operation on one table, as images of the whole root. */
  function Lift(root: Root, t: Table, images: seq<Dir>): (r: seq<Root>)
    ensures |r| == |images|
    ensures forall i | 0 <= i < |images| :: r[i] == WithDir(root, t, images[i])
  {
    seq(|images|, i requires 0 <= i < |images| => WithDir(root, t, images[i]))
  }

  lemma LiftAt(root: Root, t: Table, images: seq<Dir>, fuel: nat)
    requires t in root.tables
    ensures At(root, Lift(root, t, images), fuel) == WithDir(root, t, At(root.tables[t], images, fuel))
    ensures Last(root, Lift(root, t, images)) == WithDir(root, t, Last(root.tables[t], images))
  {
    WithSameDir(root, t);
  }

  /** A process with the given fuel went through a list of images: it is alive if the fuel was enough for all
      of them, and otherwise it died at the image the fuel allowed. */
  ghost predicate Ran(before: Root, fuel: nat, images: seq<Root>, after: Root, left: nat, crashed: bool) {
    && after == At(before, images, fuel)
    && (crashed <==> fuel < |images|)
    && (!crashed ==> left == fuel - |images|)
  }

  lemma RanNothing(root: Root, fuel: nat)
    ensures Ran(root, fuel, [], root, fuel, false)
  {
  }

  lemma RanThen(before: Root, fuel: nat, first: seq<Root>, middle: Root, left: nat,
                second: seq<Root>, after: Root, left': nat, crashed: bool)
    requires Ran(before, fuel, first, middle, left, false) && Ran(middle, left, second, after, left', crashed)
    ensures Ran(before, fuel, first + second, after, left', crashed)
  {
    AtConcat(before, first, second, fuel);
  }

  /** What a dead process would have done next does not matter. */
  lemma RanDead(before: Root, fuel: nat, first: seq<Root>, second: seq<Root>, after: Root, left: nat)
    requires Ran(before, fuel, first, after, left, true)
    ensures Ran(before, fuel, first + second, after, left, true)
  {
    AtConcat(before, first, second, fuel);
  }

  class OutputRoot {
    var image: Root
    var fuel: nat
    var crashed: bool
    var locks: set<Table>

    /** A new process: no locks are held, the disk is as an earlier process left it. */
    constructor (image: Root, fuel: nat)
      ensures this.image == image && this.fuel == fuel && !crashed && locks == {}
    {
      this.image, this.fuel, this.crashed, this.locks := image, fuel, false, {};
    }

    /** One atomic disk action, or the death of the process. */
    method Act(next: Root)
      modifies `image, `fuel, `crashed
      ensures if old(crashed) || old(fuel) == 0
              then crashed && image == old(image) && fuel == old(fuel)
              else !crashed && image == next && fuel == old(fuel) - 1
    {
      if crashed || fuel == 0 {
        crashed := true;
      } else {
        image, fuel := next, fuel - 1;
      }
    }
  }
}
