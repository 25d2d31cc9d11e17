/** The component statistics of the policy loss: two reducers and the coordinator's merge
    (latent_grpo_runner/metrics/stage2.py:187-198, latent_grpo_runner/upstream_adapter.py:228-260,350-394). */
module ComponentStats {
  import opened Options
  import opened Floats
  import opened TensorOps
  import opened SufficientStats
  import P1Packets

  datatype Component = Component(sum: real, sumSq: real, count: nat, nanCount: nat, maskedCount: nat, min: Option<real>,
                                 negativeCount: nat, nearZeroCount: nat, flipCount: nat)

  function Abs(x: real): real {
    if x < 0.0 then -x else x
  }

  /** A margin that is valid and finite. */
  predicate IsEffective(s: Sample) {
    s.included && s.value.Finite?
  }

  predicate IsNegative(s: Sample) {
    IsEffective(s) && s.value.value < 0.0
  }

  /** `mechanism_stats`: general statistics, and three counts over the zipped masks.  The numerator flag of a
      sample is its flip trigger. */
  function Mechanism(samples: seq<Sample>, nearZeroThreshold: real): Component {
    var s := Of(samples);
    Component(s.sum, s.sumSq, s.count, s.nanCount, s.maskedCount, s.min, CountOf(samples, IsNegative),
              CountOf(samples, t => IsEffective(t) && Abs(t.value.value) <= nearZeroThreshold),
              CountOf(samples, IsNumerator))
  }

  function CountReals(xs: seq<real>, test: real -> bool): nat {
    if xs == [] then 0 else CountReals(xs[..|xs| - 1], test) + if test(xs[|xs| - 1]) then 1 else 0
  }

  /** `build_component_sufficient_stats`: first filter the margins, then reduce the list that is left.  A negative
      threshold is an error. */
  function Reference(samples: seq<Sample>, nearZeroThreshold: real): Option<Component> {
    if nearZeroThreshold < 0.0 then None
    else
      var values := Effective(samples);
      Some(Component(RealSum(values), SquareSum(values), |values|, CountOf(samples, IsNan), CountOf(samples, IsMasked),
                     Minimum(values), CountReals(values, x => x < 0.0),
                     CountReals(values, x => Abs(x) <= nearZeroThreshold), CountOf(samples, IsNumerator)))
  }

  lemma {:induction false} CountFiltered(samples: seq<Sample>, onSample: Sample -> bool, onReal: real -> bool)
    requires forall s: Sample :: onSample(s) <==> IsEffective(s) && onReal(s.value.value)
    ensures CountOf(samples, onSample) == CountReals(Effective(samples), onReal)
  {
    if samples != [] {
      var n := |samples| - 1;
      CountFiltered(samples[..n], onSample, onReal);
      var kept := Effective(samples[..n]);
      if IsEffective(samples[n]) {
        assert (kept + [samples[n].value.value])[..|kept|] == kept;
        assert onSample(samples[n]) <==> onReal(samples[n].value.value);
      } else {
        assert Effective(samples) == kept;
      }
    }
  }

  /** The two reducers agree on every input that both accept. */
  lemma ReducersAgree(samples: seq<Sample>, nearZeroThreshold: real)
    ensures Reference(samples, nearZeroThreshold).Some? <==> nearZeroThreshold >= 0.0
    ensures nearZeroThreshold >= 0.0 ==> Reference(samples, nearZeroThreshold) == Some(Mechanism(samples, nearZeroThreshold))
  {
    CountFiltered(samples, IsNegative, x => x < 0.0);
    CountFiltered(samples, t => IsEffective(t) && Abs(t.value.value) <= nearZeroThreshold, x => Abs(x) <= nearZeroThreshold);
  }

  /** The margins counted as near zero are the valid finite ones between -t and t, those counted as negative the ones
      below zero. */
  lemma CountsMean(samples: seq<Sample>, t: real)
    ensures Mechanism(samples, t).nearZeroCount
            == CountOf(samples, (s: Sample) => s.included && s.value.Finite? && -t <= s.value.value <= t)
    ensures Mechanism(samples, t).negativeCount
            == CountOf(samples, (s: Sample) => s.included && s.value.Finite? && s.value.value < 0.0)
  {
    SameCount(samples, (s: Sample) => IsEffective(s) && Abs(s.value.value) <= t,
              (s: Sample) => s.included && s.value.Finite? && -t <= s.value.value <= t);
    SameCount(samples, IsNegative, (s: Sample) => s.included && s.value.Finite? && s.value.value < 0.0);
  }

  lemma {:induction false} SameCount(samples: seq<Sample>, a: Sample -> bool, b: Sample -> bool)
    requires forall s :: a(s) <==> b(s)
    ensures CountOf(samples, a) == CountOf(samples, b)
  {
    if samples != [] {
      SameCount(samples[..|samples| - 1], a, b);
    }
  }

  // ----- merging -----

  const EMPTY := Component(0.0, 0.0, 0, 0, 0, None, 0, 0, 0)

  function Join(a: Component, b: Component): Component {
    Component(a.sum + b.sum, a.sumSq + b.sumSq, a.count + b.count, a.nanCount + b.nanCount,
              a.maskedCount + b.maskedCount, Lesser(a.min, b.min), a.negativeCount + b.negativeCount,
              a.nearZeroCount + b.nearZeroCount, a.flipCount + b.flipCount)
  }

  function Joined(all: seq<Component>): Component {
    if all == [] then EMPTY else Join(Joined(all[..|all| - 1]), all[|all| - 1])
  }

  lemma JoinIsConcat(a: seq<Sample>, b: seq<Sample>, threshold: real)
    ensures Join(Mechanism(a, threshold), Mechanism(b, threshold)) == Mechanism(a + b, threshold)
  {
    MergeIsConcat(a, b);
    CountJoins(a, b, IsNegative);
    CountJoins(a, b, t => IsEffective(t) && Abs(t.value.value) <= threshold);
    CountJoins(a, b, IsNumerator);
  }

  function Reduced(parts: seq<seq<Sample>>, threshold: real): (r: seq<Component>)
    ensures |r| == |parts| && forall i | 0 <= i < |r| :: r[i] == Mechanism(parts[i], threshold)
  {
    seq(|parts|, i requires 0 <= i < |parts| => Mechanism(parts[i], threshold))
  }

  /** Merging the reductions of any split equals reducing the concatenation. */
  lemma {:induction false} JoinedIsGlobal(parts: seq<seq<Sample>>, threshold: real)
    ensures Joined(Reduced(parts, threshold)) == Mechanism(Flatten(parts), threshold)
  {
    if parts == [] {
      EmptyReduction(threshold);
    } else {
      var n := |parts| - 1;
      JoinedIsGlobal(parts[..n], threshold);
      assert Reduced(parts, threshold)[..n] == Reduced(parts[..n], threshold);
      JoinIsConcat(Flatten(parts[..n]), parts[n], threshold);
    }
  }

  lemma EmptyReduction(threshold: real)
    ensures Mechanism([], threshold) == EMPTY
  {
  }

  // ----- the packets of all workers -----

  /** One entry of a worker's list: a reduction with its threshold and definition, either of which may be absent, one
      reported unavailable, or anything else. */
  datatype Row = Reported(stats: Component, threshold: Option<real>, version: Option<string>) | ReportedUnavailable | Malformed

  /** `rows` is None when it is missing or no list. */
  datatype Packet = Packet(rank: Option<int>, rows: Option<seq<Row>>)

  datatype Outcome = Unavailable | Available(stats: Component, threshold: Option<real>, version: Option<string>)

  predicate CompleteRanks(packets: seq<Packet>, n: int) {
    P1Packets.Complete(seq(|packets|, i requires 0 <= i < |packets| => packets[i].rank), n)
  }

  function RowsIn(packet: Packet): seq<Row> {
    if packet.rows.Some? then packet.rows.value else []
  }

  /** All rows of all packets, in order. */
  function AllRows(packets: seq<Packet>): seq<Row> {
    if packets == [] then []
    else AllRows(packets[..|packets| - 1]) + RowsIn(packets[|packets| - 1])
  }

  predicate Usable(packets: seq<Packet>) {
    && (forall i | 0 <= i < |packets| :: packets[i].rows.Some? && packets[i].rows.value != [])
    && forall row | row in AllRows(packets) :: row.Reported?
  }

  /** All rows were reduced under one threshold and one definition; absent counts as one value. */
  predicate OneDefinition(rows: seq<Row>)
    requires forall row | row in rows :: row.Reported?
  {
    rows != [] && forall i | 0 <= i < |rows| ::
      rows[i].threshold == rows[0].threshold && rows[i].version == rows[0].version
  }

  function StatsOf(rows: seq<Row>): (r: seq<Component>)
    requires forall row | row in rows :: row.Reported?
    ensures |r| == |rows|
  {
    seq(|rows|, i requires 0 <= i < |rows| => rows[i].stats)
  }

  function RanksOf(packets: seq<Packet>): (r: seq<Option<int>>)
    ensures |r| == |packets| && forall i | 0 <= i < |r| :: r[i] == packets[i].rank
  {
    seq(|packets|, i requires 0 <= i < |packets| => packets[i].rank)
  }

  /** As many packets as workers, at least one, and each rank from 0 to n - 1 among them. */
  predicate EveryRank(packets: seq<Packet>, n: int) {
    n >= 1 && |packets| == n && forall rank | 0 <= rank < n :: Some(rank) in RanksOf(packets)
  }

  lemma RanksMean(packets: seq<Packet>, n: int)
    ensures CompleteRanks(packets, n) <==> EveryRank(packets, n)
  {
    assert RanksOf(packets) == seq(|packets|, i requires 0 <= i < |packets| => packets[i].rank);
    if n >= 1 && |packets| == n {
      P1Packets.AllOfThem(RanksOf(packets), n);
    }
  }

  /** Every worker sent a row, and every row is a reduction under this threshold and this definition. */
  ghost predicate AllUnder(packets: seq<Packet>, threshold: Option<real>, version: Option<string>) {
    forall i | 0 <= i < |packets| ::
      && packets[i].rows.Some? && packets[i].rows.value != []
      && forall row | row in packets[i].rows.value :: row.Reported? && row.threshold == threshold && row.version == version
  }

  lemma {:induction false} RowsAre(packets: seq<Packet>)
    ensures forall row :: row in AllRows(packets) <==> exists i | 0 <= i < |packets| :: row in RowsIn(packets[i])
  {
    if packets != [] {
      var n := |packets| - 1;
      RowsAre(packets[..n]);
      assert forall i | 0 <= i < n :: packets[..n][i] == packets[i];
      forall row
        ensures row in AllRows(packets) <==> exists i | 0 <= i < |packets| :: row in RowsIn(packets[i])
      {
        if row in AllRows(packets[..n]) {
          var i :| 0 <= i < n && row in RowsIn(packets[..n][i]);
          assert row in RowsIn(packets[i]);
        } else if row in RowsIn(packets[n]) {
        } else if i :| 0 <= i < |packets| && row in RowsIn(packets[i]) {
          assert i < n && row in RowsIn(packets[..n][i]);
        }
      }
    }
  }

  lemma DefinitionMeans(packets: seq<Packet>)
    ensures packets != [] ==>
              (Usable(packets) && OneDefinition(AllRows(packets)) <==>
                 exists threshold, version :: AllUnder(packets, threshold, version))
    ensures packets != [] && Usable(packets) && OneDefinition(AllRows(packets)) ==>
              AllUnder(packets, AllRows(packets)[0].threshold, AllRows(packets)[0].version)
  {
    var rows := AllRows(packets);
    RowsAre(packets);
    if packets != [] && Usable(packets) && OneDefinition(rows) {
      forall i, row | 0 <= i < |packets| && row in packets[i].rows.value
        ensures row.Reported? && row.threshold == rows[0].threshold && row.version == rows[0].version
      {
        assert row in RowsIn(packets[i]) && row in rows;
        var j :| 0 <= j < |rows| && rows[j] == row;
      }
      assert AllUnder(packets, rows[0].threshold, rows[0].version);
    }
    if threshold, version :| AllUnder(packets, threshold, version) {
      if packets != [] {
        UnderMeansOne(packets, threshold, version);
      }
    }
  }

  lemma UnderMeansOne(packets: seq<Packet>, threshold: Option<real>, version: Option<string>)
    requires packets != [] && AllUnder(packets, threshold, version)
    ensures Usable(packets) && OneDefinition(AllRows(packets))
  {
    var rows := AllRows(packets);
    RowsAre(packets);
    forall j | 0 <= j < |rows|
      ensures rows[j].Reported? && rows[j].threshold == threshold && rows[j].version == version
    {
      assert rows[j] in rows;
      var i :| 0 <= i < |packets| && rows[j] in RowsIn(packets[i]);
    }
    assert packets[0].rows.value[0] in RowsIn(packets[0]);
    assert packets[0].rows.value[0] in rows;
  }

  /** The component part of `merge_worker_observer_packets`: fail-closed.  The statistics are available exactly when
      every rank reported once, every worker sent at least one row, no row is unavailable or malformed, and all rows
      share one threshold and one definition; then they are the joined rows. */
  method MergeComponents(packets: seq<Packet>, expectedWorkerCount: int) returns (r: Outcome)
    ensures r.Available? <==>
              CompleteRanks(packets, expectedWorkerCount) && Usable(packets) && OneDefinition(AllRows(packets))
    ensures r.Available? ==>
              && r.stats == Joined(StatsOf(AllRows(packets)))
              && r.threshold == AllRows(packets)[0].threshold && r.version == AllRows(packets)[0].version
    ensures r.Available? <==>
              && EveryRank(packets, expectedWorkerCount)
              && exists threshold, version :: AllUnder(packets, threshold, version)
    ensures r.Available? ==> AllUnder(packets, r.threshold, r.version)
  {
    RanksMean(packets, expectedWorkerCount);
    DefinitionMeans(packets);
    if !CompleteRanks(packets, expectedWorkerCount) {
      return Unavailable;
    }
    var rows, usable := CollectRows(packets);
    if !usable {
      return Unavailable;
    }
    if !OneDefinition(rows) {
      return Unavailable;
    }
    var stats := EMPTY;
    for i := 0 to |rows|
      invariant stats == Joined(StatsOf(rows)[..i])
    {
      assert StatsOf(rows)[..i + 1][..i] == StatsOf(rows)[..i];
      stats := Join(stats, rows[i].stats);
    }
    assert StatsOf(rows)[..|rows|] == StatsOf(rows);
    r := Available(stats, rows[0].threshold, rows[0].version);
  }

  /** The loops that collect the rows and note what is missing or unavailable. */
  method CollectRows(packets: seq<Packet>) returns (rows: seq<Row>, usable: bool)
    ensures usable <==> Usable(packets)
    ensures usable ==> rows == AllRows(packets)
  {
    rows, usable := [], true;
    for i := 0 to |packets|
      invariant usable <==> Usable(packets[..i])
      invariant usable ==> rows == AllRows(packets[..i])
    {
      assert packets[..i + 1][..i] == packets[..i];
      UsableSnoc(packets, i);
      if packets[i].rows.None? || packets[i].rows.value == [] {
        usable := false;
        continue;
      }
      var local := packets[i].rows.value;
      var good := true;
      for j := 0 to |local|
        invariant good <==> forall row | row in local[..j] :: row.Reported?
      {
        assert local[..j + 1] == local[..j] + [local[j]];
        if !local[j].Reported? {
          good := false;
        }
      }
      assert local[..|local|] == local;
      if !good {
        usable := false;
      } else if usable {
        rows := rows + local;
      }
    }
    assert packets[..|packets|] == packets;
  }

  lemma UsableSnoc(packets: seq<Packet>, i: nat)
    requires i < |packets|
    ensures Usable(packets[..i + 1]) <==>
              && Usable(packets[..i]) && packets[i].rows.Some? && packets[i].rows.value != []
              && forall row | row in packets[i].rows.value :: row.Reported?
    ensures AllRows(packets[..i + 1]) == AllRows(packets[..i]) + RowsIn(packets[i])
  {
    assert packets[..i + 1][..i] == packets[..i];
    assert forall k | 0 <= k < i :: packets[..i + 1][k] == packets[..i][k];
  }

  /** When every worker reduces its values under the same threshold and definition, the coordinator gets the
      reduction of all values; the reduction of any one row may come from either reducer. */
  lemma ComponentsAreGlobal(packets: seq<Packet>, parts: seq<seq<Sample>>, threshold: real, version: string)
    requires threshold >= 0.0 && Usable(packets) && |AllRows(packets)| == |parts| > 0
    requires forall i | 0 <= i < |parts| ::
               AllRows(packets)[i] == Reported(Reference(parts[i], threshold).value, Some(threshold), Some(version))
    ensures OneDefinition(AllRows(packets))
    ensures Joined(StatsOf(AllRows(packets))) == Mechanism(Flatten(parts), threshold)
  {
    forall i | 0 <= i < |parts|
      ensures StatsOf(AllRows(packets))[i] == Mechanism(parts[i], threshold)
    {
      ReducersAgree(parts[i], threshold);
    }
    assert StatsOf(AllRows(packets)) == Reduced(parts, threshold);
    JoinedIsGlobal(parts, threshold);
  }
}
