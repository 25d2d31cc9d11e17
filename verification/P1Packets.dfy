/** Statistics on their way from the workers to the coordinator (latent_grpo_runner/metrics/p1.py:45-158). */
module P1Packets {
  import opened Options
  import opened Floats
  import opened TensorOps
  import opened SufficientStats

  datatype Json = IntVal(i: int) | FloatVal(x: Float) | StrVal(s: string) | BoolVal(b: bool) | NullVal

  type Record = map<string, Json>

  datatype Error = NoVersion | BadCount(field: string) | BadNumber(field: string) | BadExtremum(field: string)
                 | NumeratorTooLarge | NoRecords | VersionsDisagree | MissingMetric(name: string)
                 | InvalidMetric(name: string)

  datatype Result<T> = Ok(value: T) | Err(error: Error)

  const VERSION := "definition_version"

  // ----- one record -----

  function Extremum(x: Option<real>): Json {
    if x.Some? then FloatVal(Finite(x.value)) else NullVal
  }

  /** `sufficient_stats_to_record`; the caller supplies a version that is not empty. */
  function ToRecord(s: Stats, version: string): Record {
    map["sum" := FloatVal(Finite(s.sum)), "sum_sq" := FloatVal(Finite(s.sumSq)), "count" := IntVal(s.count),
        "nan_count" := IntVal(s.nanCount), "masked_count" := IntVal(s.maskedCount), "min" := Extremum(s.min),
        "max" := Extremum(s.max), "numerator_count" := IntVal(s.numeratorCount), VERSION := StrVal(version)]
  }

  /** `record.get`. */
  function Get(record: Record, field: string): Json {
    if field in record then record[field] else NullVal
  }

  predicate IsCount(j: Json) {
    j.IntVal? && j.i >= 0
  }

  predicate IsNumber(j: Json) {
    j.IntVal? || (j.FloatVal? && j.x.Finite?)
  }

  function Number(j: Json): real
    requires IsNumber(j)
  {
    if j.IntVal? then j.i as real else j.x.value
  }

  function OptionalNumber(j: Json): Option<real>
    requires j.NullVal? || IsNumber(j)
  {
    if j.NullVal? then None else Some(Number(j))
  }

  /** `sufficient_stats_from_record`: the checks, in order, and then the statistics. */
  function FromRecord(record: Record): Result<Stats> {
    var version := Get(record, VERSION);
    if !version.StrVal? || version.s == "" then Err(NoVersion)
    else if !IsCount(Get(record, "count")) then Err(BadCount("count"))
    else if !IsCount(Get(record, "nan_count")) then Err(BadCount("nan_count"))
    else if !IsCount(Get(record, "masked_count")) then Err(BadCount("masked_count"))
    else if !IsCount(Get(record, "numerator_count")) then Err(BadCount("numerator_count"))
    else if !IsNumber(Get(record, "sum")) then Err(BadNumber("sum"))
    else if !IsNumber(Get(record, "sum_sq")) then Err(BadNumber("sum_sq"))
    else if !Get(record, "min").NullVal? && !IsNumber(Get(record, "min")) then Err(BadExtremum("min"))
    else if !Get(record, "max").NullVal? && !IsNumber(Get(record, "max")) then Err(BadExtremum("max"))
    else if Get(record, "numerator_count").i > Get(record, "count").i then Err(NumeratorTooLarge)
    else
      Ok(Stats(Number(Get(record, "sum")), Number(Get(record, "sum_sq")), Get(record, "count").i,
               Get(record, "nan_count").i, Get(record, "masked_count").i, OptionalNumber(Get(record, "min")),
               OptionalNumber(Get(record, "max")), Get(record, "numerator_count").i))
  }

  /** A record reads back as the statistics it was made from, whenever the numerators do not exceed the count. */
  lemma RecordRoundTrip(s: Stats, version: string)
    requires version != "" && s.numeratorCount <= s.count
    ensures FromRecord(ToRecord(s, version)) == Ok(s)
  {
    var r := ToRecord(s, version);
    assert Get(r, VERSION) == StrVal(version);
    assert Get(r, "sum") == FloatVal(Finite(s.sum)) && Get(r, "sum_sq") == FloatVal(Finite(s.sumSq));
    assert Get(r, "count") == IntVal(s.count) && Get(r, "nan_count") == IntVal(s.nanCount);
    assert Get(r, "masked_count") == IntVal(s.maskedCount) && Get(r, "numerator_count") == IntVal(s.numeratorCount);
    assert Get(r, "min") == Extremum(s.min) && Get(r, "max") == Extremum(s.max);
  }

  // ----- merging records -----

  /** The statistics of the records, or the error of the first one that does not read. */
  function ReadAll(records: seq<Record>): Result<seq<Stats>> {
    if records == [] then Ok([])
    else
      var front := ReadAll(records[..|records| - 1]);
      if front.Err? then front
      else
        match FromRecord(records[|records| - 1])
        case Err(e) => Err(e)
        case Ok(s) => Ok(front.value + [s])
  }

  predicate OneVersion(records: seq<Record>)
    requires records != []
  {
    && Get(records[0], VERSION).StrVal?
    && forall i | 0 <= i < |records| :: Get(records[i], VERSION) == Get(records[0], VERSION)
  }

  function MergedRecord(records: seq<Record>): Result<Record> {
    if records == [] then Err(NoRecords)
    else if !OneVersion(records) then Err(VersionsDisagree)
    else
      match ReadAll(records)
      case Err(e) => Err(e)
      case Ok(all) => Ok(ToRecord(Merged(all), Get(records[0], VERSION).s))
  }

  // ----- what is accepted -----

  /** The field of a record holds a count. */
  predicate HoldsCount(record: Record, field: string) {
    field in record && record[field].IntVal? && record[field].i >= 0
  }

  predicate HoldsNumber(record: Record, field: string) {
    field in record && (record[field].IntVal? || (record[field].FloatVal? && record[field].x.Finite?))
  }

  /** A record that reads: a version, counts, finite sums, extrema that are finite or null, and no more numerators than
      values. */
  predicate Readable(record: Record) {
    && VERSION in record && record[VERSION].StrVal? && record[VERSION].s != ""
    && HoldsCount(record, "count") && HoldsCount(record, "nan_count") && HoldsCount(record, "masked_count")
    && HoldsCount(record, "numerator_count") && record["numerator_count"].i <= record["count"].i
    && HoldsNumber(record, "sum") && HoldsNumber(record, "sum_sq")
    && ("min" in record && record["min"] != NullVal ==> HoldsNumber(record, "min"))
    && ("max" in record && record["max"] != NullVal ==> HoldsNumber(record, "max"))
  }

  /** The field of a record holds the number x. */
  predicate Holds(record: Record, field: string, x: real) {
    field in record && (record[field] == FloatVal(Finite(x)) || (record[field].IntVal? && record[field].i as real == x))
  }

  /** The statistics in a record. */
  predicate Carries(record: Record, s: Stats) {
    && Holds(record, "sum", s.sum) && Holds(record, "sum_sq", s.sumSq)
    && Holds(record, "count", s.count as real) && Holds(record, "nan_count", s.nanCount as real)
    && Holds(record, "masked_count", s.maskedCount as real) && Holds(record, "numerator_count", s.numeratorCount as real)
    && (if s.min.Some? then Holds(record, "min", s.min.value) else "min" in record ==> record["min"] == NullVal)
    && (if s.max.Some? then Holds(record, "max", s.max.value) else "max" in record ==> record["max"] == NullVal)
  }

  /** Exactly the readable records read, as the statistics they carry. */
  lemma ReadMeans(record: Record)
    ensures FromRecord(record).Ok? <==> Readable(record)
    ensures FromRecord(record).Ok? ==> Carries(record, FromRecord(record).value)
  {
  }

  lemma {:induction false} ReadAllMeans(records: seq<Record>)
    ensures ReadAll(records).Ok? <==> forall i | 0 <= i < |records| :: Readable(records[i])
    ensures ReadAll(records).Ok? ==>
              && |ReadAll(records).value| == |records|
              && forall i | 0 <= i < |records| :: Carries(records[i], ReadAll(records).value[i])
  {
    if records != [] {
      var n := |records| - 1;
      ReadAllMeans(records[..n]);
      ReadMeans(records[n]);
      assert records == records[..n] + [records[n]];
    }
  }

  /** Every record holds this version. */
  predicate AllHold(records: seq<Record>, version: string) {
    forall i | 0 <= i < |records| :: VERSION in records[i] && records[i][VERSION] == StrVal(version)
  }

  lemma OneVersionMeans(records: seq<Record>)
    requires records != []
    ensures OneVersion(records) <==> exists version :: AllHold(records, version)
  {
    if OneVersion(records) {
      forall i | 0 <= i < |records|
        ensures VERSION in records[i] && records[i][VERSION] == Get(records[0], VERSION)
      {
        assert Get(records[i], VERSION) == Get(records[0], VERSION);
      }
      assert AllHold(records, Get(records[0], VERSION).s);
    }
    if version :| AllHold(records, version) {
      forall i | 0 <= i < |records|
        ensures Get(records[i], VERSION) == StrVal(version)
      {
        assert records[i][VERSION] == StrVal(version);
      }
    }
  }

  /** When records merge: there is one, all hold one and the same version, and all read.  The result then holds that
      version. */
  lemma MergedMeans(records: seq<Record>)
    ensures MergedRecord(records) == Err(NoRecords) <==> records == []
    ensures MergedRecord(records) == Err(VersionsDisagree) <==>
              records != [] && !exists version :: AllHold(records, version)
    ensures MergedRecord(records).Ok? <==>
              && records != [] && (exists version :: AllHold(records, version))
              && forall i | 0 <= i < |records| :: Readable(records[i])
    ensures MergedRecord(records).Ok? ==>
              && Readable(records[0]) && AllHold(records, records[0][VERSION].s)
              && AllHold([MergedRecord(records).value], records[0][VERSION].s)
  {
    if records != [] {
      OneVersionMeans(records);
      ReadAllMeans(records);
      ReadError(records);
      if MergedRecord(records).Ok? {
        RecordVersion(Merged(ReadAll(records).value), records[0][VERSION].s);
      }
    }
  }

  lemma {:induction false} ReadError(records: seq<Record>)
    ensures ReadAll(records).Err? ==> ReadAll(records).error != NoRecords && ReadAll(records).error != VersionsDisagree
  {
    if records != [] {
      ReadError(records[..|records| - 1]);
    }
  }

  /** `merge_serialized_sufficient_stats`. */
  method MergeSerialized(records: seq<Record>) returns (r: Result<Record>)
    ensures r == MergedRecord(records)
    ensures r == Err(NoRecords) <==> records == []
    ensures r == Err(VersionsDisagree) <==> records != [] && !exists version :: AllHold(records, version)
    ensures r.Ok? <==>
              && records != [] && (exists version :: AllHold(records, version))
              && forall i | 0 <= i < |records| :: Readable(records[i])
    ensures r.Ok? ==>
              exists version :: version != "" && AllHold(records, version) && AllHold([r.value], version)
  {
    MergedMeans(records);
    if records == [] {
      return Err(NoRecords);
    }
    if !OneVersion(records) {
      return Err(VersionsDisagree);
    }
    var all: seq<Stats> := [];
    for i := 0 to |records|
      invariant ReadAll(records[..i]) == Ok(all)
    {
      assert records[..i + 1][..i] == records[..i];
      var one := FromRecord(records[i]);
      if one.Err? {
        FirstErrorStays(records, i + 1);
        return Err(one.error);
      }
      all := all + [one.value];
    }
    assert records[..|records|] == records;
    var merged := MergeAll(all);
    r := Ok(ToRecord(merged, Get(records[0], VERSION).s));
  }

  lemma {:induction false} FirstErrorStays(records: seq<Record>, i: nat)
    requires i <= |records| && ReadAll(records[..i]).Err?
    ensures ReadAll(records) == ReadAll(records[..i])
    decreases |records| - i
  {
    if i < |records| {
      assert records[..i + 1][..i] == records[..i];
      FirstErrorStays(records, i + 1);
    } else {
      assert records[..i] == records;
    }
  }

  function RecordsOf(all: seq<Stats>, version: string): (r: seq<Record>)
    ensures |r| == |all| && forall i | 0 <= i < |r| :: r[i] == ToRecord(all[i], version)
  {
    seq(|all|, i requires 0 <= i < |all| => ToRecord(all[i], version))
  }

  lemma {:induction false} RecordsRead(all: seq<Stats>, version: string)
    requires version != "" && forall i | 0 <= i < |all| :: all[i].numeratorCount <= all[i].count
    ensures ReadAll(RecordsOf(all, version)) == Ok(all)
  {
    if all != [] {
      var n := |all| - 1;
      RecordsRead(all[..n], version);
      assert RecordsOf(all, version)[..n] == RecordsOf(all[..n], version);
      RecordRoundTrip(all[n], version);
      ReadAllSnoc(RecordsOf(all, version), n, all);
    }
  }

  lemma ReadAllSnoc(records: seq<Record>, n: nat, all: seq<Stats>)
    requires |records| == |all| == n + 1 && ReadAll(records[..n]) == Ok(all[..n]) && FromRecord(records[n]) == Ok(all[n])
    ensures ReadAll(records) == Ok(all)
  {
    assert all == all[..n] + [all[n]];
  }

  lemma RecordVersion(s: Stats, version: string)
    ensures Get(ToRecord(s, version), VERSION) == StrVal(version)
  {
  }

  /** Distributed statistics equal global statistics: split the values over any number of workers in any way,
      serialise each worker's statistics, let the records arrive in any order, and merge: the result is the record
      of the statistics of all the values. */
  lemma SerializedMergeIsGlobal(parts: seq<seq<Sample>>, version: string, arrived: seq<Record>)
    requires parts != [] && version != ""
    requires multiset(arrived) == multiset(RecordsOf(OfAll(parts), version))
    ensures MergedRecord(arrived) == Ok(ToRecord(Of(Flatten(parts)), version))
  {
    var all := StatsOf(arrived, OfAll(parts), version);
    PartsAreSound(parts);
    forall i | 0 <= i < |all|
      ensures all[i].numeratorCount <= all[i].count
    {
      assert all[i] in multiset(all);
    }
    RecordsRead(all, version);
    MergedInAnyOrder(all, OfAll(parts));
    MergedIsGlobal(parts);
    ArrivedVersion(arrived, all, version);
  }

  lemma PartsAreSound(parts: seq<seq<Sample>>)
    ensures forall s | s in OfAll(parts) :: s.numeratorCount <= s.count
  {
    forall i | 0 <= i < |parts|
      ensures Sound(Of(parts[i]))
    {
      OfIsSound(parts[i]);
    }
  }

  lemma ArrivedVersion(arrived: seq<Record>, all: seq<Stats>, version: string)
    requires arrived == RecordsOf(all, version) && arrived != []
    ensures OneVersion(arrived) && Get(arrived[0], VERSION) == StrVal(version)
  {
    forall i | 0 <= i < |arrived|
      ensures Get(arrived[i], VERSION) == StrVal(version)
    {
      RecordVersion(all[i], version);
    }
  }

  function Without<T>(xs: seq<T>, i: nat): seq<T>
    requires i < |xs|
  {
    xs[..i] + xs[i + 1..]
  }

  lemma WithoutBag<T>(xs: seq<T>, i: nat)
    requires i < |xs|
    ensures multiset(xs) == multiset(Without(xs, i)) + multiset{xs[i]}
  {
    assert xs == xs[..i] + [xs[i]] + xs[i + 1..];
  }

  lemma LastSent(arrived: seq<Record>, sent: seq<Stats>, version: string) returns (i: nat)
    requires arrived != [] && multiset(arrived) == multiset(RecordsOf(sent, version))
    ensures i < |sent| && ToRecord(sent[i], version) == arrived[|arrived| - 1]
    ensures multiset(arrived[..|arrived| - 1]) == multiset(RecordsOf(Without(sent, i), version))
  {
    var n := |arrived| - 1;
    var records := RecordsOf(sent, version);
    assert arrived == arrived[..n] + [arrived[n]];
    assert arrived[n] in multiset(records);
    i :| 0 <= i < |records| && records[i] == arrived[n];
    WithoutBag(records, i);
    assert RecordsOf(Without(sent, i), version) == Without(records, i);
    assert multiset(Without(records, i)) == multiset(records) - multiset{arrived[n]};
    assert multiset(arrived[..n]) == multiset(arrived) - multiset{arrived[n]};
  }

  lemma RecordsSnoc(front: seq<Stats>, s: Stats, version: string)
    ensures RecordsOf(front + [s], version) == RecordsOf(front, version) + [ToRecord(s, version)]
  {
  }

  /** Records that are a rearrangement of the records of some statistics are the records of a rearrangement. */
  lemma {:induction false} StatsOf(arrived: seq<Record>, sent: seq<Stats>, version: string) returns (all: seq<Stats>)
    requires multiset(arrived) == multiset(RecordsOf(sent, version))
    ensures arrived == RecordsOf(all, version) && multiset(all) == multiset(sent)
    ensures |arrived| == |sent|
    decreases |arrived|
  {
    assert |arrived| == |multiset(arrived)| == |multiset(RecordsOf(sent, version))| == |sent|;
    if arrived == [] {
      all := [];
    } else {
      var n := |arrived| - 1;
      var i := LastSent(arrived, sent, version);
      var front := StatsOf(arrived[..n], Without(sent, i), version);
      all := front + [sent[i]];
      WithoutBag(sent, i);
      RecordsSnoc(front, sent[i], version);
      assert arrived == arrived[..n] + [arrived[n]];
    }
  }

  // ----- the packets of all workers -----

  /** `rank` is None when it is missing or no integer; `stats` and its entries are None when they are no mapping. */
  datatype Packet = Packet(rank: Option<int>, stats: Option<map<string, Option<Record>>>)

  datatype Outcome = Unavailable(error: Option<Error>) | Available(merged: map<string, Record>)

  const WORKER_P1_METRICS := ["train/policy_loss", "train/kl", "train/clip_fraction", "train/importance_ratio"]

  /** The ranks are 0 .. n - 1, each once, in any order. */
  predicate Complete(ranks: seq<Option<int>>, n: int) {
    && n >= 1 && |ranks| == n
    && (forall i | 0 <= i < |ranks| :: ranks[i].Some? && 0 <= ranks[i].value < n)
    && forall i, j | 0 <= i < j < |ranks| :: ranks[i] != ranks[j]
  }

  predicate CompleteRanks(packets: seq<Packet>, n: int) {
    Complete(seq(|packets|, i requires 0 <= i < |packets| => packets[i].rank), n)
  }

  /** The records of one metric, one per packet, or the error of the first packet without one. */
  function Collect(packets: seq<Packet>, metric: string): Result<seq<Record>> {
    if packets == [] then Ok([])
    else
      var front, last := Collect(packets[..|packets| - 1], metric), packets[|packets| - 1];
      if front.Err? then front
      else if last.stats.None? || metric !in last.stats.value then Err(MissingMetric(metric))
      else if last.stats.value[metric].None? then Err(InvalidMetric(metric))
      else Ok(front.value + [last.stats.value[metric].value])
  }

  function MetricOf(packets: seq<Packet>, metric: string): Result<Record> {
    match Collect(packets, metric)
    case Err(e) => Err(e)
    case Ok(records) => MergedRecord(records)
  }

  /** The loop over the packets of one metric. */
  method CollectRecords(packets: seq<Packet>, metric: string) returns (r: Result<seq<Record>>)
    ensures r == Collect(packets, metric)
  {
    var records: seq<Record> := [];
    for i := 0 to |packets|
      invariant Collect(packets[..i], metric) == Ok(records)
    {
      assert packets[..i + 1][..i] == packets[..i];
      var row := packets[i];
      if row.stats.None? || metric !in row.stats.value {
        CollectErrorStays(packets, metric, i + 1);
        return Err(MissingMetric(metric));
      }
      if row.stats.value[metric].None? {
        CollectErrorStays(packets, metric, i + 1);
        return Err(InvalidMetric(metric));
      }
      records := records + [row.stats.value[metric].value];
    }
    assert packets[..|packets|] == packets;
    r := Ok(records);
  }

  lemma {:induction false} CollectErrorStays(packets: seq<Packet>, metric: string, i: nat)
    requires i <= |packets| && Collect(packets[..i], metric).Err?
    ensures Collect(packets, metric) == Collect(packets[..i], metric)
    decreases |packets| - i
  {
    if i < |packets| {
      assert packets[..i + 1][..i] == packets[..i];
      CollectErrorStays(packets, metric, i + 1);
    } else {
      assert packets[..i] == packets;
    }
  }

  // ----- when packets merge -----

  /** As many packets as workers, at least one, and each rank from 0 to n - 1 among them. */
  ghost predicate EveryRank(packets: seq<Packet>, n: int) {
    n >= 1 && |packets| == n && forall rank | 0 <= rank < n :: exists packet | packet in packets :: packet.rank == Some(rank)
  }

  function RanksOf(packets: seq<Packet>): (r: seq<Option<int>>)
    ensures |r| == |packets| && forall i | 0 <= i < |r| :: r[i] == packets[i].rank
  {
    seq(|packets|, i requires 0 <= i < |packets| => packets[i].rank)
  }

  ghost function Numbers(n: nat): set<Option<int>> {
    if n == 0 then {} else Numbers(n - 1) + {Some(n - 1)}
  }

  lemma {:induction false} NumbersAre(n: nat)
    ensures |Numbers(n)| == n && forall x :: x in Numbers(n) <==> x.Some? && 0 <= x.value < n
  {
    if n > 0 {
      NumbersAre(n - 1);
    }
  }

  lemma SubsetSize<T>(a: set<T>, b: set<T>)
    requires a <= b
    ensures |a| <= |b| && (|a| == |b| ==> a == b)
  {
    assert b == a + (b - a);
    assert |b| == |a| + |b - a|;
    if |a| == |b| {
      assert b - a == {};
    }
  }

  function Members<T>(xs: seq<T>): set<T> {
    set x | x in xs
  }

  lemma {:induction false} MembersSize<T>(xs: seq<T>)
    ensures |Members(xs)| <= |xs|
    ensures |Members(xs)| == |xs| <==> forall i, j | 0 <= i < j < |xs| :: xs[i] != xs[j]
  {
    if xs == [] {
      assert Members(xs) == {};
    } else {
      var n := |xs| - 1;
      MembersSize(xs[..n]);
      assert xs == xs[..n] + [xs[n]];
      assert Members(xs) == Members(xs[..n]) + {xs[n]};
      if xs[n] in xs[..n] {
        var i :| 0 <= i < n && xs[i] == xs[n];
      } else {
        assert forall i | 0 <= i < n :: xs[i] == xs[..n][i];
      }
    }
  }

  /** n different ranks below n are all of them. */
  lemma RanksMean(packets: seq<Packet>, n: int)
    ensures CompleteRanks(packets, n) <==> EveryRank(packets, n)
  {
    var ranks := RanksOf(packets);
    assert ranks == seq(|packets|, i requires 0 <= i < |packets| => packets[i].rank);
    if n >= 1 && |packets| == n {
      AllOfThem(ranks, n);
      assert forall rank :: rank in ranks <==> exists packet | packet in packets :: packet.rank == rank by {
        RanksListed(packets);
      }
    }
  }

  lemma RanksListed(packets: seq<Packet>)
    ensures forall rank :: rank in RanksOf(packets) <==> exists packet | packet in packets :: packet.rank == rank
  {
    var ranks := RanksOf(packets);
    forall rank
      ensures rank in ranks <==> exists packet | packet in packets :: packet.rank == rank
    {
      if rank in ranks {
        var i :| 0 <= i < |ranks| && ranks[i] == rank;
        assert packets[i] in packets;
      }
      if packet :| packet in packets && packet.rank == rank {
        var i :| 0 <= i < |packets| && packets[i] == packet;
        assert ranks[i] == rank;
      }
    }
  }

  lemma AllOfThem(ranks: seq<Option<int>>, n: nat)
    requires n >= 1 && |ranks| == n
    ensures Complete(ranks, n) <==> forall rank | 0 <= rank < n :: Some(rank) in ranks
  {
    NumbersAre(n);
    MembersSize(ranks);
    if Complete(ranks, n) {
      SubsetSize(Members(ranks), Numbers(n));
      forall rank | 0 <= rank < n
        ensures Some(rank) in ranks
      {
        assert Some(rank) in Members(ranks);
      }
    }
    if forall rank | 0 <= rank < n :: Some(rank) in ranks {
      assert Numbers(n) <= Members(ranks);
      SubsetSize(Numbers(n), Members(ranks));
      assert forall i | 0 <= i < n :: ranks[i] in Members(ranks);
    }
  }

  /** The packet holds a record of the metric. */
  predicate Reports(packet: Packet, metric: string) {
    packet.stats.Some? && metric in packet.stats.value && packet.stats.value[metric].Some?
  }

  /** The packet's record of the metric holds this version. */
  predicate ReportsUnder(packet: Packet, metric: string, version: string) {
    && Reports(packet, metric)
    && VERSION in packet.stats.value[metric].value && packet.stats.value[metric].value[VERSION] == StrVal(version)
  }

  ghost predicate AllUnder(packets: seq<Packet>, metric: string, version: string) {
    forall i | 0 <= i < |packets| :: ReportsUnder(packets[i], metric, version)
  }

  /** Every packet holds a readable record of the metric, and all of them hold the same version. */
  ghost predicate Mergeable(packets: seq<Packet>, metric: string) {
    && packets != []
    && (forall i | 0 <= i < |packets| :: Reports(packets[i], metric) && Readable(packets[i].stats.value[metric].value))
    && exists version :: AllUnder(packets, metric, version)
  }

  lemma {:induction false} CollectMeans(packets: seq<Packet>, metric: string)
    ensures Collect(packets, metric).Ok? <==> forall i | 0 <= i < |packets| :: Reports(packets[i], metric)
    ensures Collect(packets, metric).Ok? ==>
              && |Collect(packets, metric).value| == |packets|
              && forall i | 0 <= i < |packets| ::
                   Reports(packets[i], metric) && Collect(packets, metric).value[i] == packets[i].stats.value[metric].value
  {
    if packets != [] {
      var n := |packets| - 1;
      CollectMeans(packets[..n], metric);
      assert forall i | 0 <= i < n :: packets[..n][i] == packets[i];
    }
  }

  lemma UnderMeans(packets: seq<Packet>, metric: string, records: seq<Record>, version: string)
    requires |records| == |packets|
    requires forall i | 0 <= i < |packets| ::
               Reports(packets[i], metric) && records[i] == packets[i].stats.value[metric].value
    ensures AllHold(records, version) <==> AllUnder(packets, metric, version)
  {
    assert forall i | 0 <= i < |packets| ::
        ReportsUnder(packets[i], metric, version) <==> VERSION in records[i] && records[i][VERSION] == StrVal(version);
  }

  /** When a metric merges, and the version of the result. */
  lemma MetricMeans(packets: seq<Packet>, metric: string)
    ensures MetricOf(packets, metric).Ok? <==> Mergeable(packets, metric)
    ensures MetricOf(packets, metric).Ok? ==> MergedUnder(packets, metric, MetricOf(packets, metric).value)
  {
    CollectMeans(packets, metric);
    if Collect(packets, metric).Ok? {
      var records := Collect(packets, metric).value;
      MergedMeans(records);
      if version :| AllHold(records, version) {
        UnderMeans(packets, metric, records, version);
      }
      if version :| AllUnder(packets, metric, version) {
        UnderMeans(packets, metric, records, version);
      }
      if MetricOf(packets, metric).Ok? {
        UnderMeans(packets, metric, records, records[0][VERSION].s);
      }
    }
  }

  /** The merged record holds the version that all packets hold. */
  ghost predicate MergedUnder(packets: seq<Packet>, metric: string, record: Record) {
    && VERSION in record && record[VERSION].StrVal? && record[VERSION].s != ""
    && AllUnder(packets, metric, record[VERSION].s)
  }

  /** `merge_worker_p1_packets`: fail-closed.  A missing, extra or duplicated rank makes everything unavailable
      without an error of its own; otherwise one metric that does not collect or merge does; otherwise every
      metric is there. */
  method MergeWorkerP1Packets(packets: seq<Packet>, expectedWorkerCount: int) returns (r: Outcome)
    ensures r == Unavailable(None) <==> !CompleteRanks(packets, expectedWorkerCount)
    ensures CompleteRanks(packets, expectedWorkerCount) ==>
              (r.Available? <==> forall metric | metric in WORKER_P1_METRICS :: MetricOf(packets, metric).Ok?)
    ensures r.Available? ==>
              && (forall metric :: metric in r.merged <==> metric in WORKER_P1_METRICS)
              && forall metric | metric in WORKER_P1_METRICS :: Ok(r.merged[metric]) == MetricOf(packets, metric)
    ensures r == Unavailable(None) <==> !EveryRank(packets, expectedWorkerCount)
    ensures r.Available? <==>
              && EveryRank(packets, expectedWorkerCount)
              && forall metric | metric in WORKER_P1_METRICS :: Mergeable(packets, metric)
    ensures r.Available? ==>
              forall metric | metric in WORKER_P1_METRICS :: MergedUnder(packets, metric, r.merged[metric])
  {
    RanksMean(packets, expectedWorkerCount);
    forall metric: string
      ensures MetricOf(packets, metric).Ok? <==> Mergeable(packets, metric)
      ensures MetricOf(packets, metric).Ok? ==> MergedUnder(packets, metric, MetricOf(packets, metric).value)
    {
      MetricMeans(packets, metric);
    }
    if !CompleteRanks(packets, expectedWorkerCount) {
      return Unavailable(None);
    }
    var merged: map<string, Record> := map[];
    for m := 0 to |WORKER_P1_METRICS|
      invariant forall metric :: metric in merged <==> metric in WORKER_P1_METRICS[..m]
      invariant forall metric | metric in merged :: Ok(merged[metric]) == MetricOf(packets, metric)
    {
      var metric := WORKER_P1_METRICS[m];
      var records := CollectRecords(packets, metric);
      if records.Err? {
        assert metric in WORKER_P1_METRICS && MetricOf(packets, metric).Err?;
        return Unavailable(Some(records.error));
      }
      var record := MergeSerialized(records.value);
      if record.Err? {
        assert metric in WORKER_P1_METRICS && MetricOf(packets, metric).Err?;
        return Unavailable(Some(record.error));
      }
      merged := merged[metric := record.value];
    }
    assert WORKER_P1_METRICS[..|WORKER_P1_METRICS|] == WORKER_P1_METRICS;
    r := Available(merged);
  }

  /** Packet i comes from worker `from[i]` and carries the statistics of that worker's values. */
  ghost predicate Sent(packets: seq<Packet>, from: seq<nat>, metric: string, parts: seq<seq<Sample>>, version: string) {
    && |from| == |packets| && multiset(from) == multiset(Iota(|parts|))
    && forall i | 0 <= i < |packets| ::
         && from[i] < |parts| && packets[i].stats.Some? && metric in packets[i].stats.value
         && packets[i].stats.value[metric] == Some(ToRecord(Of(parts[from[i]]), version))
  }

  lemma {:induction false} CollectSent(packets: seq<Packet>, metric: string, records: seq<Record>)
    requires |records| == |packets|
    requires forall i | 0 <= i < |packets| ::
               && packets[i].stats.Some? && metric in packets[i].stats.value
               && packets[i].stats.value[metric] == Some(records[i])
    ensures Collect(packets, metric) == Ok(records)
  {
    if packets != [] {
      var n := |packets| - 1;
      CollectSent(packets[..n], metric, records[..n]);
      assert records == records[..n] + [records[n]];
    }
  }

  lemma LastIn(index: seq<nat>, order: seq<nat>) returns (i: nat)
    requires index != [] && multiset(index) == multiset(order)
    ensures i < |order| && order[i] == index[|index| - 1]
    ensures multiset(index[..|index| - 1]) == multiset(Without(order, i))
  {
    var n := |index| - 1;
    assert index == index[..n] + [index[n]];
    assert index[n] in multiset(order);
    i :| 0 <= i < |order| && order[i] == index[n];
    WithoutBag(order, i);
    assert multiset(index[..n]) == multiset(index) - multiset{index[n]};
    assert multiset(Without(order, i)) == multiset(order) - multiset{index[n]};
  }

  lemma {:induction false} GatherBag<T>(xs: seq<T>, index: seq<nat>, order: seq<nat>)
    requires Within(index, |xs|) && Within(order, |xs|) && multiset(index) == multiset(order)
    ensures multiset(Gather(xs, index)) == multiset(Gather(xs, order))
    decreases |index|
  {
    assert |index| == |multiset(index)| == |multiset(order)| == |order|;
    if index == [] {
    } else {
      var i := LastIn(index, order);
      GatherBag(xs, index[..|index| - 1], Without(order, i));
      GatherLast(xs, index);
      GatherWithout(xs, order, i);
    }
  }

  lemma GatherLast<T>(xs: seq<T>, index: seq<nat>)
    requires Within(index, |xs|) && index != []
    ensures multiset(Gather(xs, index)) == multiset(Gather(xs, index[..|index| - 1])) + multiset{xs[index[|index| - 1]]}
  {
    var n := |index| - 1;
    assert Gather(xs, index) == Gather(xs, index[..n]) + [xs[index[n]]];
  }

  lemma GatherWithout<T>(xs: seq<T>, order: seq<nat>, i: nat)
    requires Within(order, |xs|) && i < |order|
    ensures multiset(Gather(xs, order)) == multiset(Gather(xs, Without(order, i))) + multiset{xs[order[i]]}
  {
    assert Gather(xs, Without(order, i)) == Without(Gather(xs, order), i);
    WithoutBag(Gather(xs, order), i);
  }

  /** For every metric, whatever the order of the packets, the coordinator gets the statistics of all workers'
      values together. */
  lemma PacketsMergeGlobally(packets: seq<Packet>, from: seq<nat>, metric: string, parts: seq<seq<Sample>>,
                             version: string)
    requires parts != [] && version != "" && Sent(packets, from, metric, parts, version)
    ensures MetricOf(packets, metric) == Ok(ToRecord(Of(Flatten(parts)), version))
  {
    var records := RecordsOf(OfAll(parts), version);
    CollectSent(packets, metric, Gather(records, from));
    GatherBag(records, from, Iota(|parts|));
    assert Gather(records, Iota(|parts|)) == records;
    SerializedMergeIsGlobal(parts, version, Gather(records, from));
  }
}
