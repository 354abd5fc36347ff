/** The administrator's endpoints: the dashboard statistics, the data
    health check, configuration validation and the manual cleanup. Every
    endpoint reads the listing collection `rs` as it stands. */
module AdminRoutes {
  import opened Common
  import opened Sorting
  import opened Grouping
  import opened CarSchema
  import MongoStore
  import FileStorage
  import ProfitCalculator

  // ---------------------------------------------------------------------
  // Dashboard: counts.

  /** `createdAt: {$gte: since}`. */
  predicate CreatedSince(c: Car, since: int) {
    c.createdAt.Some? && c.createdAt.value >= since
  }

  function CreatedSinceAt(since: int): Car -> bool {
    c => CreatedSince(c, since)
  }

  datatype Overview = Overview(totalCars: nat, profitableCars: nat, highProfitCars: nat,
                               carsLast24h: nat, carsLast7d: nat, profitablePercentage: real)

  /** `total > 0 ? profitable / total * 100 : 0` (before `toFixed(1)`). */
  function ProfitablePercentage(profitable: nat, total: nat): (p: real)
    requires profitable <= total
    ensures 0.0 <= p <= 100.0
    ensures p == 0.0 <==> profitable == 0
    ensures total > 0 ==> (p == 100.0 <==> profitable == total)
    ensures total > 0 ==> p * total as real == 100.0 * profitable as real
  {
    if total > 0 then
      var q := profitable as real / total as real;
      assert q * total as real == profitable as real;
      MulLe(q, 1.0, total as real);
      q * 100.0
    else 0.0
  }

  /** The dashboard's counts over the active listings. */
  function GetOverview(rs: seq<Record>, now: int): (o: Overview)
    ensures o.totalCars == Count(rs, IsActive)
    ensures o.profitableCars == |Where(Where(rs, IsActive), FileStorage.Profitable)|
    ensures o.highProfitCars == |Where(Where(rs, IsActive), FileStorage.HighProfit)|
    ensures o.profitableCars <= o.totalCars && o.highProfitCars <= o.totalCars
    ensures o.carsLast24h == Count(Where(rs, IsActive), CreatedSinceAt(now - DayMs))
    ensures o.carsLast7d == Count(Where(rs, IsActive), CreatedSinceAt(now - 7 * DayMs))
    ensures o.carsLast24h <= o.carsLast7d <= o.totalCars
    ensures o.profitablePercentage == ProfitablePercentage(o.profitableCars, o.totalCars)
    ensures 0.0 <= o.profitablePercentage <= 100.0
    ensures o.profitablePercentage == 0.0 <==> o.profitableCars == 0
  {
    var active := Where(rs, IsActive);
    CountIsWhereLength(rs, IsActive);
    CountIsWhereLength(active, CreatedSinceAt(now - DayMs));
    CountIsWhereLength(active, CreatedSinceAt(now - 7 * DayMs));
    var profitable := |Where(active, FileStorage.Profitable)|;
    var last24h := Where(active, CreatedSinceAt(now - DayMs));
    var last7d := Where(active, CreatedSinceAt(now - 7 * DayMs));
    WhereMonotone(active, CreatedSinceAt(now - DayMs), CreatedSinceAt(now - 7 * DayMs));
    Overview(|active|, profitable, |Where(active, FileStorage.HighProfit)|,
             |last24h|, |last7d|, ProfitablePercentage(profitable, |active|))
  }

  // ---------------------------------------------------------------------
  // Dashboard: profit statistics.

  /** The `$group` of the profitable listings, or all zeros when there is
      none. `avgScore` is `None` (null) when no listing in the group has a
      score. */
  datatype ProfitStats = ProfitStats(avgProfit: real, maxProfit: real, totalProfit: real, avgScore: Option<real>)

  const NoProfitStats: ProfitStats := ProfitStats(0.0, 0.0, 0.0, Some(0.0))

  function MaxProfit(rs: seq<Record>): (m: real)
    requires |rs| > 0
    ensures forall i :: 0 <= i < |rs| ==> FileStorage.RealOr0(rs[i].car.estimatedProfit) <= m
    ensures exists i :: 0 <= i < |rs| && FileStorage.RealOr0(rs[i].car.estimatedProfit) == m
  {
    var here := FileStorage.RealOr0(rs[0].car.estimatedProfit);
    if |rs| == 1 then here
    else
      var rest := MaxProfit(rs[1..]);
      assert forall i :: 1 <= i < |rs| ==> rs[i] == rs[1..][i - 1];
      if here >= rest then here else rest
  }

  /** No sum exceeds its count times its largest term. */
  lemma {:induction false} SumAtMostMax(rs: seq<Record>, m: real)
    requires forall i :: 0 <= i < |rs| ==> FileStorage.RealOr0(rs[i].car.estimatedProfit) <= m
    ensures FileStorage.SumProfit(rs) <= |rs| as real * m
  {
    if |rs| > 0 {
      assert forall i :: 0 <= i < |rs| - 1 ==> rs[1..][i] == rs[i + 1];
      SumAtMostMax(rs[1..], m);
    }
  }

  /** The scores present, in order. */
  function ScoresOf(rs: seq<Record>): (ss: seq<int>)
    ensures |ss| <= |rs|
  {
    if |rs| == 0 then []
    else (if rs[0].car.profitabilityScore.Some? then [rs[0].car.profitabilityScore.value] else []) + ScoresOf(rs[1..])
  }

  function SumInts(ss: seq<int>): int {
    if |ss| == 0 then 0 else ss[0] + SumInts(ss[1..])
  }

  /** `$avg` of a field: the mean of the values present, null when none is. */
  function AverageScore(rs: seq<Record>): (a: Option<real>)
    ensures a.None? <==> forall i :: 0 <= i < |rs| ==> rs[i].car.profitabilityScore.None?
    ensures a.Some? ==> a.value * |ScoresOf(rs)| as real == SumInts(ScoresOf(rs)) as real
  {
    var ss := ScoresOf(rs);
    ScoresPresent(rs);
    if |ss| == 0 then None else Some(Mean(SumInts(ss) as real, |ss|))
  }

  lemma {:induction false} ScoresPresent(rs: seq<Record>)
    ensures |ScoresOf(rs)| == 0 <==> forall i :: 0 <= i < |rs| ==> rs[i].car.profitabilityScore.None?
  {
    if |rs| > 0 {
      ScoresPresent(rs[1..]);
      assert forall i :: 1 <= i < |rs| ==> rs[i] == rs[1..][i - 1];
    }
  }

  /** The profit statistics of the active profitable listings. */
  function GetProfitStats(rs: seq<Record>): (s: ProfitStats)
    ensures DescribesProfits(Where(Where(rs, IsActive), FileStorage.Profitable), s)
  {
    var g := Where(Where(rs, IsActive), FileStorage.Profitable);
    if |g| == 0 then NoProfitStats else StatsDescribeProfits(g); GroupStats(g)
  }

  /** `s` is all zeros exactly when the group is empty; otherwise its total
      is the sum of the group's profits, its average is the total over the
      group's size, positive and at most its maximum, and the maximum is
      some listing's profit, and its score average is the group's. */
  ghost predicate DescribesProfits(g: seq<Record>, s: ProfitStats) {
    && (s == NoProfitStats <==> |g| == 0)
    && (|g| > 0 ==>
          && s.totalProfit == FileStorage.SumProfit(g)
          && s.avgProfit == s.totalProfit / |g| as real
          && 0.0 < s.avgProfit <= s.maxProfit
          && (exists i :: 0 <= i < |g| && g[i].car.estimatedProfit == Some(s.maxProfit))
          && s.avgScore == AverageScore(g))
  }

  lemma StatsDescribeProfits(g: seq<Record>)
    requires |g| > 0 && forall i :: 0 <= i < |g| ==> FileStorage.Profitable(g[i].car)
    ensures DescribesProfits(g, GroupStats(g))
  {
    GroupStatsBounds(g);
    assert GroupStats(g).avgProfit > 0.0;
  }

  /** `$avg`, `$max` and `$sum` of the profit over a non-empty group of
      profitable listings, and `$avg` of their scores. */
  function GroupStats(g: seq<Record>): (s: ProfitStats)
    requires |g| > 0
    ensures s.totalProfit == FileStorage.SumProfit(g)
    ensures s.avgProfit == s.totalProfit / |g| as real
    ensures s.avgScore == AverageScore(g)
  {
    var total := FileStorage.SumProfit(g);
    ProfitStats(Mean(total, |g|), MaxProfit(g), total, AverageScore(g))
  }

  /** The mean profit of a profitable group is positive and at most its
      largest profit, which some listing of the group has. */
  lemma GroupStatsBounds(g: seq<Record>)
    requires |g| > 0 && forall i :: 0 <= i < |g| ==> FileStorage.Profitable(g[i].car)
    ensures 0.0 < GroupStats(g).avgProfit <= GroupStats(g).maxProfit
    ensures exists i :: 0 <= i < |g| && g[i].car.estimatedProfit == Some(GroupStats(g).maxProfit)
  {
    var max := MaxProfit(g);
    var total := FileStorage.SumProfit(g);
    ProfitSumBounds(g, total, max);
    MeanBetween(total, |g|, max);
    MaxAttained(g, max);
  }

  lemma MaxAttained(g: seq<Record>, max: real)
    requires |g| > 0 && forall i :: 0 <= i < |g| ==> FileStorage.Profitable(g[i].car)
    requires max == MaxProfit(g)
    ensures exists i :: 0 <= i < |g| && g[i].car.estimatedProfit == Some(max)
  {
    var i :| 0 <= i < |g| && FileStorage.RealOr0(g[i].car.estimatedProfit) == max;
    assert FileStorage.Profitable(g[i].car);
  }

  /** The profits of a profitable group add up to something positive and
      at most the group's size times its largest profit. */
  lemma ProfitSumBounds(g: seq<Record>, total: real, max: real)
    requires |g| > 0 && forall i :: 0 <= i < |g| ==> FileStorage.Profitable(g[i].car)
    requires total == FileStorage.SumProfit(g) && max == MaxProfit(g)
    ensures 0.0 < total <= |g| as real * max
  {
    SumAtMostMax(g, max);
    FileStorage.SumProfitPositive(g);
  }

  /** A mean of positive terms is positive and at most the largest term. */
  lemma MeanBetween(total: real, n: nat, max: real)
    requires n > 0 && 0.0 < total <= n as real * max
    ensures 0.0 < Mean(total, n) <= max
  {
    var m := Mean(total, n);
    if m > max {
      MulStrict(max, m, n as real);
    }
    if m <= 0.0 {
      MulLe(m, 0.0, n as real);
    }
  }

  // ---------------------------------------------------------------------
  // Dashboard: rankings.

  /** `$group: {_id: '$make'}` then the ten largest groups: listings
      without a make form one group. */
  function TopMakes(rs: seq<Record>): (top: seq<Group<Option<string>>>)
    ensures MostFrequentOf(MakeKeys(Where(rs, IsActive)), 10, top)
  {
    MostFrequent(MakeKeys(Where(rs, IsActive)), 10)
  }

  function MakeKeys(rs: seq<Record>): (ks: seq<Option<string>>)
    ensures |ks| == |rs|
    ensures forall i :: 0 <= i < |rs| ==> ks[i] == rs[i].car.make
  {
    seq(|rs|, i requires 0 <= i < |rs| => rs[i].car.make)
  }

  /** The score as the store sorts it: a missing score below every number. */
  function ScoreKey(r: Record): SortKey {
    if r.car.profitabilityScore.Some? then Value(r.car.profitabilityScore.value as real) else Missing
  }

  predicate ActiveProfitable(c: Car) {
    IsActive(c) && FileStorage.Profitable(c)
  }

  /** The ten active profitable listings with the highest scores. */
  function TopProfitable(rs: seq<Record>): (top: seq<Record>)
    ensures |top| == Min(10.0, Count(rs, ActiveProfitable) as real) as int
    ensures forall i :: 0 <= i < |top| ==> top[i] in rs && ActiveProfitable(top[i].car)
    ensures forall i, j :: 0 <= i < j < |top| ==> KeyLe(ScoreKey(top[j]), ScoreKey(top[i]))
    ensures forall x :: x in Where(rs, ActiveProfitable) && x !in top ==>
      forall i :: 0 <= i < |top| ==> KeyLe(ScoreKey(x), ScoreKey(top[i]))
  {
    CountIsWhereLength(rs, ActiveProfitable);
    MongoStore.FindSorted(rs, ActiveProfitable, ScoreKey, false, 10)
  }

  // ---------------------------------------------------------------------
  // Dashboard: the score distribution.

  /** A `$bucket` bucket, named by its lower boundary, or the default
      bucket `'other'`. */
  datatype BucketId = Bucket(lower: int) | Other

  /** The buckets in the order the aggregation reports them. */
  const BucketIds: seq<BucketId> := [Bucket(0), Bucket(20), Bucket(40), Bucket(60), Bucket(80), Other]

  /** The bucket of a score under boundaries `[0, 20, 40, 60, 80, 100]` as
      written: each bucket holds its lower boundary but not its upper one,
      so a score of 100 is past the last bucket. A missing score also goes
      to the default bucket. */
  function BucketOfAsWritten(score: Option<int>): (b: BucketId)
    ensures b.Bucket? ==> score.Some? && b.lower <= score.value < b.lower + 20
    ensures b == Other <==> score.None? || score.value < 0 || score.value >= 100
    ensures b in BucketIds
  {
    if score.Some? && 0 <= score.value < 100 then Bucket(score.value / 20 * 20) else Other
  }

  /** The bucket of a score with the last bucket closed at 100, so that
      every score the calculator can give is bucketed. */
  function BucketOf(score: Option<int>): (b: BucketId)
    ensures b.Bucket? ==> score.Some? && b.lower <= score.value <= b.lower + 20
    ensures b == Other <==> score.None? || score.value < 0 || score.value > 100
    ensures b in BucketIds
  {
    if score.Some? && score.value == 100 then Bucket(80) else BucketOfAsWritten(score)
  }

  /** One bucket of the output and how many listings fell in it. */
  datatype BucketCount = BucketCount(id: BucketId, count: nat)

  /** The buckets of `ids` that hold something, in the order of `bs`. */
  function NonEmpty(bs: seq<BucketId>, ids: seq<BucketId>): (r: seq<BucketCount>)
    ensures forall i :: 0 <= i < |r| ==> r[i].count > 0 && r[i].count == Occurrences(ids, r[i].id) && r[i].id in bs
  {
    if |bs| == 0 then []
    else
      var n := Occurrences(ids, bs[0]);
      (if n > 0 then [BucketCount(bs[0], n)] else []) + NonEmpty(bs[1..], ids)
  }

  function ScoreBuckets(rs: seq<Record>, closed: bool): (ids: seq<BucketId>)
    ensures |ids| == |rs|
  {
    seq(|rs|, i requires 0 <= i < |rs| =>
      if closed then BucketOf(rs[i].car.profitabilityScore) else BucketOfAsWritten(rs[i].car.profitabilityScore))
  }

  /** The score distribution of the active listings as written. */
  function DistributionAsWritten(rs: seq<Record>): (d: seq<BucketCount>)
    ensures forall i :: 0 <= i < |d| ==> d[i].count > 0 && d[i].id in BucketIds
    ensures forall i :: 0 <= i < |d| ==> d[i].count == Occurrences(ScoreBuckets(Where(rs, IsActive), false), d[i].id)
    ensures TotalCount(d) == Count(rs, IsActive)
  {
    var ids := ScoreBuckets(Where(rs, IsActive), false);
    CountIsWhereLength(rs, IsActive);
    assert forall i :: 0 <= i < |ids| ==> ids[i] in BucketIds;
    BucketsPartition(ids);
    NonEmpty(BucketIds, ids)
  }

  /** The score distribution of the active listings, with every score from
      0 to 100 in a numbered bucket. */
  function Distribution(rs: seq<Record>): (d: seq<BucketCount>)
    ensures forall i :: 0 <= i < |d| ==> d[i].count > 0 && d[i].id in BucketIds
    ensures forall i :: 0 <= i < |d| ==> d[i].count == Occurrences(ScoreBuckets(Where(rs, IsActive), true), d[i].id)
    ensures TotalCount(d) == Count(rs, IsActive)
  {
    var ids := ScoreBuckets(Where(rs, IsActive), true);
    CountIsWhereLength(rs, IsActive);
    assert forall i :: 0 <= i < |ids| ==> ids[i] in BucketIds;
    BucketsPartition(ids);
    NonEmpty(BucketIds, ids)
  }

  function TotalCount(d: seq<BucketCount>): nat {
    if |d| == 0 then 0 else d[0].count + TotalCount(d[1..])
  }

  /** How many listings the buckets `bs` hold between them. */
  function SumOccurrences(ids: seq<BucketId>, bs: seq<BucketId>): nat {
    if |bs| == 0 then 0 else Occurrences(ids, bs[0]) + SumOccurrences(ids, bs[1..])
  }

  lemma {:induction false} NonEmptyTotal(bs: seq<BucketId>, ids: seq<BucketId>)
    ensures TotalCount(NonEmpty(bs, ids)) == SumOccurrences(ids, bs)
  {
    if |bs| > 0 {
      NonEmptyTotal(bs[1..], ids);
      var n := Occurrences(ids, bs[0]);
      var rest := NonEmpty(bs[1..], ids);
      if n > 0 {
        assert NonEmpty(bs, ids) == [BucketCount(bs[0], n)] + rest;
        assert ([BucketCount(bs[0], n)] + rest)[1..] == rest;
      } else {
        assert NonEmpty(bs, ids) == rest;
      }
    }
  }

  /** Adding one listing adds one to the bucket it falls in. */
  lemma {:induction false} SumOccurrencesSnoc(ids: seq<BucketId>, x: BucketId, bs: seq<BucketId>)
    ensures SumOccurrences(ids + [x], bs) == SumOccurrences(ids, bs) + Multiplicity(x, bs)
  {
    if |bs| > 0 {
      SumOccurrencesSnoc(ids, x, bs[1..]);
      assert (ids + [x])[..|ids + [x]| - 1] == ids;
    }
  }

  function Multiplicity(x: BucketId, bs: seq<BucketId>): nat {
    if |bs| == 0 then 0 else (if bs[0] == x then 1 else 0) + Multiplicity(x, bs[1..])
  }

  predicate Distinct(bs: seq<BucketId>) {
    forall i, j :: 0 <= i < j < |bs| ==> bs[i] != bs[j]
  }

  /** A bucket listed once is counted once. */
  lemma {:induction false} MultiplicityOfDistinct(x: BucketId, bs: seq<BucketId>)
    requires Distinct(bs)
    ensures Multiplicity(x, bs) == if x in bs then 1 else 0
  {
    if |bs| > 0 {
      assert Distinct(bs[1..]);
      MultiplicityOfDistinct(x, bs[1..]);
      if bs[0] == x {
        assert x !in bs[1..];
      }
    }
  }

  /** A single listing gives a single bucket holding it. */
  lemma {:induction false} SingleListing(bs: seq<BucketId>, x: BucketId)
    requires Distinct(bs)
    ensures NonEmpty(bs, [x]) == if x in bs then [BucketCount(x, 1)] else []
  {
    if |bs| > 0 {
      assert [x][..0] == [];
      assert Occurrences([x], bs[0]) == if bs[0] == x then 1 else 0;
      assert Distinct(bs[1..]);
      SingleListing(bs[1..], x);
      if bs[0] == x {
        assert x !in bs[1..];
      }
    }
  }

  lemma {:induction false} NoListings(bs: seq<BucketId>)
    ensures SumOccurrences([], bs) == 0
  {
    if |bs| > 0 {
      NoListings(bs[1..]);
    }
  }

  /** Every listing lands in exactly one of the reported buckets, so the
      counts add up to the number of listings. */
  lemma {:induction false} BucketsPartition(ids: seq<BucketId>)
    requires forall i :: 0 <= i < |ids| ==> ids[i] in BucketIds
    ensures TotalCount(NonEmpty(BucketIds, ids)) == |ids|
  {
    NonEmptyTotal(BucketIds, ids);
    SumAllBuckets(ids);
  }

  lemma {:induction false} SumAllBuckets(ids: seq<BucketId>)
    requires forall i :: 0 <= i < |ids| ==> ids[i] in BucketIds
    ensures SumOccurrences(ids, BucketIds) == |ids|
  {
    if |ids| == 0 {
      NoListings(BucketIds);
    } else {
      var p := ids[..|ids| - 1];
      var x := ids[|ids| - 1];
      assert ids == p + [x];
      SumAllBuckets(p);
      SumOccurrencesSnoc(p, x, BucketIds);
      assert Distinct(BucketIds);
      MultiplicityOfDistinct(x, BucketIds);
    }
  }

  /** As written, a listing with a perfect score, which the calculator
      does give, is reported under `'other'` and not in the top bucket. */
  lemma PerfectScoreUnbucketedAsWritten(r: Record)
    requires IsActive(r.car) && r.car.profitabilityScore == Some(100)
    ensures ProfitCalculator.CalculateProfitabilityScore(
      ProfitCalculator.Metrics(Finite(30.0), 5000.0, Finite(50.0), 5, Some(50000))) == 100
    ensures DistributionAsWritten([r]) == [BucketCount(Other, 1)]
    ensures Distribution([r]) == [BucketCount(Bucket(80), 1)]
  {
    assert Where([r], IsActive) == [r];
    assert ScoreBuckets([r], false) == [Other];
    assert ScoreBuckets([r], true) == [Bucket(80)];
    SingleListing(BucketIds, Other);
    SingleListing(BucketIds, Bucket(80));
  }

  /** A missing score or one outside 0 to 100. */
  predicate Unscored(c: Car) {
    c.profitabilityScore.None? || c.profitabilityScore.value < 0 || c.profitabilityScore.value > 100
  }

  /** With the closed top bucket, the default bucket is reported only for
      active listings without a score in 0 to 100. */
  lemma OtherOnlyUnscored(rs: seq<Record>)
    ensures forall i :: 0 <= i < |Distribution(rs)| && Distribution(rs)[i].id == Other ==>
      exists k :: 0 <= k < |Where(rs, IsActive)| && Unscored(Where(rs, IsActive)[k].car)
  {
    var act := Where(rs, IsActive);
    var ids := ScoreBuckets(act, true);
    var d := Distribution(rs);
    forall i | 0 <= i < |d| && d[i].id == Other
      ensures exists k :: 0 <= k < |act| && Unscored(act[k].car)
    {
      assert Occurrences(ids, Other) > 0;
      OccursIffIn(ids, Other);
      var k :| 0 <= k < |ids| && ids[k] == Other;
      assert BucketOf(act[k].car.profitabilityScore) == Other;
      assert Unscored(act[k].car);
    }
    assert d == Distribution(rs) && act == Where(rs, IsActive);
  }

  /** As written, the default bucket is reported only for active listings
      without a score in 0 to 99. */
  lemma OtherOnlyUnbucketedAsWritten(rs: seq<Record>)
    ensures forall i :: 0 <= i < |DistributionAsWritten(rs)| && DistributionAsWritten(rs)[i].id == Other ==>
      exists k :: 0 <= k < |Where(rs, IsActive)| && (Unscored(Where(rs, IsActive)[k].car) ||
        Where(rs, IsActive)[k].car.profitabilityScore == Some(100))
  {
    var act := Where(rs, IsActive);
    var ids := ScoreBuckets(act, false);
    var d := DistributionAsWritten(rs);
    forall i | 0 <= i < |d| && d[i].id == Other
      ensures exists k :: 0 <= k < |act| && (Unscored(act[k].car) || act[k].car.profitabilityScore == Some(100))
    {
      assert Occurrences(ids, Other) > 0;
      OccursIffIn(ids, Other);
      var k :| 0 <= k < |ids| && ids[k] == Other;
      assert BucketOfAsWritten(act[k].car.profitabilityScore) == Other;
    }
    assert d == DistributionAsWritten(rs) && act == Where(rs, IsActive);
  }

  // ---------------------------------------------------------------------
  // Health check.

  /** `{isActive: true, africaResaleValue: {$exists: false}}`. */
  predicate MissingResale(c: Car) {
    IsActive(c) && c.africaResaleValue.None?
  }

  /** Active, with the profit or the score missing. */
  predicate InvalidProfit(c: Car) {
    IsActive(c) && (c.estimatedProfit.None? || c.profitabilityScore.None?)
  }

  /** `100 - 0.1 stale - 0.2 missing - 0.3 invalid`, not yet clamped. */
  function HealthScore(stale: nat, missing: nat, invalid: nat): (h: real)
    ensures h <= 100.0
    ensures h == 100.0 <==> stale == 0 && missing == 0 && invalid == 0
    ensures h * 10.0 == 1000.0 - (stale + 2 * missing + 3 * invalid) as real
  {
    100.0 - stale as real * 0.1 - missing as real * 0.2 - invalid as real * 0.3
  }

  datatype HealthStatus = Healthy | Warning | Critical

  /** The status, classified on the unclamped score. */
  function StatusOf(h: real): HealthStatus {
    if h >= 80.0 then Healthy else if h >= 60.0 then Warning else Critical
  }

  function Clamp(h: real): (r: real)
    ensures 0.0 <= r <= 100.0
    ensures 0.0 <= h <= 100.0 ==> r == h
    ensures h < 0.0 ==> r == 0.0
    ensures h > 100.0 ==> r == 100.0
  {
    Max(0.0, Min(100.0, h))
  }

  const StaleAdvice: string := "Run data update process"
  const ResaleAdvice: string := "Check resale data scraping"
  const ProfitAdvice: string := "Recalculate profit metrics"

  /** The advice for each count above its threshold, in a fixed order. */
  function Recommendations(stale: nat, missing: nat, invalid: nat): (rs: seq<string>)
    ensures |rs| <= 3
    ensures StaleAdvice in rs <==> stale > 100
    ensures ResaleAdvice in rs <==> missing > 50
    ensures ProfitAdvice in rs <==> invalid > 20
    ensures stale > 100 ==> rs[0] == StaleAdvice
    ensures invalid > 20 ==> rs[|rs| - 1] == ProfitAdvice
  {
    (if stale > 100 then [StaleAdvice] else [])
      + (if missing > 50 then [ResaleAdvice] else [])
      + (if invalid > 20 then [ProfitAdvice] else [])
  }

  /** The driver's connection states by name. */
  function DatabaseStatus(readyState: int): (s: string)
    ensures s == "connected" <==> readyState == 1
    ensures s == "unknown" <==> readyState < 0 || readyState > 3
  {
    if readyState == 0 then "disconnected"
    else if readyState == 1 then "connected"
    else if readyState == 2 then "connecting"
    else if readyState == 3 then "disconnecting"
    else "unknown"
  }

  datatype Health = Health(status: HealthStatus, healthScore: real,
                           staleCars: nat, missingResaleData: nat, invalidProfits: nat,
                           databaseStatus: string, connected: bool, recommendations: seq<string>)

  /** `GET /health`. */
  function CheckHealth(rs: seq<Record>, now: int, readyState: int): (h: Health)
    ensures h.staleCars == Count(rs, StaleFor(now, 1))
    ensures h.missingResaleData == Count(rs, MissingResale)
    ensures h.invalidProfits == Count(rs, InvalidProfit)
    ensures 0.0 <= h.healthScore <= 100.0
    ensures h.status == Healthy <==> h.staleCars + 2 * h.missingResaleData + 3 * h.invalidProfits <= 200
    ensures h.status == Critical <==> h.staleCars + 2 * h.missingResaleData + 3 * h.invalidProfits > 400
    ensures h.connected <==> readyState == 1
  {
    var stale := Count(rs, StaleFor(now, 1));
    var missing := Count(rs, MissingResale);
    var invalid := Count(rs, InvalidProfit);
    var score := HealthScore(stale, missing, invalid);
    Health(StatusOf(score), Clamp(score), stale, missing, invalid,
           DatabaseStatus(readyState), readyState == 1, Recommendations(stale, missing, invalid))
  }

  /** The reported (clamped) score tells the status: healthy from 80,
      warning from 60, critical below. */
  lemma ReportedScoreMatchesStatus(rs: seq<Record>, now: int, readyState: int)
    ensures var h := CheckHealth(rs, now, readyState);
      && (h.status == Healthy <==> h.healthScore >= 80.0)
      && (h.status == Warning <==> 60.0 <= h.healthScore < 80.0)
      && (h.status == Critical <==> h.healthScore < 60.0)
  {
  }

  function Rank(s: HealthStatus): nat {
    match s
    case Healthy => 0
    case Warning => 1
    case Critical => 2
  }

  /** More stale, unvalued or unscored listings never improve the status. */
  lemma StatusMonotone(s1: nat, m1: nat, i1: nat, s2: nat, m2: nat, i2: nat)
    requires s1 <= s2 && m1 <= m2 && i1 <= i2
    ensures Rank(StatusOf(HealthScore(s1, m1, i1))) <= Rank(StatusOf(HealthScore(s2, m2, i2)))
  {
  }

  // ---------------------------------------------------------------------
  // Configuration.

  /** A value in a request body, as far as validation looks at it. */
  datatype JsonValue = Undefined | Null | Number(n: real) | Text(s: string) | Flag(b: bool) | Compound

  predicate JsonTruthy(v: JsonValue) {
    match v
    case Undefined => false
    case Null => false
    case Number(n) => n != 0.0
    case Text(s) => |s| > 0
    case Flag(b) => b
    case Compound => true
  }

  /** The fields of `costParameters` and `exchangeRates` the route looks at;
      a section that is absent or falsy is `None`. */
  datatype ConfigBody = ConfigBody(costParameters: Option<map<string, JsonValue>>,
                                   exchangeRates: Option<map<string, JsonValue>>)

  datatype ConfigResult = Accepted | BadRequest(error: string)

  const CheckedCostFields: seq<string> := ["shippingPerCar", "customsDutyRate", "vatRate"]

  function Field(m: map<string, JsonValue>, k: string): JsonValue {
    if k in m then m[k] else Undefined
  }

  /** A cost field passes when it is absent or a number. */
  predicate CostFieldOk(m: map<string, JsonValue>, k: string) {
    Field(m, k).Undefined? || Field(m, k).Number?
  }

  /** The first checked cost field that fails, in the order checked. */
  function FirstBadCostField(m: map<string, JsonValue>, fields: seq<string>): (r: Option<string>)
    ensures r.None? <==> forall i :: 0 <= i < |fields| ==> CostFieldOk(m, fields[i])
    ensures r.Some? ==> r.value in fields && !CostFieldOk(m, r.value)
  {
    if |fields| == 0 then None
    else if !CostFieldOk(m, fields[0]) then Some(fields[0])
    else
      var rest := FirstBadCostField(m, fields[1..]);
      assert forall i :: 1 <= i < |fields| ==> fields[i] == fields[1..][i - 1];
      rest
  }

  /** `PUT /config`: validation only; nothing is stored. */
  function ValidateConfig(body: ConfigBody): (r: ConfigResult)
    ensures r == Accepted <==>
      && (body.costParameters.Some? ==> forall i :: 0 <= i < |CheckedCostFields| ==> CostFieldOk(body.costParameters.value, CheckedCostFields[i]))
      && (body.exchangeRates.Some? ==>
            var v := Field(body.exchangeRates.value, "JPY_TO_USD"); !JsonTruthy(v) || v.Number?)
  {
    var bad := if body.costParameters.Some? then FirstBadCostField(body.costParameters.value, CheckedCostFields) else None;
    if bad.Some? then BadRequest("Invalid " + bad.value + ": must be a number")
    else if body.exchangeRates.Some? && JsonTruthy(Field(body.exchangeRates.value, "JPY_TO_USD"))
            && !Field(body.exchangeRates.value, "JPY_TO_USD").Number? then
      BadRequest("Invalid JPY_TO_USD rate")
    else Accepted
  }

  /** `GET /config`: the calculator's built-in parameters, whatever was
      sent before. */
  function GetConfig(): (c: ProfitCalculator.Calculator)
    ensures c.rates.jpyToUsd == 0.0067 && c.rates.usdToJpy == 149.25
  {
    ProfitCalculator.Default
  }

  // ---------------------------------------------------------------------
  // Manual cleanup.

  datatype CleanupOutcome = Done(records: seq<Record>, message: Option<string>) | InvalidAction

  /** `POST /cleanup` with the action named in the body. */
  function Cleanup(rs: seq<Record>, action: string, now: int): (r: CleanupOutcome)
    ensures r == InvalidAction <==> action !in ["remove_stale", "recalculate_profits", "remove_invalid"]
    ensures action == "remove_stale" ==> (
      && r.Done?
      && |r.records| == |rs|
      && (forall i :: 0 <= i < |rs| ==> r.records[i].id == rs[i].id && !ActiveOlderThan(now, 30, r.records[i].car))
      && (forall i :: 0 <= i < |rs| && !ActiveOlderThan(now, 30, rs[i].car) ==> r.records[i] == rs[i])
      && (forall i :: 0 <= i < |rs| && ActiveOlderThan(now, 30, rs[i].car) ==>
            r.records[i].car == rs[i].car.(isActive := Some(false), updatedAt := Some(now))))
    ensures action == "recalculate_profits" ==> r == Done(rs, Some("Profit recalculation started"))
    ensures action == "remove_invalid" ==> (
      && r.Done?
      && (forall i :: 0 <= i < |r.records| ==> HasRequiredFields(r.records[i].car) && r.records[i] in rs)
      && (forall i :: 0 <= i < |rs| && HasRequiredFields(rs[i].car) ==> rs[i] in r.records)
      && |r.records| == |rs| - Count(rs, c => !HasRequiredFields(c)))
  {
    if action == "remove_stale" then Done(MongoStore.Deactivate(rs, StaleFor(now, 30), now), None)
    else if action == "recalculate_profits" then Done(rs, Some("Profit recalculation started"))
    else if action == "remove_invalid" then
      Done(MongoStore.DeleteWhere(rs, c => !HasRequiredFields(c)), None)
    else InvalidAction
  }
}
