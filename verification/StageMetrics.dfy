/** Stage timing histogram and its percentile: `native/src/metrics.rs`. */
module StageMetrics {
  import opened Prelude

  const BUCKETS: nat := 64

  function Pow2(n: nat): (r: nat)
    ensures r >= 1
  {
    if n == 0 then 1 else 2 * Pow2(n - 1)
  }

  /** `u64::BITS - x.leading_zeros()`. */
  function BitLength(x: nat): nat {
    if x == 0 then 0 else 1 + BitLength(x / 2)
  }

  function StageBucket(elapsed: nat): (b: nat)
    ensures b < BUCKETS
  {
    if elapsed == 0 then 0 else Min(BitLength(elapsed), 63)
  }

  /** What the loop of `percentile` returns for the bucket it stops in. */
  function BucketFloor(bucket: nat): nat {
    if bucket == 0 then 0 else Pow2(bucket - 1)
  }

  lemma {:induction false} Pow2Monotone(a: nat, b: nat)
    requires a <= b
    ensures Pow2(a) <= Pow2(b)
  {
    if a < b {
      Pow2Monotone(a, b - 1);
    }
  }

  lemma {:induction false} BitLengthBounds(x: nat)
    requires x > 0
    ensures BitLength(x) > 0 && Pow2(BitLength(x) - 1) <= x < Pow2(BitLength(x))
  {
    if x > 1 {
      BitLengthBounds(x / 2);
    } else {
      assert BitLength(1) == 1 + BitLength(0);
    }
  }

  lemma {:induction false} BucketBounds(x: nat)
    ensures BucketFloor(StageBucket(x)) <= x
    ensures StageBucket(x) < 63 ==> x < Pow2(StageBucket(x))
  {
    if x > 0 {
      BitLengthBounds(x);
      if BitLength(x) > 63 {
        Pow2Monotone(62, BitLength(x) - 1);
      }
    }
  }

  /** A bucket below the open end: its floor is positive, and doubled it is above all its samples. */
  lemma {:induction false} DoublingBound(x: nat)
    requires 0 < BitLength(x) <= 63 && x > 0
    ensures StageBucket(x) == BitLength(x)
    ensures 0 < BucketFloor(StageBucket(x)) <= x < 2 * BucketFloor(StageBucket(x))
    ensures x < Pow2(63)
  {
    BitLengthBounds(x);
    Pow2Monotone(BitLength(x), 63);
  }

  /** The last bucket also takes the samples from 2^63 on, which twice its floor does not reach. */
  lemma {:induction false} LastBucketIsOpen(x: nat)
    requires BitLength(x) > 63 && x > 0
    ensures StageBucket(x) == 63 && BucketFloor(63) == Pow2(62) > 0
    ensures Pow2(63) == 2 * BucketFloor(63) <= x
  {
    BitLengthBounds(x);
    Pow2Monotone(63, BitLength(x) - 1);
    assert Pow2(63) == 2 * Pow2(62);
  }

  /** Bucket b holds exactly [2^(b-1), 2^b), except that the last one is open above. */
  lemma {:induction false} BucketHolds(x: nat)
    ensures BucketFloor(StageBucket(x)) <= x
    ensures StageBucket(x) < 63 ==> x < Pow2(StageBucket(x))
    ensures StageBucket(x) == 63 ==> (x < Pow2(63) <==> BitLength(x) == 63)
    ensures BucketFloor(StageBucket(x)) == 0 <==> x == 0
    ensures x > 0 ==> (x < 2 * BucketFloor(StageBucket(x)) <==> x < Pow2(63))
  {
    BucketBounds(x);
    if x > 0 {
      BitLengthBounds(x);
      if BitLength(x) <= 63 {
        DoublingBound(x);
      } else {
        LastBucketIsOpen(x);
      }
    }
  }

  /** Buckets are ordered as the samples in them are. */
  lemma {:induction false} BucketMonotone(x: nat, y: nat)
    requires x <= y
    ensures StageBucket(x) <= StageBucket(y)
  {
    if StageBucket(x) > StageBucket(y) {
      BucketBounds(x);
      BucketBounds(y);
      Pow2Monotone(StageBucket(y), StageBucket(x) - 1);
    }
  }

  // Counting

  function CountAtMost(s: seq<nat>, bound: int): (n: nat)
    ensures n <= |s|
  {
    if s == [] then 0 else (if s[0] <= bound then 1 else 0) + CountAtMost(s[1..], bound)
  }

  function CountInBucket(s: seq<nat>, bucket: nat): nat {
    if s == [] then 0 else (if StageBucket(s[0]) == bucket then 1 else 0) + CountInBucket(s[1..], bucket)
  }

  function CountBelowBucket(s: seq<nat>, bucket: nat): nat {
    if s == [] then 0 else (if StageBucket(s[0]) < bucket then 1 else 0) + CountBelowBucket(s[1..], bucket)
  }

  /** x is the t-th smallest element of s: fewer than t elements are below it, at least t are not above it. */
  ghost predicate IsRank(s: seq<nat>, t: nat, x: nat) {
    x in s && CountAtMost(s, x - 1) < t <= CountAtMost(s, x)
  }

  lemma {:induction false} CountGrows(s: seq<nat>, a: int, b: int)
    requires a <= b
    ensures CountAtMost(s, a) <= CountAtMost(s, b)
  {
    if s != [] {
      CountGrows(s[1..], a, b);
    }
  }

  lemma {:induction false} CountStepsAtMembers(s: seq<nat>, x: nat)
    ensures x !in s ==> CountAtMost(s, x) == CountAtMost(s, x - 1)
  {
    if s != [] {
      CountStepsAtMembers(s[1..], x);
      assert s == [s[0]] + s[1..];
    }
  }

  lemma {:induction false} CountNegative(s: seq<nat>)
    ensures CountAtMost(s, -1) == 0
  {
    if s != [] {
      CountNegative(s[1..]);
    }
  }

  /** Every rank of a sample list names a value. */
  lemma {:induction false} RankExists(s: seq<nat>, t: nat, bound: nat) returns (x: nat)
    requires 1 <= t <= CountAtMost(s, bound)
    ensures IsRank(s, t, x)
  {
    CountNegative(s);
    if CountAtMost(s, bound - 1) < t {
      x := bound;
      CountStepsAtMembers(s, bound);
    } else {
      x := RankExists(s, t, bound - 1);
    }
  }

  lemma {:induction false} RankIsUnique(s: seq<nat>, t: nat, x: nat, y: nat)
    requires IsRank(s, t, x) && IsRank(s, t, y)
    ensures x == y
  {
    if x < y {
      CountGrows(s, x, y - 1);
    } else if y < x {
      CountGrows(s, y, x - 1);
    }
  }

  /** x is the t-th smallest element, and no other value is. */
  ghost predicate IsTheRank(s: seq<nat>, t: nat, x: nat) {
    IsRank(s, t, x) && forall y: nat {:trigger IsRank(s, t, y)} :: IsRank(s, t, y) ==> y == x
  }

  lemma {:induction false} RankIsTheRank(s: seq<nat>, t: nat, x: nat)
    requires IsRank(s, t, x)
    ensures IsTheRank(s, t, x)
  {
    forall y: nat | IsRank(s, t, y) ensures y == x {
      RankIsUnique(s, t, x, y);
    }
  }

  lemma {:induction false} CountAll(s: seq<nat>) returns (bound: nat)
    ensures CountAtMost(s, bound) == |s|
  {
    if s == [] {
      bound := 0;
    } else {
      var rest := CountAll(s[1..]);
      bound := Max(s[0], rest);
      CountGrows(s[1..], rest, bound);
    }
  }

  /** Every rank up to the number of samples names exactly one value. */
  lemma {:induction false} TheRank(s: seq<nat>, t: nat) returns (x: nat)
    requires 1 <= t <= |s|
    ensures IsTheRank(s, t, x)
  {
    var bound := CountAll(s);
    x := RankExists(s, t, bound);
    RankIsTheRank(s, t, x);
  }

  lemma {:induction false} BelowBucketStep(s: seq<nat>, bucket: nat)
    ensures CountBelowBucket(s, bucket + 1) == CountBelowBucket(s, bucket) + CountInBucket(s, bucket)
  {
    if s != [] {
      BelowBucketStep(s[1..], bucket);
    }
  }

  /** Everything up to x lies in the buckets up to x's; nothing below x's bucket reaches x. */
  lemma {:induction false} RankLiesInItsBucket(s: seq<nat>, x: nat)
    ensures CountAtMost(s, x) <= CountBelowBucket(s, StageBucket(x) + 1)
    ensures CountBelowBucket(s, StageBucket(x)) <= CountAtMost(s, x - 1)
  {
    if s != [] {
      RankLiesInItsBucket(s[1..], x);
      if s[0] <= x {
        BucketMonotone(s[0], x);
      } else {
        BucketMonotone(x, s[0]);
      }
      if x <= s[0] {
        BucketMonotone(x, s[0]);
      }
    }
  }

  // The recorded statistics

  datatype StageStats = StageStats(histogram: seq<nat>, totalNs: nat, samples: nat)

  function EmptyStats(): StageStats {
    StageStats(seq(BUCKETS, _ => 0), 0, 0)
  }

  function Sum(s: seq<nat>): nat {
    if s == [] then 0 else s[0] + Sum(s[1..])
  }

  ghost predicate HistogramOf(histogram: seq<nat>, log: seq<nat>) {
    |histogram| == BUCKETS && forall b :: 0 <= b < BUCKETS ==> histogram[b] == CountInBucket(log, b)
  }

  /** stats is what recording exactly the samples of log (newest first) leaves behind. */
  ghost predicate Represents(stats: StageStats, log: seq<nat>) {
    HistogramOf(stats.histogram, log) && stats.samples == |log| && stats.totalNs == Sum(log)
  }

  /** `seen` after the first n buckets. */
  function Seen(histogram: seq<nat>, n: nat): nat
    requires n <= |histogram|
  {
    if n == 0 then 0 else Seen(histogram, n - 1) + histogram[n - 1]
  }

  lemma {:induction false} SeenCountsBuckets(histogram: seq<nat>, log: seq<nat>, n: nat)
    requires HistogramOf(histogram, log) && n <= BUCKETS
    ensures Seen(histogram, n) == CountBelowBucket(log, n)
  {
    if n == 0 {
      NothingBelowZero(log);
    } else {
      SeenCountsBuckets(histogram, log, n - 1);
      BelowBucketStep(log, n - 1);
    }
  }

  lemma {:induction false} NothingBelowZero(s: seq<nat>)
    ensures CountBelowBucket(s, 0) == 0
  {
    if s != [] {
      NothingBelowZero(s[1..]);
    }
  }

  lemma {:induction false} ScaledIsLess(n: real, p: real)
    requires n >= 0.0
    ensures p <= 1.0 ==> n * p <= n
  {
    if p <= 1.0 {
      assert n * (1.0 - p) >= 0.0;
      assert n * (1.0 - p) == n - n * p;
    }
  }

  /** t is the least count from 1 on that reaches x. */
  predicate IsLeastFrom(t: nat, x: real) {
    t as real >= x && forall u: nat {:trigger u as real} :: 1 <= u && u as real >= x ==> t <= u
  }

  /** `(samples * percentile).ceil().max(1.0)` over exact reals. */
  function Threshold(samples: nat, percentile: real): (t: nat)
    ensures t >= 1
    ensures samples >= 1 && percentile <= 1.0 ==> t <= samples
    ensures IsLeastFrom(t, samples as real * percentile)
  {
    var scaled := samples as real * percentile;
    ScaledIsLess(samples as real, percentile);
    Max(1, Ceil(scaled))
  }

  /** v is the floor of the first bucket whose cumulative count reaches t. */
  ghost predicate StopsAt(histogram: seq<nat>, t: nat, v: nat) {
    exists b :: 0 <= b < |histogram| && Seen(histogram, b) < t <= Seen(histogram, b + 1) && v == BucketFloor(b)
  }

  method Percentile(histogram: seq<nat>, samples: nat, percentile: real) returns (v: nat)
    requires |histogram| == BUCKETS
    ensures StopsAt(histogram, Threshold(samples, percentile), v)
         || (Seen(histogram, BUCKETS) < Threshold(samples, percentile) && v == 0)
  {
    var threshold := Threshold(samples, percentile);
    var seen := 0;
    for bucket := 0 to |histogram|
      invariant seen == Seen(histogram, bucket) < threshold
    {
      seen := seen + histogram[bucket];
      if seen >= threshold {
        assert Seen(histogram, bucket + 1) == seen;
        return BucketFloor(bucket);
      }
    }
    return 0;
  }

  lemma {:induction false} SeenMonotone(histogram: seq<nat>, a: nat, b: nat)
    requires a <= b <= |histogram|
    ensures Seen(histogram, a) <= Seen(histogram, b)
  {
    if a < b {
      SeenMonotone(histogram, a, b - 1);
    }
  }

  /** The loop stops in the bucket of the t-th smallest sample. */
  lemma {:induction false} StopsInItsBucket(histogram: seq<nat>, log: seq<nat>, t: nat, x: nat, v: nat)
    requires HistogramOf(histogram, log) && IsRank(log, t, x) && StopsAt(histogram, t, v)
    ensures v == BucketFloor(StageBucket(x))
  {
    var b :| 0 <= b < |histogram| && Seen(histogram, b) < t <= Seen(histogram, b + 1) && v == BucketFloor(b);
    var home := StageBucket(x);
    RankLiesInItsBucket(log, x);
    SeenCountsBuckets(histogram, log, home);
    SeenCountsBuckets(histogram, log, home + 1);
    if b < home {
      SeenMonotone(histogram, b + 1, home);
    } else if home < b {
      SeenMonotone(histogram, home + 1, b);
    }
  }

  /** The factor-two bound of an answer v for a sample x: v never exceeds x, is 0 exactly when x is, and x < 2v holds
      for x > 0 exactly when x < 2^63, as the last bucket is open above. */
  predicate WithinFactorTwo(v: nat, x: nat) {
    v <= x && (v == 0 <==> x == 0) && (x > 0 ==> (x < 2 * v <==> x < Pow2(63)))
  }

  /** Whatever was recorded, the answer at rank t bounds the t-th smallest sample. */
  lemma {:induction false} PercentileWithinFactorTwo(histogram: seq<nat>, log: seq<nat>, t: nat, x: nat, v: nat)
    requires HistogramOf(histogram, log) && IsRank(log, t, x) && StopsAt(histogram, t, v)
    ensures WithinFactorTwo(v, x)
  {
    StopsInItsBucket(histogram, log, t, x, v);
    BucketHolds(x);
  }

  lemma {:induction false} AllInBuckets(log: seq<nat>)
    ensures CountBelowBucket(log, BUCKETS) == |log|
  {
    if log != [] {
      AllInBuckets(log[1..]);
    }
  }

  /** A percentile of at most 1 over at least one recorded sample never falls through the loop. */
  lemma {:induction false} PercentileFindsABucket(stats: StageStats, log: seq<nat>, percentile: real)
    requires Represents(stats, log) && log != [] && percentile <= 1.0
    ensures Threshold(stats.samples, percentile) <= Seen(stats.histogram, BUCKETS)
  {
    AllInBuckets(log);
    SeenCountsBuckets(stats.histogram, log, BUCKETS);
  }

  /** `record_stage` on one stage: checked additions in source order, each kept even when a later one fails. */
  function Recorded(stats: StageStats, elapsed: nat): (r: (Result<()>, StageStats))
    requires |stats.histogram| == BUCKETS
    ensures |r.1.histogram| == BUCKETS
  {
    var b := StageBucket(elapsed);
    if stats.histogram[b] + 1 > U64_MAX then (Err(MetricsOverflow), stats)
    else
      var counted := stats.(histogram := stats.histogram[b := stats.histogram[b] + 1]);
      if stats.totalNs + elapsed > U64_MAX then (Err(MetricsOverflow), counted)
      else
        var summed := counted.(totalNs := stats.totalNs + elapsed);
        if stats.samples + 1 > U64_MAX then (Err(MetricsOverflow), summed)
        else (Ok(()), summed.(samples := stats.samples + 1))
  }

  lemma {:induction false} RecordedRepresents(stats: StageStats, log: seq<nat>, elapsed: nat)
    requires Represents(stats, log) && Recorded(stats, elapsed).0.Ok?
    ensures Represents(Recorded(stats, elapsed).1, [elapsed] + log)
  {
    assert ([elapsed] + log)[1..] == log;
  }

  lemma {:induction false} BucketIsPart(s: seq<nat>, bucket: nat)
    ensures CountInBucket(s, bucket) <= |s|
  {
    if s != [] {
      BucketIsPart(s[1..], bucket);
    }
  }

  /** A sample is recorded exactly when the number of samples and their sum still fit a u64. */
  lemma {:induction false} RecordsExactly(stats: StageStats, log: seq<nat>, elapsed: nat)
    requires Represents(stats, log)
    ensures Recorded(stats, elapsed).0.Ok? <==> |log| < U64_MAX && Sum(log) + elapsed <= U64_MAX
  {
    BucketIsPart(log, StageBucket(elapsed));
  }

  lemma {:induction false} EmptyRepresents()
    ensures Represents(EmptyStats(), [])
  {
  }

  lemma {:induction false} OneSample(x: nat, v: nat)
    requires x <= U64_MAX && StopsAt(Recorded(EmptyStats(), x).1.histogram, 1, v)
    ensures Recorded(EmptyStats(), x).0.Ok? && Represents(Recorded(EmptyStats(), x).1, [x])
    ensures IsTheRank([x], 1, x) && v == BucketFloor(StageBucket(x))
  {
    EmptyRepresents();
    RecordedRepresents(EmptyStats(), [], x);
    assert [x] + [] == [x] && [x][1..] == [];
    assert CountAtMost([x], x) == 1 && CountAtMost([x], x - 1) == 0;
    RankIsTheRank([x], 1, x);
    StopsInItsBucket(Recorded(EmptyStats(), x).1.histogram, [x], 1, x, v);
  }

  lemma {:induction false} Pow2Adds(a: nat, b: nat)
    ensures Pow2(a + b) == Pow2(a) * Pow2(b)
    decreases b
  {
    if b > 0 {
      Pow2Adds(a, b - 1);
    }
  }

  lemma {:induction false} Pow2Seven()
    ensures Pow2(7) == 128
  {
    assert Pow2(3) == 8;
    Pow2Adds(3, 3);
    Pow2Adds(6, 1);
  }

  lemma {:induction false} TopBit()
    ensures Pow2(63) == 0x8000_0000_0000_0000 <= U64_MAX
  {
    Pow2Seven();
    Pow2Adds(7, 7);
    Pow2Adds(14, 7);
    Pow2Adds(21, 21);
    Pow2Adds(42, 21);
  }

  /** The factor of two is missed: after a single sample of 2^63 ns every percentile is 2^62. */
  lemma {:induction false} FactorTwoIsMissed(x: nat, v: nat)
    requires x == Pow2(63) && StopsAt(Recorded(EmptyStats(), x).1.histogram, 1, v)
    ensures x <= U64_MAX && Represents(Recorded(EmptyStats(), x).1, [x])
    ensures IsTheRank([x], 1, x) && v == Pow2(62) && x == 2 * v
  {
    TopBit();
    OneSample(x, v);
    BitLengthBounds(x);
    if BitLength(x) <= 63 {
      DoublingBound(x);
    } else {
      LastBucketIsOpen(x);
    }
  }

  class Metrics {
    var stages: map<string, StageStats>
    /** The samples behind each stage that never overflowed, newest first. */
    ghost var logs: map<string, seq<nat>>

    ghost predicate Valid()
      reads this
    {
      && (forall name :: name in stages ==> |stages[name].histogram| == BUCKETS)
      && logs.Keys <= stages.Keys
      && forall name :: name in logs ==> Represents(stages[name], logs[name])
    }

    ghost function Log(name: string): seq<nat>
      reads this
    {
      if name in logs then logs[name] else []
    }

    constructor ()
      ensures Valid() && stages == map[] && logs == map[]
    {
      stages, logs := map[], map[];
    }

    method RecordStage(name: string, elapsed: nat) returns (r: Result<()>)
      requires Valid() && elapsed <= U64_MAX
      modifies this
      ensures Valid()
      ensures stages.Keys == old(stages).Keys + {name}
      ensures forall other :: other in old(stages) && other != name ==> stages[other] == old(stages)[other]
      ensures (r, stages[name]) ==
              Recorded(if name in old(stages) then old(stages)[name] else EmptyStats(), elapsed)
      ensures name in old(logs) || name !in old(stages) ==>
                (r.Ok? <==> |old(Log(name))| < U64_MAX && Sum(old(Log(name))) + elapsed <= U64_MAX)
      ensures r.Ok? && (name in old(logs) || name !in old(stages)) ==>
                logs == old(logs)[name := [elapsed] + old(Log(name))]
      ensures forall other :: other in old(logs) && other != name ==>
                other in logs && logs[other] == old(logs)[other]
    {
      EmptyRepresents();
      var stats := if name in stages then stages[name] else EmptyStats();
      ghost var tracked := name in logs || name !in stages;
      if tracked {
        RecordsExactly(stats, Log(name), elapsed);
      }
      var (outcome, updated) := Recorded(stats, elapsed);
      if outcome.Ok? && tracked {
        RecordedRepresents(stats, Log(name), elapsed);
        logs := logs[name := [elapsed] + Log(name)];
      } else {
        logs := logs - {name};
      }
      stages := stages[name := updated];
      r := outcome;
    }

    /** The p50 and p95 of `snapshot`, for any percentile: the one sample of that rank, to within a factor of two. */
    method StagePercentile(name: string, percentile: real) returns (v: nat)
      requires Valid() && name in stages && percentile <= 1.0
      ensures Log(name) != [] ==>
                exists x: nat {:trigger IsTheRank(Log(name), Threshold(|Log(name)|, percentile), x)} ::
                  IsTheRank(Log(name), Threshold(|Log(name)|, percentile), x) && WithinFactorTwo(v, x)
    {
      v := Percentile(stages[name].histogram, stages[name].samples, percentile);
      if Log(name) != [] {
        ghost var t := Threshold(stages[name].samples, percentile);
        PercentileFindsABucket(stages[name], Log(name), percentile);
        ghost var x := TheRank(Log(name), t);
        PercentileWithinFactorTwo(stages[name].histogram, Log(name), t, x, v);
      }
    }
  }
}
