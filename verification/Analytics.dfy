/** Percentiles and time buckets of response times, over exact reals. */
module Analytics {
  import opened Civil
  import opened AlertRules

  // ----- Rounding

  /** Half away from zero. */
  function Round(x: real): int {
    if x >= 0.0 then (x + 0.5).Floor else -(0.5 - x).Floor
  }

  /** Rounded to two decimals. */
  function Round2(x: real): real {
    Round(x * 100.0) as real / 100.0
  }

  /** Rounding goes to a nearest integer, and away from zero from half-way. */
  lemma RoundIsNearest(x: real)
    ensures -0.5 <= Round(x) as real - x <= 0.5
    ensures x >= 0.0 ==> Round(x) as real - x > -0.5
    ensures x <= 0.0 ==> Round(x) as real - x < 0.5
  {
    if x < 0.0 {
      assert Round(x) as real == -((0.5 - x).Floor as real);
    }
  }

  /** So two decimals are within half a hundredth. */
  lemma Round2IsNear(x: real)
    ensures -0.005 <= Round2(x) - x <= 0.005
  {
    RoundIsNearest(x * 100.0);
    hide Round;
  }

  lemma Round2Monotone(x: real, y: real)
    requires x <= y
    ensures Round2(x) <= Round2(y)
  {
    assert x * 100.0 <= y * 100.0;
    assert Round(x * 100.0) <= Round(y * 100.0);
  }

  lemma Round2KeepsIntegers(n: int)
    ensures Round2(n as real) == n as real
  {
    assert n as real * 100.0 == (n * 100) as real;
    assert Round((n * 100) as real) == n * 100;
  }

  // ----- Percentiles

  predicate Sorted(s: seq<int>) {
    forall i, j :: 0 <= i < j < |s| ==> s[i] <= s[j]
  }

  function Ceil(x: real): int {
    -(-x).Floor
  }

  function Scale(pct: real, n: real): (r: real)
    requires 0.0 <= pct <= 1.0 && 0.0 <= n
    ensures 0.0 <= r <= n
  {
    pct * n
  }

  lemma ScaleMonotone(p: real, q: real, n: real)
    requires 0.0 <= p <= q <= 1.0 && 0.0 <= n
    ensures Scale(p, n) <= Scale(q, n)
  {
  }

  function Position(s: seq<int>, pct: real): (r: real)
    requires s != [] && 0.0 <= pct <= 1.0
    ensures 0.0 <= r <= (|s| - 1) as real
  {
    Scale(pct, (|s| - 1) as real)
  }

  /** The position of a percentile is its share of the last index. */
  lemma PositionIsShare(s: seq<int>, pct: real)
    requires s != [] && 0.0 <= pct <= 1.0
    ensures Position(s, pct) == pct * (|s| - 1) as real
  {
  }

  lemma PositionMonotone(s: seq<int>, p: real, q: real)
    requires s != [] && 0.0 <= p <= q <= 1.0
    ensures Position(s, p) <= Position(s, q)
  {
    hide Scale;
    ScaleMonotone(p, q, (|s| - 1) as real);
  }

  lemma CeilIsNext(x: real)
    ensures Ceil(x) == if x == x.Floor as real then x.Floor else x.Floor + 1
  {
    var n := -x.Floor;
    assert n as real == -(x.Floor as real);
    assert n as real - 1.0 < -x <= n as real;
  }

  /** Linear interpolation. */
  function Between(a: real, b: real, frac: real): real {
    a * (1.0 - frac) + b * frac
  }

  function Percentile(sorted: seq<int>, pct: real): (r: real)
    requires sorted != [] ==> 0.0 <= pct <= 1.0
  {
    if sorted == [] then 0.0
    else
      var idx := Position(sorted, pct);
      var lower, upper := idx.Floor, Ceil(idx);
      if lower == upper || upper >= |sorted| then sorted[lower] as real
      else Round2(Between(sorted[lower] as real, sorted[upper] as real, idx - lower as real))
  }

  /** The straight line through the values at the two neighbouring positions. */
  function Line(s: seq<int>, idx: real): real
    requires s != [] && 0.0 <= idx <= (|s| - 1) as real
  {
    var i := idx.Floor;
    if i == |s| - 1 then s[i] as real else Between(s[i] as real, s[i + 1] as real, idx - i as real)
  }

  /** From `a` towards `b`, by the fraction of the way. */
  lemma BetweenIsLinear(a: real, b: real, frac: real)
    ensures Between(a, b, frac) == a + (b - a) * frac
  {
  }

  lemma BetweenScales(a: real, b: real, frac: real)
    requires a <= b && 0.0 <= frac <= 1.0
    ensures Between(a, b, frac) == a + Scale(frac, b - a)
  {
  }

  lemma BetweenBounds(a: real, b: real, frac: real, frac': real)
    requires a <= b && 0.0 <= frac <= frac' <= 1.0
    ensures a <= Between(a, b, frac) <= Between(a, b, frac') <= b
  {
    hide Between, Scale;
    BetweenScales(a, b, frac);
    BetweenScales(a, b, frac');
    ScaleMonotone(frac, frac', b - a);
  }

  lemma WholeIndex(s: seq<int>, idx: real)
    requires s != [] && 0.0 <= idx <= (|s| - 1) as real && idx == idx.Floor as real
    ensures Line(s, idx) == s[idx.Floor] as real
  {
  }

  lemma PercentileIsRoundedLine(s: seq<int>, pct: real)
    requires s != [] && 0.0 <= pct <= 1.0
    ensures Percentile(s, pct) == Round2(Line(s, Position(s, pct)))
  {
    hide Round2, Position, Ceil, Between;
    var idx := Position(s, pct);
    var i := idx.Floor;
    CeilIsNext(idx);
    if idx == i as real {
      WholeIndex(s, idx);
      Round2KeepsIntegers(s[i]);
    }
  }

  lemma LineMonotone(s: seq<int>, x: real, y: real)
    requires s != [] && Sorted(s) && 0.0 <= x <= y <= (|s| - 1) as real
    ensures s[0] as real <= Line(s, x) <= Line(s, y) <= s[|s| - 1] as real
  {
    hide Between;
    var i, j := x.Floor, y.Floor;
    if i < |s| - 1 {
      BetweenBounds(s[i] as real, s[i + 1] as real, x - i as real, if i == j then y - j as real else 1.0);
    }
    if j < |s| - 1 {
      BetweenBounds(s[j] as real, s[j + 1] as real, y - j as real, y - j as real);
    }
  }

  /** min <= percentile(p) <= percentile(q) <= max, through interpolation and rounding. */
  lemma PercentilesAreMonotone(s: seq<int>, p: real, q: real)
    requires s != [] && Sorted(s) && 0.0 <= p <= q <= 1.0
    ensures s[0] as real <= Percentile(s, p) <= Percentile(s, q) <= s[|s| - 1] as real
  {
    hide Sorted, Percentile, Line, Round2, Position;
    PercentileIsRoundedLine(s, p);
    PercentileIsRoundedLine(s, q);
    PositionMonotone(s, p, q);
    var x, y := Position(s, p), Position(s, q);
    LineMonotone(s, x, y);
    Round2Monotone(s[0] as real, Line(s, x));
    Round2Monotone(Line(s, x), Line(s, y));
    Round2Monotone(Line(s, y), s[|s| - 1] as real);
    Round2KeepsIntegers(s[0]);
    Round2KeepsIntegers(s[|s| - 1]);
  }

  // ----- Time buckets

  datatype Entry = Entry(ts: Instant, ms: int)

  datatype Bucket = Bucket(
    timestamp: Instant,
    avg: real,
    p50: real,
    p95: real,
    p99: real,
    max: int,
    min: int,
    count: nat)

  function EntriesOf(results: seq<CheckResult>, checkID: string, cutoff: Instant): seq<Entry> {
    if results == [] then []
    else
      var es, r := EntriesOf(results[..|results| - 1], checkID, cutoff), results[|results| - 1];
      if (checkID != "" && r.checkID != checkID) || r.startedAt < cutoff then es
      else es + [Entry(r.startedAt, r.durationMs)]
  }

  function DurationsIn(entries: seq<Entry>, from: Instant, to: Instant): seq<int> {
    if entries == [] then []
    else
      var ds, e := DurationsIn(entries[..|entries| - 1], from, to), entries[|entries| - 1];
      if from <= e.ts < to then ds + [e.ms] else ds
  }

  function SumOf(s: seq<int>): int {
    if s == [] then 0 else SumOf(s[..|s| - 1]) + s[|s| - 1]
  }

  /** Where `x` goes in a sorted sequence. */
  function Insert(x: int, s: seq<int>): seq<int> {
    if s == [] || s[|s| - 1] <= x then s + [x] else Insert(x, s[..|s| - 1]) + [s[|s| - 1]]
  }

  function Sort(s: seq<int>): seq<int> {
    if s == [] then [] else Insert(s[|s| - 1], Sort(s[..|s| - 1]))
  }

  function Count(s: seq<int>, x: int): nat {
    if s == [] then 0 else Count(s[..|s| - 1], x) + if s[|s| - 1] == x then 1 else 0
  }

  lemma {:induction false} InsertSorts(x: int, s: seq<int>)
    requires Sorted(s)
    ensures Sorted(Insert(x, s)) && |Insert(x, s)| == |s| + 1
    ensures forall y :: y in Insert(x, s) <==> y in s || y == x
  {
    if s != [] && s[|s| - 1] > x {
      InsertSorts(x, s[..|s| - 1]);
      var r := Insert(x, s[..|s| - 1]);
      forall i | 0 <= i < |r|
        ensures r[i] <= s[|s| - 1]
      {
        assert r[i] in r;
      }
      assert s == s[..|s| - 1] + [s[|s| - 1]];
    }
  }

  lemma {:induction false} InsertAdds(x: int, s: seq<int>, y: int)
    ensures SumOf(Insert(x, s)) == SumOf(s) + x
    ensures Count(Insert(x, s), y) == Count(s, y) + if y == x then 1 else 0
  {
    var r := Insert(x, s);
    assert r[..|r| - 1] == if s == [] || s[|s| - 1] <= x then s else Insert(x, s[..|s| - 1]);
    if s != [] && s[|s| - 1] > x {
      InsertAdds(x, s[..|s| - 1], y);
    }
  }

  lemma {:induction false} SortSorts(s: seq<int>)
    ensures Sorted(Sort(s)) && |Sort(s)| == |s|
    ensures forall y :: y in Sort(s) <==> y in s
  {
    if s != [] {
      SortSorts(s[..|s| - 1]);
      InsertSorts(s[|s| - 1], Sort(s[..|s| - 1]));
      assert s == s[..|s| - 1] + [s[|s| - 1]];
    }
  }

  /** Sorting permutes. */
  lemma {:induction false} SortPermutes(s: seq<int>, y: int)
    ensures SumOf(Sort(s)) == SumOf(s) && Count(Sort(s), y) == Count(s, y)
  {
    if s != [] {
      SortPermutes(s[..|s| - 1], y);
      InsertAdds(s[|s| - 1], Sort(s[..|s| - 1]), y);
    }
  }

  /** The bucket of a slot that starts at `t` and holds the given durations. */
  function Summary(t: Instant, durations: seq<int>): Bucket
    requires durations != []
  {
    SortSorts(durations);
    var s := Sort(durations);
    Bucket(t, Round2(SumOf(s) as real / |s| as real), Percentile(s, 0.50), Percentile(s, 0.95), Percentile(s, 0.99),
           s[|s| - 1], s[0], |s|)
  }

  /** One bucket for every slot from `t` on that is not empty, as long as slots start before
      `now`. */
  function BucketsFrom(entries: seq<Entry>, t: Instant, now: Instant, interval: int): seq<Bucket>
    requires interval > 0
    decreases now - t
  {
    if t >= now then []
    else
      var durations := DurationsIn(entries, t, t + interval);
      var rest := BucketsFrom(entries, t + interval, now, interval);
      if durations == [] then rest else [Summary(t, durations)] + rest
  }

  function TruncateTime(t: Instant, d: int): Instant
    requires d > 0
  {
    t - t % d
  }

  function Buckets(results: seq<CheckResult>, checkID: string, period: int, interval: int, now: Instant): seq<Bucket>
    requires interval > 0
  {
    BucketsFrom(EntriesOf(results, checkID, now - period), TruncateTime(now - period, interval), now, interval)
  }

  method Extremes(durations: seq<int>) returns (sum: int, max: int, min: int)
    requires durations != []
    ensures sum == SumOf(durations) && max in durations && min in durations
    ensures forall i :: 0 <= i < |durations| ==> min <= durations[i] <= max
  {
    sum, max, min := 0, durations[0], durations[0];
    for i := 0 to |durations|
      invariant sum == SumOf(durations[..i])
      invariant max in durations && min in durations
      invariant forall j :: 0 <= j < i ==> min <= durations[j] <= max
    {
      assert durations[..i + 1][..i] == durations[..i];
      sum := sum + durations[i];
      if durations[i] > max { max := durations[i]; }
      if durations[i] < min { min := durations[i]; }
    }
    assert durations[..|durations|] == durations;
  }

  method CollectDurations(entries: seq<Entry>, t: Instant, bucketEnd: Instant) returns (durations: seq<int>)
    ensures durations == DurationsIn(entries, t, bucketEnd)
  {
    durations := [];
    for i := 0 to |entries|
      invariant durations == DurationsIn(entries[..i], t, bucketEnd)
    {
      assert entries[..i + 1][..i] == entries[..i];
      if t <= entries[i].ts && entries[i].ts < bucketEnd {
        durations := durations + [entries[i].ms];
      }
    }
    assert entries[..|entries|] == entries;
  }

  method Summarise(t: Instant, durations: seq<int>) returns (b: Bucket)
    requires durations != []
    ensures b == Summary(t, durations)
  {
    hide Sort, Percentile, Round2, SumOf;
    SortSorts(durations);
    var sorted := Sort(durations);
    var sum, max, min := Extremes(sorted);
    assert min == sorted[0] && max == sorted[|sorted| - 1];
    b := Bucket(t, Round2(sum as real / |sorted| as real), Percentile(sorted, 0.50), Percentile(sorted, 0.95),
                Percentile(sorted, 0.99), max, min, |sorted|);
  }

  method ComputeResponseTimeBuckets(results: seq<CheckResult>, checkID: string, period: int, interval: int, now: Instant)
      returns (buckets: seq<Bucket>)
    requires interval > 0
    ensures buckets == Buckets(results, checkID, period, interval, now)
  {
    hide Summary, DurationsIn;
    var cutoff := now - period;
    var entries: seq<Entry> := [];
    for i := 0 to |results|
      invariant entries == EntriesOf(results[..i], checkID, cutoff)
    {
      assert results[..i + 1][..i] == results[..i];
      var r := results[i];
      if (checkID != "" && r.checkID != checkID) || r.startedAt < cutoff { continue; }
      entries := entries + [Entry(r.startedAt, r.durationMs)];
    }
    assert results[..|results|] == results;
    hide EntriesOf, TruncateTime;
    var start := TruncateTime(cutoff, interval);
    if |entries| == 0 {
      NothingToShow(start, now, interval);
      return [];
    }
    buckets := [];
    var t := start;
    while t < now
      invariant buckets + BucketsFrom(entries, t, now, interval) == BucketsFrom(entries, start, now, interval)
      decreases now - t
    {
      var bucketEnd := t + interval;
      var durations := CollectDurations(entries, t, bucketEnd);
      if |durations| != 0 {
        var b := Summarise(t, durations);
        Regroup(buckets, b, BucketsFrom(entries, bucketEnd, now, interval));
        buckets := buckets + [b];
      }
      t := bucketEnd;
    }
  }

  lemma Regroup(xs: seq<Bucket>, b: Bucket, ys: seq<Bucket>)
    ensures xs + ([b] + ys) == xs + [b] + ys
  {
  }

  lemma {:induction false} NothingToShow(t: Instant, now: Instant, interval: int)
    requires interval > 0
    ensures BucketsFrom([], t, now, interval) == []
    decreases now - t
  {
    if t < now {
      NothingToShow(t + interval, now, interval);
    }
  }

  // ----- What the buckets show

  lemma {:induction false} SumBounds(s: seq<int>, lo: int, hi: int)
    requires forall i :: 0 <= i < |s| ==> lo <= s[i] <= hi
    ensures |s| * lo <= SumOf(s) <= |s| * hi
  {
    if s != [] {
      var n := |s| - 1;
      SumBounds(s[..n], lo, hi);
      assert |s| * lo == n * lo + lo && |s| * hi == n * hi + hi;
    }
  }

  lemma QuotientBounds(sum: int, n: int, lo: int, hi: int)
    requires n > 0 && n * lo <= sum <= n * hi
    ensures lo as real <= sum as real / n as real <= hi as real
  {
    assert (n * lo) as real == n as real * lo as real && (n * hi) as real == n as real * hi as real;
    var q := sum as real / n as real;
    assert q * n as real == sum as real;
  }

  lemma AverageBounds(s: seq<int>, lo: int, hi: int)
    requires s != [] && forall i :: 0 <= i < |s| ==> lo <= s[i] <= hi
    ensures lo as real <= Round2(SumOf(s) as real / |s| as real) <= hi as real
  {
    SumBounds(s, lo, hi);
    hide SumOf, Round2;
    QuotientBounds(SumOf(s), |s|, lo, hi);
    var q := SumOf(s) as real / |s| as real;
    Round2Monotone(lo as real, q);
    Round2Monotone(q, hi as real);
    Round2KeepsIntegers(lo);
    Round2KeepsIntegers(hi);
  }

  /** The figures of a bucket are in order, and its extremes are those of its durations. */
  predicate InOrder(b: Bucket) {
    && b.min as real <= b.p50 <= b.p95 <= b.p99 <= b.max as real
    && b.min as real <= b.avg <= b.max as real
  }

  lemma SortedEnds(s: seq<int>)
    requires s != [] && Sorted(s)
    ensures s[0] in s && s[|s| - 1] in s
    ensures forall i :: 0 <= i < |s| ==> s[0] <= s[i] <= s[|s| - 1]
  {
  }

  lemma SummaryInOrder(t: Instant, durations: seq<int>)
    requires durations != []
    ensures var b := Summary(t, durations);
      && InOrder(b)
      && b.count == |durations|
      && b.avg == Round2(SumOf(durations) as real / |durations| as real)
      && b.min in durations && b.max in durations
      && forall d :: d in durations ==> b.min <= d <= b.max
  {
    SortSorts(durations);
    SortPermutes(durations, 0);
    var s := Sort(durations);
    hide Sort, SumOf, Percentile, Round2, Sorted, Count;
    PercentilesAreMonotone(s, 0.50, 0.95);
    PercentilesAreMonotone(s, 0.95, 0.99);
    SortedEnds(s);
    AverageBounds(s, s[0], s[|s| - 1]);
  }

  /** Where the last slot ends. */
  function LastEnd(t: Instant, now: Instant, interval: int): Instant
    requires interval > 0
    decreases now - t
  {
    if t >= now then t else LastEnd(t + interval, now, interval)
  }

  lemma {:induction false} LastEndCoversNow(t: Instant, now: Instant, interval: int)
    requires interval > 0
    ensures LastEnd(t, now, interval) >= now && LastEnd(t, now, interval) >= t
    ensures t < now ==> LastEnd(t, now, interval) < now + interval
    decreases now - t
  {
    if t < now {
      LastEndCoversNow(t + interval, now, interval);
    }
  }

  predicate InBucket(b: Bucket, interval: int, ts: Instant) {
    b.timestamp <= ts < b.timestamp + interval
  }

  function TotalCount(bs: seq<Bucket>): nat {
    if bs == [] then 0 else bs[0].count + TotalCount(bs[1..])
  }

  lemma {:induction false} DurationsAdd(entries: seq<Entry>, a: Instant, b: Instant, c: Instant)
    requires a <= b <= c
    ensures |DurationsIn(entries, a, c)| == |DurationsIn(entries, a, b)| + |DurationsIn(entries, b, c)|
  {
    if entries != [] {
      DurationsAdd(entries[..|entries| - 1], a, b, c);
    }
  }

  lemma {:induction false} DurationsFound(entries: seq<Entry>, a: Instant, b: Instant, e: Entry)
    requires e in entries && a <= e.ts < b
    ensures e.ms in DurationsIn(entries, a, b)
  {
    var n := |entries| - 1;
    if entries[n] != e {
      assert entries == entries[..n] + [entries[n]];
      DurationsFound(entries[..n], a, b, e);
    }
  }

  lemma NoDurations(entries: seq<Entry>, t: Instant)
    ensures |DurationsIn(entries, t, t)| == 0
  {
  }

  /** Slots are disjoint, in order, and start in [from, now). */
  predicate Spaced(bs: seq<Bucket>, from: Instant, now: Instant, interval: int) {
    && (forall i :: 0 <= i < |bs| ==> from <= bs[i].timestamp < now)
    && (forall i, j :: 0 <= i < j < |bs| ==> bs[i].timestamp + interval <= bs[j].timestamp)
  }

  lemma SpacedCons(b: Bucket, rest: seq<Bucket>, now: Instant, interval: int)
    requires interval > 0 && b.timestamp < now && Spaced(rest, b.timestamp + interval, now, interval)
    ensures Spaced([b] + rest, b.timestamp, now, interval)
  {
    var bs := [b] + rest;
    assert forall i :: 0 < i < |bs| ==> bs[i] == rest[i - 1];
  }

  lemma {:induction false} BucketsAreSpaced(entries: seq<Entry>, t: Instant, now: Instant, interval: int)
    requires interval > 0
    ensures Spaced(BucketsFrom(entries, t, now, interval), t, now, interval)
    decreases now - t
  {
    hide DurationsIn, Summary;
    if t < now {
      BucketsAreSpaced(entries, t + interval, now, interval);
      var ds := DurationsIn(entries, t, t + interval);
      if ds != [] {
        SummaryStart(t, ds);
        SpacedCons(Summary(t, ds), BucketsFrom(entries, t + interval, now, interval), now, interval);
      }
    }
  }

  /** Every bucket summarises the entries of its slot. */
  lemma {:induction false} BucketsSummarise(entries: seq<Entry>, t: Instant, now: Instant, interval: int, i: nat)
    requires interval > 0 && i < |BucketsFrom(entries, t, now, interval)|
    ensures var b := BucketsFrom(entries, t, now, interval)[i];
      var ds := DurationsIn(entries, b.timestamp, b.timestamp + interval);
      ds != [] && b == Summary(b.timestamp, ds)
    decreases now - t
  {
    hide DurationsIn, Summary;
    var ds := DurationsIn(entries, t, t + interval);
    if ds == [] {
      BucketsSummarise(entries, t + interval, now, interval, i);
    } else if i == 0 {
      SummaryStart(t, ds);
    } else {
      BucketsSummarise(entries, t + interval, now, interval, i - 1);
    }
  }

  /** Together they count what lies between `t` and the end of the last slot. */
  lemma {:induction false} CountsAddUp(entries: seq<Entry>, t: Instant, now: Instant, interval: int)
    requires interval > 0
    ensures TotalCount(BucketsFrom(entries, t, now, interval)) == |DurationsIn(entries, t, LastEnd(t, now, interval))|
    decreases now - t
  {
    hide DurationsIn, Summary, InOrder;
    if t >= now {
      NoDurations(entries, t);
    } else {
      var t' := t + interval;
      CountsAddUp(entries, t', now, interval);
      LastEndCoversNow(t', now, interval);
      DurationsAdd(entries, t, t', LastEnd(t', now, interval));
      var ds := DurationsIn(entries, t, t');
      if ds != [] {
        SummaryInOrder(t, ds);
        assert ([Summary(t, ds)] + BucketsFrom(entries, t', now, interval))[1..] == BucketsFrom(entries, t', now, interval);
      }
    }
  }

  lemma SummaryStart(t: Instant, durations: seq<int>)
    requires durations != []
    ensures Summary(t, durations).timestamp == t
  {
    hide Sort, Percentile, Round2, SumOf;
  }

  lemma {:induction false} EntryHasBucket(entries: seq<Entry>, t: Instant, now: Instant, interval: int, e: Entry)
    requires interval > 0 && e in entries && t <= e.ts < LastEnd(t, now, interval)
    ensures exists b :: b in BucketsFrom(entries, t, now, interval) && InBucket(b, interval, e.ts)
    decreases now - t
  {
    hide DurationsIn, Summary;
    var ds := DurationsIn(entries, t, t + interval);
    var rest := BucketsFrom(entries, t + interval, now, interval);
    if e.ts < t + interval {
      DurationsFound(entries, t, t + interval, e);
      SummaryStart(t, ds);
      assert BucketsFrom(entries, t, now, interval) == [Summary(t, ds)] + rest;
      assert InBucket(Summary(t, ds), interval, e.ts);
    } else {
      EntryHasBucket(entries, t + interval, now, interval, e);
      var b :| b in rest && InBucket(b, interval, e.ts);
      assert b in BucketsFrom(entries, t, now, interval);
    }
  }

  /** The result belongs to the check and the period. */
  predicate Selected(r: CheckResult, checkID: string, cutoff: Instant) {
    (checkID == "" || r.checkID == checkID) && r.startedAt >= cutoff
  }

  lemma {:induction false} EntriesAreSelected(results: seq<CheckResult>, checkID: string, cutoff: Instant, r: CheckResult)
    requires r in results && Selected(r, checkID, cutoff)
    ensures Entry(r.startedAt, r.durationMs) in EntriesOf(results, checkID, cutoff)
  {
    var n := |results| - 1;
    if results[n] != r {
      assert results == results[..n] + [results[n]];
      EntriesAreSelected(results[..n], checkID, cutoff, r);
    }
  }

  lemma StartBeforeCutoff(cutoff: Instant, interval: int)
    requires interval > 0
    ensures cutoff - interval < TruncateTime(cutoff, interval) <= cutoff
  {
  }

  /** Every selected result before the end of the last slot, so every one before `now`, is in
      exactly one bucket. */
  lemma EachResultInOneBucket(results: seq<CheckResult>, checkID: string, period: int, interval: int, now: Instant, r: CheckResult)
      returns (k: nat)
    requires interval > 0 && r in results && Selected(r, checkID, now - period)
    requires r.startedAt < LastEnd(TruncateTime(now - period, interval), now, interval)
    ensures var bs := Buckets(results, checkID, period, interval, now);
      && k < |bs|
      && (forall i :: 0 <= i < |bs| ==> (InBucket(bs[i], interval, r.startedAt) <==> i == k))
      && r.durationMs in SlotDurations(results, checkID, now - period, bs[k].timestamp, bs[k].timestamp + interval)
  {
    hide Summary, DurationsIn, EntriesOf, TruncateTime, BucketsFrom;
    var cutoff := now - period;
    var entries, start := EntriesOf(results, checkID, cutoff), TruncateTime(cutoff, interval);
    var e := Entry(r.startedAt, r.durationMs);
    EntriesAreSelected(results, checkID, cutoff, r);
    StartBeforeCutoff(cutoff, interval);
    EntryHasBucket(entries, start, now, interval, e);
    BucketsAreSpaced(entries, start, now, interval);
    var bs := BucketsFrom(entries, start, now, interval);
    var b :| b in bs && InBucket(b, interval, r.startedAt);
    k :| 0 <= k < |bs| && bs[k] == b;
    DurationsFound(entries, b.timestamp, b.timestamp + interval, e);
    DurationsAreOfSlot(results, checkID, cutoff, b.timestamp, b.timestamp + interval);
  }

  // ----- The same, over the results themselves

  predicate InSlot(r: CheckResult, checkID: string, cutoff: Instant, from: Instant, to: Instant) {
    Selected(r, checkID, cutoff) && from <= r.startedAt < to
  }

  /** Which results of the check and the period fall into a slot. */
  function SlotIndices(results: seq<CheckResult>, checkID: string, cutoff: Instant, from: Instant, to: Instant): set<nat> {
    set i: nat | i < |results| && InSlot(results[i], checkID, cutoff, from, to)
  }

  /** Their durations, in the order of the results. */
  function SlotDurations(results: seq<CheckResult>, checkID: string, cutoff: Instant, from: Instant, to: Instant): seq<int> {
    if results == [] then []
    else
      var before, r := SlotDurations(results[..|results| - 1], checkID, cutoff, from, to), results[|results| - 1];
      if InSlot(r, checkID, cutoff, from, to) then before + [r.durationMs] else before
  }

  lemma {:induction false} DurationsAreOfSlot(results: seq<CheckResult>, checkID: string, cutoff: Instant, from: Instant, to: Instant)
    ensures DurationsIn(EntriesOf(results, checkID, cutoff), from, to) == SlotDurations(results, checkID, cutoff, from, to)
  {
    if results != [] {
      var front, r := results[..|results| - 1], results[|results| - 1];
      DurationsAreOfSlot(front, checkID, cutoff, from, to);
      DurationsSnoc(EntriesOf(front, checkID, cutoff), Entry(r.startedAt, r.durationMs), from, to);
    }
  }

  lemma DurationsSnoc(entries: seq<Entry>, e: Entry, from: Instant, to: Instant)
    ensures DurationsIn(entries + [e], from, to) ==
      if from <= e.ts < to then DurationsIn(entries, from, to) + [e.ms] else DurationsIn(entries, from, to)
  {
    assert (entries + [e])[..|entries|] == entries;
  }

  lemma SlotGrows(results: seq<CheckResult>, checkID: string, cutoff: Instant, from: Instant, to: Instant)
    requires results != []
    ensures var n := |results| - 1;
      SlotIndices(results, checkID, cutoff, from, to) ==
        if InSlot(results[n], checkID, cutoff, from, to)
        then SlotIndices(results[..n], checkID, cutoff, from, to) + {n}
        else SlotIndices(results[..n], checkID, cutoff, from, to)
    ensures |results| - 1 !in SlotIndices(results[..|results| - 1], checkID, cutoff, from, to)
  {
    hide InSlot;
  }

  /** There are as many durations as results in the slot, and they are these results'. */
  lemma {:induction false} SlotIsCounted(results: seq<CheckResult>, checkID: string, cutoff: Instant, from: Instant, to: Instant)
    ensures var ds, slot := SlotDurations(results, checkID, cutoff, from, to), SlotIndices(results, checkID, cutoff, from, to);
      && |ds| == |slot|
      && (forall i :: i in slot ==> results[i].durationMs in ds)
      && (forall d :: d in ds ==> exists i :: i in slot && results[i].durationMs == d)
  {
    hide InSlot;
    if results != [] {
      var n := |results| - 1;
      var front := results[..n];
      SlotIsCounted(front, checkID, cutoff, from, to);
      SlotGrows(results, checkID, cutoff, from, to);
      var slot := SlotIndices(results, checkID, cutoff, from, to);
      forall d | d in SlotDurations(results, checkID, cutoff, from, to)
        ensures exists i :: i in slot && results[i].durationMs == d
      {
        if d in SlotDurations(front, checkID, cutoff, from, to) {
          var i :| i in SlotIndices(front, checkID, cutoff, from, to) && front[i].durationMs == d;
          assert i in slot;
        } else {
          assert n in slot;
        }
      }
    }
  }

  /** Slots start at multiples of the interval. */
  ghost predicate OnGrid(t: Instant, interval: int) {
    exists q: int :: t == Times(q, interval)
  }

  function Times(q: int, interval: int): int {
    q * interval
  }

  lemma StartOnGrid(cutoff: Instant, interval: int)
    requires interval > 0
    ensures OnGrid(TruncateTime(cutoff, interval), interval)
  {
    var q := cutoff / interval;
    assert cutoff == interval * q + cutoff % interval;
    assert TruncateTime(cutoff, interval) == Times(q, interval);
  }

  lemma {:induction false} BucketsOnGrid(entries: seq<Entry>, t: Instant, now: Instant, interval: int, b: Bucket)
    requires interval > 0 && OnGrid(t, interval) && b in BucketsFrom(entries, t, now, interval)
    ensures OnGrid(b.timestamp, interval)
    decreases now - t
  {
    hide DurationsIn, Summary;
    var q :| t == Times(q, interval);
    assert t + interval == Times(q + 1, interval);
    var ds := DurationsIn(entries, t, t + interval);
    if ds != [] {
      SummaryStart(t, ds);
    }
    if b.timestamp != t || ds == [] || b != Summary(t, ds) {
      BucketsOnGrid(entries, t + interval, now, interval, b);
    }
  }

  /** What a bucket says about the results of its slot. */
  ghost predicate Describes(b: Bucket, results: seq<CheckResult>, checkID: string, cutoff: Instant, interval: int) {
    var slot := SlotIndices(results, checkID, cutoff, b.timestamp, b.timestamp + interval);
    var ds := SlotDurations(results, checkID, cutoff, b.timestamp, b.timestamp + interval);
    && b.count == |slot| == |ds| > 0
    && b.avg == Round2(SumOf(ds) as real / |ds| as real)
    && b.p50 == Percentile(Sort(ds), 0.50) && b.p95 == Percentile(Sort(ds), 0.95) && b.p99 == Percentile(Sort(ds), 0.99)
    && (exists i :: i in slot && results[i].durationMs == b.min)
    && (exists i :: i in slot && results[i].durationMs == b.max)
    && forall i :: i in slot ==> b.min <= results[i].durationMs <= b.max
  }

  lemma BucketDescribes(results: seq<CheckResult>, checkID: string, period: int, interval: int, now: Instant, i: nat)
    requires interval > 0 && i < |Buckets(results, checkID, period, interval, now)|
    ensures var b := Buckets(results, checkID, period, interval, now)[i];
      InOrder(b) && OnGrid(b.timestamp, interval) && Describes(b, results, checkID, now - period, interval)
  {
    hide DurationsIn, EntriesOf, TruncateTime, BucketsFrom, InOrder, OnGrid, SlotIndices, SlotDurations, Percentile, Sort, Round2, SumOf;
    var cutoff := now - period;
    var entries, start := EntriesOf(results, checkID, cutoff), TruncateTime(cutoff, interval);
    var b := Buckets(results, checkID, period, interval, now)[i];
    var ds := DurationsIn(entries, b.timestamp, b.timestamp + interval);
    StartOnGrid(cutoff, interval);
    BucketsOnGrid(entries, start, now, interval, b);
    BucketsSummarise(entries, start, now, interval, i);
    SummaryInOrder(b.timestamp, ds);
    DurationsAreOfSlot(results, checkID, cutoff, b.timestamp, b.timestamp + interval);
    SlotIsCounted(results, checkID, cutoff, b.timestamp, b.timestamp + interval);
  }

  /** Buckets start on the grid of the interval, in order; together they count the selected
      results before the end of the last slot, which lies in [now, now + interval); and every
      bucket's figures are in order and those of the selected results in its slot. */
  lemma BucketsAccountForResults(results: seq<CheckResult>, checkID: string, period: int, interval: int, now: Instant)
    requires interval > 0
    ensures var bs, start := Buckets(results, checkID, period, interval, now), TruncateTime(now - period, interval);
      && Spaced(bs, start, now, interval)
      && now - period - interval < start <= now - period
      && TotalCount(bs) == |SlotIndices(results, checkID, now - period, start, LastEnd(start, now, interval))|
      && (start < now ==> now <= LastEnd(start, now, interval) < now + interval)
    ensures forall b :: b in Buckets(results, checkID, period, interval, now) ==>
      InOrder(b) && OnGrid(b.timestamp, interval) && Describes(b, results, checkID, now - period, interval)
  {
    hide DurationsIn, EntriesOf, TruncateTime, BucketsFrom, InOrder, OnGrid, LastEnd, Spaced, SlotIndices, SlotDurations, Describes;
    var cutoff := now - period;
    var entries, start := EntriesOf(results, checkID, cutoff), TruncateTime(cutoff, interval);
    var end := LastEnd(start, now, interval);
    StartBeforeCutoff(cutoff, interval);
    BucketsAreSpaced(entries, start, now, interval);
    CountsAddUp(entries, start, now, interval);
    LastEndCoversNow(start, now, interval);
    DurationsAreOfSlot(results, checkID, cutoff, start, end);
    SlotIsCounted(results, checkID, cutoff, start, end);
    var bs := Buckets(results, checkID, period, interval, now);
    forall b | b in bs
      ensures InOrder(b) && OnGrid(b.timestamp, interval) && Describes(b, results, checkID, cutoff, interval)
    {
      var i :| 0 <= i < |bs| && bs[i] == b;
      BucketDescribes(results, checkID, period, interval, now, i);
    }
  }
}
