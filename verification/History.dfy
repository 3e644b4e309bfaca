/** Metric history of internal/starlink/history.go: raw points with bounded retention,
    minute buckets with incremental means, and hourly means of those.  Times are
    nanoseconds, float64 is `real`, and the clock does not go back. */
module History {

  const SECOND: int := 1_000_000_000
  const MINUTE: int := 60 * SECOND
  const HOUR: int := 60 * MINUTE
  const RAW_RETENTION: int := 2 * HOUR
  const RAW_MAX_POINTS: nat := 960
  const MINUTE_RETENTION: int := 7 * 24 * HOUR

  datatype Metric = Downlink | Uplink | Ping

  datatype Point = Point(time: int, reachable: bool, downlink: real, uplink: real, ping: real) {
    function Get(m: Metric): real {
      match m case Downlink => downlink case Uplink => uplink case Ping => ping
    }
  }

  ghost predicate Sorted(ps: seq<Point>) {
    forall i, j :: 0 <= i <= j < |ps| ==> ps[i].time <= ps[j].time
  }

  ghost predicate Increasing(ps: seq<Point>) {
    forall i, j :: 0 <= i < j < |ps| ==> ps[i].time < ps[j].time
  }

  // -------------------------------------------------------------- grouping by time

  /** time.Truncate. */
  function Slot(t: int, unit: int): int
    requires unit > 0
  {
    t - t % unit
  }

  function Count(ps: seq<Point>, unit: int, slot: int): nat
    requires unit > 0
  {
    if ps == [] then 0
    else Count(ps[..|ps| - 1], unit, slot) + if Slot(ps[|ps| - 1].time, unit) == slot then 1 else 0
  }

  function Sum(ps: seq<Point>, unit: int, slot: int, m: Metric): real
    requires unit > 0
  {
    if ps == [] then 0.0
    else Sum(ps[..|ps| - 1], unit, slot, m) + if Slot(ps[|ps| - 1].time, unit) == slot then ps[|ps| - 1].Get(m) else 0.0
  }

  predicate Any(ps: seq<Point>, unit: int, slot: int)
    requires unit > 0
  {
    exists i :: 0 <= i < |ps| && Slot(ps[i].time, unit) == slot && ps[i].reachable
  }

  lemma CountAppend(ps: seq<Point>, x: Point, unit: int, slot: int, m: Metric)
    requires unit > 0
    ensures Count(ps + [x], unit, slot) == Count(ps, unit, slot) + (if Slot(x.time, unit) == slot then 1 else 0)
    ensures Sum(ps + [x], unit, slot, m) == Sum(ps, unit, slot, m) + (if Slot(x.time, unit) == slot then x.Get(m) else 0.0)
    ensures Any(ps + [x], unit, slot) <==> Any(ps, unit, slot) || (Slot(x.time, unit) == slot && x.reachable)
  {
    hide Slot;
    var all := ps + [x];
    assert all[..|all| - 1] == ps && all[|all| - 1] == x;
    if Any(ps, unit, slot) {
      var i :| 0 <= i < |ps| && Slot(ps[i].time, unit) == slot && ps[i].reachable;
      assert all[i] == ps[i];
    }
  }

  lemma {:induction false} CountZero(ps: seq<Point>, unit: int, slot: int, m: Metric)
    requires unit > 0 && forall i :: 0 <= i < |ps| ==> Slot(ps[i].time, unit) != slot
    ensures Count(ps, unit, slot) == 0 && Sum(ps, unit, slot, m) == 0.0 && !Any(ps, unit, slot)
  {
    hide Slot;
    if ps != [] {
      CountZero(ps[..|ps| - 1], unit, slot, m);
    }
  }

  lemma {:induction false} CountPositive(ps: seq<Point>, unit: int, slot: int, i: nat)
    requires unit > 0 && i < |ps| && Slot(ps[i].time, unit) == slot
    ensures Count(ps, unit, slot) > 0
  {
    hide Slot;
    if i < |ps| - 1 {
      assert ps[..|ps| - 1][i] == ps[i];
      CountPositive(ps[..|ps| - 1], unit, slot, i);
    }
  }

  lemma SlotMonotonic(s: int, t: int, unit: int)
    requires unit > 0 && s <= t
    ensures Slot(s, unit) <= Slot(t, unit) && Slot(s, unit) <= s < Slot(s, unit) + unit
    ensures Slot(s, unit) == (s / unit) * unit
  {
    var a, b := s / unit, t / unit;
    assert s == a * unit + s % unit && t == b * unit + t % unit;
    MulGap(a, b, unit);
    MulGap(b, a, unit);
  }

  lemma MulGap(a: int, b: int, m: int)
    requires m > 0
    ensures a > b ==> a * m >= b * m + m
  {
    if a > b {
      var d := a - b - 1;
      assert d * m >= 0;
      assert a * m == (b + 1 + d) * m == b * m + m + d * m;
    }
  }

  /** A mean of a group lies between bounds of its members. */
  lemma {:induction false} SumBounds(ps: seq<Point>, unit: int, slot: int, m: Metric, lo: real, hi: real)
    requires unit > 0
    requires forall i :: 0 <= i < |ps| && Slot(ps[i].time, unit) == slot ==> lo <= ps[i].Get(m) <= hi
    ensures Between(Count(ps, unit, slot), Sum(ps, unit, slot, m), lo, hi)
  {
    hide Slot, Between;
    NoneBetween(lo, hi);
    if ps != [] {
      var k := |ps| - 1;
      var init := ps[..k];
      assert forall i :: 0 <= i < k ==> init[i] == ps[i];
      SumBounds(init, unit, slot, m, lo, hi);
      if Slot(ps[k].time, unit) == slot {
        BoundStep(Count(init, unit, slot), Sum(init, unit, slot, m), ps[k].Get(m), lo, hi);
      }
    }
  }

  /** A sum of n values from lo..hi. */
  ghost predicate Between(n: nat, sum: real, lo: real, hi: real) {
    lo * n as real <= sum <= hi * n as real
  }

  lemma NoneBetween(lo: real, hi: real)
    ensures Between(0, 0.0, lo, hi)
  {
  }

  lemma BoundStep(n: nat, sum: real, x: real, lo: real, hi: real)
    requires Between(n, sum, lo, hi) && lo <= x <= hi
    ensures Between(n + 1, sum + x, lo, hi)
  {
    var w := n as real;
    assert (n + 1) as real == w + 1.0;
    assert lo * (w + 1.0) == lo * w + lo && hi * (w + 1.0) == hi * w + hi;
  }

  // ---------------------------------------------------------------- minute buckets

  datatype Bucket = Bucket(time: int, reachable: bool, downlink: real, uplink: real, ping: real, samples: nat) {
    function Get(m: Metric): real {
      match m case Downlink => downlink case Uplink => uplink case Ping => ping
    }
  }

  function Mix(mean: real, weight: nat, x: real): real
    requires weight > 0
  {
    ((mean * (weight as real - 1.0)) + x) / weight as real
  }

  /** The branch at lines 166-175. */
  function Refined(b: Bucket, p: Point): Bucket {
    var w := b.samples + 1;
    Bucket(b.time, b.reachable || p.reachable, Mix(b.downlink, w, p.downlink), Mix(b.uplink, w, p.uplink), Mix(b.ping, w, p.ping), w)
  }

  function NewBucket(p: Point): Bucket {
    Bucket(Slot(p.time, MINUTE), p.reachable, p.downlink, p.uplink, p.ping, 1)
  }

  /** Drops the buckets before the first one that is recent enough. */
  function TrimMinutes(bs: seq<Bucket>, cutoff: int): seq<Bucket> {
    if bs != [] && bs[0].time < cutoff then TrimMinutes(bs[1..], cutoff) else bs
  }

  method TrimMinuteHistory(bs: seq<Bucket>, now: int) returns (r: seq<Bucket>)
    ensures r == TrimMinutes(bs, now - MINUTE_RETENTION)
  {
    var cutoff := now - MINUTE_RETENTION;
    var start := 0;
    while start < |bs| && bs[start].time < cutoff
      invariant start <= |bs| && TrimMinutes(bs[start..], cutoff) == TrimMinutes(bs, cutoff)
    {
      assert bs[start..][1..] == bs[start + 1..];
      start := start + 1;
    }
    return bs[start..];
  }

  function UpdateMinutes(bs: seq<Bucket>, p: Point): seq<Bucket> {
    if bs != [] && bs[|bs| - 1].time == Slot(p.time, MINUTE) then
      bs[..|bs| - 1] + [Refined(bs[|bs| - 1], p)]
    else TrimMinutes(bs + [NewBucket(p)], p.time - MINUTE_RETENTION)
  }

  method UpdateMinuteBucket(bs: seq<Bucket>, p: Point) returns (r: seq<Bucket>)
    ensures r == UpdateMinutes(bs, p)
  {
    var minute := Slot(p.time, MINUTE);
    if |bs| > 0 && bs[|bs| - 1].time == minute {
      var bucket := bs[|bs| - 1];
      var weight := bucket.samples + 1;
      bucket := bucket.(samples := weight, reachable := bucket.reachable || p.reachable,
                        downlink := Mix(bucket.downlink, weight, p.downlink),
                        uplink := Mix(bucket.uplink, weight, p.uplink),
                        ping := Mix(bucket.ping, weight, p.ping));
      return bs[..|bs| - 1] + [bucket];
    }
    r := TrimMinuteHistory(bs + [NewBucket(p)], p.time);
  }

  /** The buckets after a run of recordHistory calls, oldest first. */
  function MinutesOf(ps: seq<Point>): seq<Bucket> {
    if ps == [] then [] else UpdateMinutes(MinutesOf(ps[..|ps| - 1]), ps[|ps| - 1])
  }

  /** A bucket summarizes exactly the samples of its minute. */
  ghost predicate Exact(b: Bucket, ps: seq<Point>) {
    && b.samples == Count(ps, MINUTE, b.time) > 0
    && (b.reachable <==> Any(ps, MINUTE, b.time))
    && forall m :: b.Get(m) * b.samples as real == Sum(ps, MINUTE, b.time, m)
  }

  ghost predicate StrictlyIncreasing(bs: seq<Bucket>) {
    forall i, j :: 0 <= i < j < |bs| ==> bs[i].time < bs[j].time
  }

  ghost predicate HasBucket(bs: seq<Bucket>, minute: int) {
    exists k :: 0 <= k < |bs| && bs[k].time == minute
  }

  /** Every minute with samples has its bucket, until it is seven days old. */
  ghost predicate Complete(bs: seq<Bucket>, ps: seq<Point>) {
    forall i :: 0 <= i < |ps| ==>
      HasBucket(bs, Slot(ps[i].time, MINUTE)) || Slot(ps[i].time, MINUTE) < ps[|ps| - 1].time - MINUTE_RETENTION
  }

  ghost predicate GoodMinutes(bs: seq<Bucket>, ps: seq<Point>) {
    && StrictlyIncreasing(bs)
    && (forall k :: 0 <= k < |bs| ==> Exact(bs[k], ps))
    && Complete(bs, ps)
    && (ps == [] ==> bs == [])
    && (ps != [] ==> bs != [] && bs[|bs| - 1].time == Slot(ps[|ps| - 1].time, MINUTE))
  }

  lemma MixIsMean(mean: real, n: nat, sum: real, x: real)
    requires mean * n as real == sum
    ensures Mix(mean, n + 1, x) * (n + 1) as real == sum + x
  {
    var w := (n + 1) as real;
    assert w - 1.0 == n as real;
    assert mean * (w - 1.0) + x == sum + x;
    DivTimes(sum + x, w);
  }

  lemma DivTimes(a: real, w: real)
    requires w > 0.0
    ensures (a / w) * w == a
  {
  }

  lemma RefinedExact(b: Bucket, ps: seq<Point>, p: Point)
    requires Exact(b, ps) && b.time == Slot(p.time, MINUTE)
    ensures Exact(Refined(b, p), ps + [p])
  {
    hide Mix, Slot, Any;
    var r := Refined(b, p);
    forall m ensures r.Get(m) * r.samples as real == Sum(ps + [p], MINUTE, r.time, m) {
      MixIsMean(b.Get(m), b.samples, Sum(ps, MINUTE, b.time, m), p.Get(m));
      CountAppend(ps, p, MINUTE, b.time, m);
    }
    CountAppend(ps, p, MINUTE, b.time, Ping);
  }

  lemma OtherExact(b: Bucket, ps: seq<Point>, p: Point)
    requires Exact(b, ps) && b.time != Slot(p.time, MINUTE)
    ensures Exact(b, ps + [p])
  {
    hide Slot, Any;
    forall m ensures b.Get(m) * b.samples as real == Sum(ps + [p], MINUTE, b.time, m) {
      CountAppend(ps, p, MINUTE, b.time, m);
    }
    CountAppend(ps, p, MINUTE, b.time, Ping);
  }

  lemma NewExact(ps: seq<Point>, p: Point)
    requires forall i :: 0 <= i < |ps| ==> Slot(ps[i].time, MINUTE) != Slot(p.time, MINUTE)
    ensures Exact(NewBucket(p), ps + [p])
  {
    hide Slot, Any;
    var b := NewBucket(p);
    forall m ensures b.Get(m) * b.samples as real == Sum(ps + [p], MINUTE, b.time, m) {
      CountZero(ps, MINUTE, b.time, m);
      CountAppend(ps, p, MINUTE, b.time, m);
    }
    CountZero(ps, MINUTE, b.time, Ping);
    CountAppend(ps, p, MINUTE, b.time, Ping);
  }

  lemma {:induction false} TrimMinutesIs(bs: seq<Bucket>, cutoff: int) returns (k: nat)
    requires StrictlyIncreasing(bs)
    ensures k <= |bs| && TrimMinutes(bs, cutoff) == bs[k..]
    ensures forall i :: 0 <= i < k ==> bs[i].time < cutoff
    ensures k < |bs| ==> bs[k].time >= cutoff
  {
    if bs != [] && bs[0].time < cutoff {
      var j := TrimMinutesIs(bs[1..], cutoff);
      k := j + 1;
      assert bs[1..][j..] == bs[k..];
      assert forall i :: 1 <= i < k ==> bs[i] == bs[1..][i - 1];
    } else {
      k := 0;
    }
  }

  lemma SortedSlots(ps: seq<Point>, unit: int)
    requires Sorted(ps) && unit > 0
    ensures forall i, j :: 0 <= i <= j < |ps| ==> Slot(ps[i].time, unit) <= Slot(ps[j].time, unit)
  {
    hide Slot;
    forall i, j | 0 <= i <= j < |ps| ensures Slot(ps[i].time, unit) <= Slot(ps[j].time, unit) {
      SlotMonotonic(ps[i].time, ps[j].time, unit);
    }
  }

  /** Another sample of the last bucket's minute. */
  lemma SameMinute(bs: seq<Bucket>, ps: seq<Point>, p: Point)
    requires GoodMinutes(bs, ps) && Sorted(ps + [p]) && ps != []
    requires bs[|bs| - 1].time == Slot(p.time, MINUTE)
    ensures GoodMinutes(UpdateMinutes(bs, p), ps + [p])
  {
    hide Slot, Exact, Sorted;
    var k := |bs| - 1;
    var r, all := UpdateMinutes(bs, p), ps + [p];
    RefinedExact(bs[k], ps, p);
    forall i | 0 <= i < |r| ensures Exact(r[i], all) {
      if i < k { OtherExact(bs[i], ps, p); }
    }
    assert LastTimes(ps, p) by { SortedLast(ps, p); }
    forall i | 0 <= i < |all|
      ensures HasBucket(r, Slot(all[i].time, MINUTE)) || Slot(all[i].time, MINUTE) < p.time - MINUTE_RETENTION
    {
      if i < |ps| {
        assert all[i] == ps[i];
        if HasBucket(bs, Slot(ps[i].time, MINUTE)) {
          var j :| 0 <= j < |bs| && bs[j].time == Slot(ps[i].time, MINUTE);
          assert r[j].time == bs[j].time;
        }
      } else {
        assert r[k].time == Slot(all[i].time, MINUTE);
      }
    }
  }

  ghost predicate LastTimes(ps: seq<Point>, p: Point) {
    ps != [] ==> ps[|ps| - 1].time <= p.time
  }

  lemma SortedLast(ps: seq<Point>, p: Point)
    requires Sorted(ps + [p])
    ensures LastTimes(ps, p) && Sorted(ps)
  {
    var all := ps + [p];
    assert forall i :: 0 <= i < |ps| ==> all[i] == ps[i];
    assert all[|ps|] == p;
    if ps != [] { assert all[|ps| - 1].time <= all[|ps|].time; }
  }

  /** The first sample of a later minute comes after every bucket and every sample. */
  lemma LaterMinute(bs: seq<Bucket>, ps: seq<Point>, p: Point)
    requires GoodMinutes(bs, ps) && Sorted(ps + [p])
    requires bs == [] || bs[|bs| - 1].time != Slot(p.time, MINUTE)
    ensures forall i :: 0 <= i < |ps| ==> Slot(ps[i].time, MINUTE) < Slot(p.time, MINUTE)
    ensures forall k :: 0 <= k < |bs| ==> bs[k].time < Slot(p.time, MINUTE)
  {
    hide Slot, Exact, Complete;
    var all := ps + [p];
    SortedSlots(all, MINUTE);
    if ps != [] {
      var n := |ps| - 1;
      assert all[n] == ps[n] && all[n + 1] == p;
      forall i | 0 <= i < |ps| ensures Slot(ps[i].time, MINUTE) < Slot(p.time, MINUTE) {
        assert all[i] == ps[i];
      }
      forall k | 0 <= k < |bs| ensures bs[k].time < Slot(p.time, MINUTE) {
        if k < |bs| - 1 { assert bs[k].time < bs[|bs| - 1].time; }
      }
    }
  }

  lemma GrownIncreases(bs: seq<Bucket>, b: Bucket)
    requires StrictlyIncreasing(bs) && forall i :: 0 <= i < |bs| ==> bs[i].time < b.time
    ensures StrictlyIncreasing(bs + [b])
  {
  }

  /** The buckets with that of a later minute appended and the old ones trimmed. */
  lemma Grown(bs: seq<Bucket>, p: Point) returns (k: nat)
    requires StrictlyIncreasing(bs) && forall i :: 0 <= i < |bs| ==> bs[i].time < Slot(p.time, MINUTE)
    requires bs == [] || bs[|bs| - 1].time != Slot(p.time, MINUTE)
    ensures k <= |bs| && UpdateMinutes(bs, p) == bs[k..] + [NewBucket(p)]
    ensures forall i :: 0 <= i < k ==> bs[i].time < p.time - MINUTE_RETENTION
  {
    hide Slot, TrimMinutes, StrictlyIncreasing, UpdateMinutes;
    var b, cutoff := NewBucket(p), p.time - MINUTE_RETENTION;
    GrownIncreases(bs, b);
    assert b.time >= cutoff by { SlotMonotonic(p.time, p.time, MINUTE); }
    OpensMinute(bs, p);
    k := TrimMinutesIs(bs + [b], cutoff);
    GrownSuffix(bs, b, cutoff, k);
  }

  lemma OpensMinute(bs: seq<Bucket>, p: Point)
    requires bs == [] || bs[|bs| - 1].time != Slot(p.time, MINUTE)
    ensures UpdateMinutes(bs, p) == TrimMinutes(bs + [NewBucket(p)], p.time - MINUTE_RETENTION)
  {
    hide Slot, TrimMinutes, Refined;
  }

  lemma GrownSuffix(bs: seq<Bucket>, b: Bucket, cutoff: int, k: nat)
    requires k <= |bs + [b]| && b.time >= cutoff && forall i :: 0 <= i < k ==> (bs + [b])[i].time < cutoff
    ensures k <= |bs| && (bs + [b])[k..] == bs[k..] + [b]
    ensures forall i :: 0 <= i < k ==> bs[i].time < cutoff
  {
    var grown := bs + [b];
    assert grown[|bs|] == b;
    assert forall i :: 0 <= i < k ==> bs[i] == grown[i];
  }

  lemma GrownExact(bs: seq<Bucket>, ps: seq<Point>, p: Point, k: nat)
    requires k <= |bs| && forall i :: 0 <= i < |bs| ==> Exact(bs[i], ps) && bs[i].time != Slot(p.time, MINUTE)
    requires forall i :: 0 <= i < |ps| ==> Slot(ps[i].time, MINUTE) != Slot(p.time, MINUTE)
    ensures var r := bs[k..] + [NewBucket(p)]; forall i :: 0 <= i < |r| ==> Exact(r[i], ps + [p])
  {
    hide Slot, Exact, NewBucket;
    var r := bs[k..] + [NewBucket(p)];
    forall i | 0 <= i < |r| ensures Exact(r[i], ps + [p]) {
      if k + i < |bs| { OtherExact(bs[k + i], ps, p); } else { NewExact(ps, p); }
    }
  }

  lemma GrownComplete(bs: seq<Bucket>, ps: seq<Point>, p: Point, k: nat)
    requires k <= |bs| && Complete(bs, ps) && LastTimes(ps, p)
    requires forall i :: 0 <= i < k ==> bs[i].time < p.time - MINUTE_RETENTION
    ensures Complete(bs[k..] + [NewBucket(p)], ps + [p])
  {
    hide Slot;
    var r, all := bs[k..] + [NewBucket(p)], ps + [p];
    forall i | 0 <= i < |all|
      ensures HasBucket(r, Slot(all[i].time, MINUTE)) || Slot(all[i].time, MINUTE) < p.time - MINUTE_RETENTION
    {
      if i < |ps| {
        assert all[i] == ps[i];
        if HasBucket(bs, Slot(ps[i].time, MINUTE)) {
          var j :| 0 <= j < |bs| && bs[j].time == Slot(ps[i].time, MINUTE);
          if j >= k { assert r[j - k].time == bs[j].time; }
        }
      } else {
        assert r[|r| - 1].time == Slot(all[i].time, MINUTE);
      }
    }
  }

  lemma NextMinute(bs: seq<Bucket>, ps: seq<Point>, p: Point)
    requires GoodMinutes(bs, ps) && Sorted(ps + [p])
    requires bs == [] || bs[|bs| - 1].time != Slot(p.time, MINUTE)
    ensures GoodMinutes(UpdateMinutes(bs, p), ps + [p])
  {
    hide Slot, Exact, Sorted, Complete, UpdateMinutes;
    LaterMinute(bs, ps, p);
    SortedLast(ps, p);
    var k := Grown(bs, p);
    GrownExact(bs, ps, p, k);
    GrownComplete(bs, ps, p, k);
  }

  /** Over any run with a nondecreasing clock the minute buckets are strictly
      increasing, each holds the exact count, mean and reachability of all samples
      of its minute, and every minute of the last seven days that has samples has
      its bucket. */
  lemma {:induction false} MinutesAreExact(ps: seq<Point>)
    requires Sorted(ps)
    ensures GoodMinutes(MinutesOf(ps), ps)
  {
    hide GoodMinutes, UpdateMinutes, Slot, Sorted;
    if ps == [] {
      assert GoodMinutes([], []) by { NoMinutes(); }
    } else {
      var init, p := ps[..|ps| - 1], ps[|ps| - 1];
      assert ps == init + [p];
      SortedLast(init, p);
      MinutesAreExact(init);
      var bs := MinutesOf(init);
      LastBucket(bs, init);
      if bs != [] && bs[|bs| - 1].time == Slot(p.time, MINUTE) {
        SameMinute(bs, init, p);
      } else {
        NextMinute(bs, init, p);
      }
    }
  }

  lemma NoMinutes()
    ensures GoodMinutes([], [])
  {
  }

  lemma LastBucket(bs: seq<Bucket>, ps: seq<Point>)
    requires GoodMinutes(bs, ps)
    ensures ps == [] <==> bs == []
  {
  }

  // ------------------------------------------------------------------ hourly means

  function AsPoint(b: Bucket): Point {
    Point(b.time, b.reachable, b.downlink, b.uplink, b.ping)
  }

  /** minuteBucketsAsPoints(filterMinutesSince(buckets, since)). */
  function RecentPoints(bs: seq<Bucket>, since: int): seq<Point> {
    if bs == [] then []
    else (if bs[0].time >= since then [AsPoint(bs[0])] else []) + RecentPoints(bs[1..], since)
  }

  ghost predicate FromBucket(p: Point, bs: seq<Bucket>, since: int) {
    exists k :: 0 <= k < |bs| && bs[k].time >= since && p == AsPoint(bs[k])
  }

  /** Those points are exactly the buckets in the window. */
  lemma {:induction false} RecentPointsAre(bs: seq<Bucket>, since: int, p: Point)
    ensures p in RecentPoints(bs, since) <==> FromBucket(p, bs, since)
  {
    hide AsPoint;
    if bs != [] {
      var rest := bs[1..];
      RecentPointsAre(rest, since, p);
      if FromBucket(p, rest, since) {
        var k :| 0 <= k < |rest| && rest[k].time >= since && p == AsPoint(rest[k]);
        assert rest[k] == bs[k + 1];
      }
      if FromBucket(p, bs, since) {
        var k :| 0 <= k < |bs| && bs[k].time >= since && p == AsPoint(bs[k]);
        if k > 0 { assert rest[k - 1] == bs[k]; }
      }
      if bs[0].time >= since && p == AsPoint(bs[0]) {
        assert FromBucket(p, bs, since);
      }
    }
  }

  lemma {:induction false} RecentPointsSorted(bs: seq<Bucket>, since: int)
    requires StrictlyIncreasing(bs)
    ensures Sorted(RecentPoints(bs, since)) && Increasing(RecentPoints(bs, since))
  {
    if bs != [] {
      var rest := bs[1..];
      assert forall k :: 0 <= k < |rest| ==> rest[k] == bs[k + 1];
      RecentPointsSorted(rest, since);
      var qs := RecentPoints(rest, since);
      forall i | 0 <= i < |qs| ensures AsPoint(bs[0]).time < qs[i].time {
        RecentPointLater(bs, since, i);
      }
      hide StrictlyIncreasing, Sorted, Increasing;
      EarlierFirst(AsPoint(bs[0]), qs);
      assert [] + qs == qs;
    }
  }

  lemma EarlierFirst(p: Point, qs: seq<Point>)
    requires Increasing(qs) && forall i :: 0 <= i < |qs| ==> p.time < qs[i].time
    ensures Sorted([p] + qs) && Increasing([p] + qs)
  {
  }

  lemma RecentPointLater(bs: seq<Bucket>, since: int, i: nat)
    requires bs != [] && StrictlyIncreasing(bs) && i < |RecentPoints(bs[1..], since)|
    ensures bs[0].time < RecentPoints(bs[1..], since)[i].time
  {
    var rest := bs[1..];
    var q := RecentPoints(rest, since)[i];
    hide RecentPoints;
    assert q in RecentPoints(rest, since);
    RecentPointsAre(rest, since, q);
    var k :| 0 <= k < |rest| && rest[k].time >= since && q == AsPoint(rest[k]);
    assert bs[0].time < bs[k + 1].time;
  }

  /** An hourly value is the mean of the points of its hour. */
  ghost predicate HourExact(o: Point, ps: seq<Point>) {
    && Count(ps, HOUR, o.time) > 0
    && (o.reachable <==> Any(ps, HOUR, o.time))
    && forall m :: o.Get(m) * Count(ps, HOUR, o.time) as real == Sum(ps, HOUR, o.time, m)
  }

  ghost predicate HasTime(out: seq<Point>, time: int) {
    exists k :: 0 <= k < |out| && out[k].time == time
  }

  /** The open hour: its sums so far. */
  ghost predicate Summing(b: Point, samples: nat, ps: seq<Point>, open: int) {
    && b.time == open && samples == Count(ps, HOUR, open) > 0
    && (b.reachable <==> Any(ps, HOUR, open))
    && forall m :: b.Get(m) == Sum(ps, HOUR, open, m)
  }

  function Divided(b: Point, samples: nat): Point
    requires samples > 0
  {
    var w := samples as real;
    Point(b.time, b.reachable, b.downlink / w, b.uplink / w, b.ping / w)
  }

  lemma FlushExact(b: Point, samples: nat, ps: seq<Point>, open: int)
    requires Summing(b, samples, ps, open)
    ensures HourExact(Divided(b, samples), ps)
  {
    hide Any, Slot;
    var o := Divided(b, samples);
    forall m ensures o.Get(m) * samples as real == Sum(ps, HOUR, open, m) {
      DivTimes(b.Get(m), samples as real);
    }
  }

  lemma SummingStays(b: Point, samples: nat, ps: seq<Point>, p: Point, open: int)
    requires Summing(b, samples, ps, open) && Slot(p.time, HOUR) == open
    ensures Summing(Accumulated(b, p), samples + 1, ps + [p], open)
  {
    hide Any, Slot;
    var r := Accumulated(b, p);
    forall m ensures r.Get(m) == Sum(ps + [p], HOUR, open, m) {
      CountAppend(ps, p, HOUR, open, m);
    }
    CountAppend(ps, p, HOUR, open, Ping);
  }

  function Accumulated(b: Point, p: Point): Point {
    Point(b.time, b.reachable || p.reachable, b.downlink + p.downlink, b.uplink + p.uplink, b.ping + p.ping)
  }

  lemma OpenedSums(ps: seq<Point>, p: Point, hour: int)
    requires hour == Slot(p.time, HOUR) && forall i :: 0 <= i < |ps| ==> Slot(ps[i].time, HOUR) != hour
    ensures Summing(Accumulated(Point(hour, p.reachable, 0.0, 0.0, 0.0), p), 1, ps + [p], hour)
  {
    hide Slot, Any;
    var b := Accumulated(Point(hour, p.reachable, 0.0, 0.0, 0.0), p);
    forall m ensures b.Get(m) == Sum(ps + [p], HOUR, hour, m) {
      CountZero(ps, HOUR, hour, m);
      CountAppend(ps, p, HOUR, hour, m);
    }
    CountZero(ps, HOUR, hour, Ping);
    CountAppend(ps, p, HOUR, hour, Ping);
  }

  /** One hourly value per hour that has points, in order, each the mean of its points. */
  ghost predicate GoodHours(out: seq<Point>, ps: seq<Point>) {
    && (forall k :: 0 <= k < |out| ==> HourExact(out[k], ps))
    && Increasing(out)
    && (forall i :: 0 <= i < |ps| ==> HasTime(out, Slot(ps[i].time, HOUR)))
  }

  /** Consecutive points of one hour, and the mean of them. */
  ghost predicate IsRun(run: seq<Point>, o: Point) {
    run != [] && InHour(run, o.time) && HourExact(o, run)
  }

  ghost predicate InHour(run: seq<Point>, hour: int) {
    forall i :: 0 <= i < |run| ==> Slot(run[i].time, HOUR) == hour
  }

  ghost predicate RunAt(out: seq<Point>, points: seq<Point>, cuts: seq<nat>, k: nat)
    requires k < |out| && |cuts| == |out| + 1
  {
    cuts[k] < cuts[k + 1] <= |points| && IsRun(points[cuts[k]..cuts[k + 1]], out[k])
  }

  /** The first `end` points are cut into maximal runs of one hour, one value each. */
  ghost predicate Runs(out: seq<Point>, points: seq<Point>, cuts: seq<nat>, end: nat) {
    && |cuts| == |out| + 1 && cuts[0] == 0 && cuts[|out|] == end <= |points|
    && (forall k :: 0 <= k < |out| ==> RunAt(out, points, cuts, k))
    && (forall k :: 0 < k < |out| ==> out[k - 1].time != out[k].time)
  }

  lemma NextRun(out: seq<Point>, points: seq<Point>, cuts: seq<nat>, start: nat, end: nat, o: Point)
    requires Runs(out, points, cuts, start) && start < end <= |points| && IsRun(points[start..end], o)
    requires out != [] ==> out[|out| - 1].time != o.time
    ensures Runs(out + [o], points, cuts + [end], end)
  {
    hide IsRun;
    var more, c := out + [o], cuts + [end];
    forall k | 0 <= k < |more| ensures RunAt(more, points, c, k) {
      if k < |out| { assert RunAt(out, points, cuts, k); }
    }
  }

  /** aggregateHourly: for any points, one value per maximal run of one hour, each the
      mean and the reachability of its run; when the points are in order, one value
      per hour. */
  method AggregateHourly(points: seq<Point>) returns (out: seq<Point>, ghost cuts: seq<nat>)
    ensures Runs(out, points, cuts, |points|)
    ensures Sorted(points) ==> GoodHours(out, points)
  {
    hide Slot, Summing, HourExact, Accumulated, Divided, GoodHours, Runs, IsRun, InHour, Sorted;
    out, cuts := [], [0];
    var bucket, samples, currentHour := Point(0, false, 0.0, 0.0, 0.0), 0, 0;
    ghost var start := 0;
    NoRuns(points);
    for i := 0 to |points|
      invariant start <= i && (samples == 0 <==> start == i) && (i == 0 <==> samples == 0) && (i == 0 ==> out == [])
      invariant Runs(out, points, cuts, start)
      invariant samples > 0 ==> Summing(bucket, samples, points[start..i], currentHour) && InHour(points[start..i], currentHour)
      invariant samples > 0 && out != [] ==> out[|out| - 1].time != currentHour
    {
      var point := points[i];
      var hour := Slot(point.time, HOUR);
      if samples > 0 && hour != currentHour {
        Flushed(bucket, samples, points[start..i], currentHour);
        NextRun(out, points, cuts, start, i, Divided(bucket, samples));
        out, cuts := out + [Divided(bucket, samples)], cuts + [i];
        assert out[|out| - 1].time != hour;
        samples := 0;
        start := i;
      }
      if samples == 0 {
        currentHour := hour;
        bucket := Point(hour, point.reachable, 0.0, 0.0, 0.0);
        assert points[i..i + 1] == [] + [point];
        OpenedSums([], point, hour);
        OneInHour(point);
      } else {
        assert points[start..i + 1] == points[start..i] + [point];
        SummingStays(bucket, samples, points[start..i], point, currentHour);
        MoreInHour(points[start..i], point, currentHour);
      }
      samples := samples + 1;
      bucket := Accumulated(bucket, point);
    }
    if samples > 0 {
      Flushed(bucket, samples, points[start..|points|], currentHour);
      NextRun(out, points, cuts, start, |points|, Divided(bucket, samples));
      out, cuts := out + [Divided(bucket, samples)], cuts + [|points|];
    }
    if Sorted(points) { SortedRuns(out, points, cuts); }
  }

  lemma NoRuns(points: seq<Point>)
    ensures Runs([], points, [0], 0)
  {
  }

  lemma OneInHour(p: Point)
    ensures InHour([] + [p], Slot(p.time, HOUR))
  {
  }

  lemma MoreInHour(run: seq<Point>, p: Point, hour: int)
    requires InHour(run, hour) && Slot(p.time, HOUR) == hour
    ensures InHour(run + [p], hour)
  {
  }

  lemma Flushed(b: Point, samples: nat, run: seq<Point>, hour: int)
    requires samples > 0 && run != [] && Summing(b, samples, run, hour) && InHour(run, hour)
    ensures IsRun(run, Divided(b, samples)) && Divided(b, samples).time == hour
  {
    hide Summing, HourExact, InHour, Divided;
    FlushExact(b, samples, run, hour);
    SummingTime(b, samples, run, hour);
  }

  // ------------------------------------------------- runs of points that are in order

  lemma {:induction false} CountConcat(a: seq<Point>, b: seq<Point>, unit: int, slot: int, m: Metric)
    requires unit > 0
    ensures Count(a + b, unit, slot) == Count(a, unit, slot) + Count(b, unit, slot)
    ensures Sum(a + b, unit, slot, m) == Sum(a, unit, slot, m) + Sum(b, unit, slot, m)
    ensures Any(a + b, unit, slot) <==> Any(a, unit, slot) || Any(b, unit, slot)
  {
    if b == [] {
      assert a + b == a;
    } else {
      var init, x := b[..|b| - 1], b[|b| - 1];
      assert a + b == (a + init) + [x] && b == init + [x];
      hide Slot, Any, Count, Sum;
      CountConcat(a, init, unit, slot, m);
      CountAppend(a + init, x, unit, slot, m);
      CountAppend(init, x, unit, slot, m);
    }
  }

  /** Points of other hours around a run do not change its mean. */
  lemma RunAlone(a: seq<Point>, run: seq<Point>, b: seq<Point>, o: Point)
    requires HourExact(o, run)
    requires forall i :: 0 <= i < |a| ==> Slot(a[i].time, HOUR) != o.time
    requires forall i :: 0 <= i < |b| ==> Slot(b[i].time, HOUR) != o.time
    ensures HourExact(o, a + run + b)
  {
    hide Slot, Any, Count, Sum;
    forall m ensures o.Get(m) * Count(a + run + b, HOUR, o.time) as real == Sum(a + run + b, HOUR, o.time, m) {
      AloneCounts(a, run, b, o.time, m);
    }
    AloneCounts(a, run, b, o.time, Ping);
  }

  lemma AloneCounts(a: seq<Point>, run: seq<Point>, b: seq<Point>, hour: int, m: Metric)
    requires forall i :: 0 <= i < |a| ==> Slot(a[i].time, HOUR) != hour
    requires forall i :: 0 <= i < |b| ==> Slot(b[i].time, HOUR) != hour
    ensures Count(a + run + b, HOUR, hour) == Count(run, HOUR, hour)
    ensures Sum(a + run + b, HOUR, hour, m) == Sum(run, HOUR, hour, m)
    ensures Any(a + run + b, HOUR, hour) <==> Any(run, HOUR, hour)
  {
    hide Slot, Any, Count, Sum;
    CountConcat(a + run, b, HOUR, hour, m);
    CountConcat(a, run, HOUR, hour, m);
    CountZero(a, HOUR, hour, m);
    CountZero(b, HOUR, hour, m);
  }

  lemma RunHour(out: seq<Point>, points: seq<Point>, cuts: seq<nat>, k: nat, i: nat)
    requires k < |out| && |cuts| == |out| + 1 && RunAt(out, points, cuts, k) && cuts[k] <= i < cuts[k + 1]
    ensures Slot(points[i].time, HOUR) == out[k].time
  {
    hide Slot, HourExact;
    var run := points[cuts[k]..cuts[k + 1]];
    assert run[i - cuts[k]] == points[i];
  }

  lemma {:induction false} RunTimes(out: seq<Point>, points: seq<Point>, cuts: seq<nat>, j: nat, k: nat)
    requires Runs(out, points, cuts, |points|) && Sorted(points) && j < k < |out|
    ensures out[j].time < out[k].time
    decreases k
  {
    hide Slot, IsRun, Sorted;
    SortedSlots(points, HOUR);
    assert RunAt(out, points, cuts, k - 1) && RunAt(out, points, cuts, k);
    RunHour(out, points, cuts, k - 1, cuts[k - 1]);
    RunHour(out, points, cuts, k, cuts[k]);
    if j < k - 1 { RunTimes(out, points, cuts, j, k - 1); }
  }

  lemma RunIsHour(out: seq<Point>, points: seq<Point>, cuts: seq<nat>, k: nat)
    requires Runs(out, points, cuts, |points|) && Sorted(points) && k < |out|
    ensures HourExact(out[k], points)
  {
    hide Slot, Sorted, HourExact, InHour;
    SortedSlots(points, HOUR);
    assert RunAt(out, points, cuts, k);
    var p, q := cuts[k], cuts[k + 1];
    var a, run, b := points[..p], points[p..q], points[q..];
    assert k > 0 ==> RunAt(out, points, cuts, k - 1);
    assert k + 1 < |out| ==> RunAt(out, points, cuts, k + 1);
    assert points == a + run + b;
    forall i | 0 <= i < |a| ensures Slot(a[i].time, HOUR) != out[k].time {
      if k > 0 {
        RunHour(out, points, cuts, k - 1, p - 1);
        RunTimes(out, points, cuts, k - 1, k);
        assert a[i] == points[i];
      }
    }
    forall i | 0 <= i < |b| ensures Slot(b[i].time, HOUR) != out[k].time {
      if k + 1 < |out| {
        RunHour(out, points, cuts, k + 1, q);
        RunTimes(out, points, cuts, k, k + 1);
        assert b[i] == points[q + i];
      }
    }
    RunAlone(a, run, b, out[k]);
  }

  lemma {:induction false} FindRun(out: seq<Point>, points: seq<Point>, cuts: seq<nat>, i: nat, k: nat)
    requires Runs(out, points, cuts, |points|) && k < |out| && i < cuts[k + 1] && i < |points|
    ensures HasTime(out, Slot(points[i].time, HOUR))
  {
    hide Slot, IsRun;
    assert RunAt(out, points, cuts, k);
    if cuts[k] <= i {
      RunHour(out, points, cuts, k, i);
    } else {
      FindRun(out, points, cuts, i, k - 1);
    }
  }

  lemma SortedRuns(out: seq<Point>, points: seq<Point>, cuts: seq<nat>)
    requires Runs(out, points, cuts, |points|) && Sorted(points)
    ensures GoodHours(out, points)
  {
    hide Slot, IsRun, HourExact, Sorted, HasTime;
    forall k | 0 <= k < |out| ensures HourExact(out[k], points) { RunIsHour(out, points, cuts, k); }
    forall i, j | 0 <= i < j < |out| ensures out[i].time < out[j].time { RunTimes(out, points, cuts, i, j); }
    forall i | 0 <= i < |points| ensures HasTime(out, Slot(points[i].time, HOUR)) {
      FindRun(out, points, cuts, i, |out| - 1);
    }
  }

  lemma SummingTime(b: Point, samples: nat, ps: seq<Point>, open: int)
    requires Summing(b, samples, ps, open)
    ensures samples > 0 && Divided(b, samples).time == open
  {
  }

  /** historyForRangeLocked for "7d": the hourly values of a run, one for each hour of
      the retained window that has a minute bucket. */
  method WeekHistory(ghost ps: seq<Point>, bs: seq<Bucket>, now: int) returns (out: seq<Point>)
    requires Sorted(ps) && bs == MinutesOf(ps)
    ensures GoodHours(out, RecentPoints(bs, now - MINUTE_RETENTION))
    ensures WithinSamples(out, ps, now - MINUTE_RETENTION)
  {
    hide *;
    assert StrictlyIncreasing(bs) by { MinutesAreExact(ps); GoodParts(bs, ps); }
    RecentPointsSorted(bs, now - MINUTE_RETENTION);
    ghost var cuts: seq<nat>;
    out, cuts := AggregateHourly(RecentPoints(bs, now - MINUTE_RETENTION));
    HoursWithin(out, ps, now - MINUTE_RETENTION);
  }

  /** Each value lies between any bounds on the samples it is made of. */
  ghost predicate WithinSamples(out: seq<Point>, ps: seq<Point>, since: int) {
    forall k, m, lo, hi :: 0 <= k < |out| && HourWithin(ps, since, out[k].time, m, lo, hi) ==> lo <= out[k].Get(m) <= hi
  }

  lemma HoursWithin(out: seq<Point>, ps: seq<Point>, since: int)
    requires Sorted(ps) && GoodHours(out, RecentPoints(MinutesOf(ps), since))
    ensures WithinSamples(out, ps, since)
  {
    hide Sorted, GoodHours, RecentPoints, MinutesOf, HourWithin;
    forall k, m, lo, hi | 0 <= k < |out| && HourWithin(ps, since, out[k].time, m, lo, hi)
      ensures lo <= out[k].Get(m) <= hi
    {
      GoodHour(out, RecentPoints(MinutesOf(ps), since), k);
      HourlyBetween(ps, since, out[k], m, lo, hi);
    }
  }

  lemma GoodHour(out: seq<Point>, ps: seq<Point>, k: nat)
    requires GoodHours(out, ps) && k < |out|
    ensures HourExact(out[k], ps)
  {
  }

  lemma GoodParts(bs: seq<Bucket>, ps: seq<Point>)
    requires GoodMinutes(bs, ps)
    ensures StrictlyIncreasing(bs) && forall k :: 0 <= k < |bs| ==> Exact(bs[k], ps)
  {
  }

  /** Bounds on the samples recorded in the minutes of one hour that are in the window. */
  ghost predicate HourWithin(ps: seq<Point>, since: int, hour: int, m: Metric, lo: real, hi: real) {
    forall i :: 0 <= i < |ps| && Slot(Slot(ps[i].time, MINUTE), HOUR) == hour && Slot(ps[i].time, MINUTE) >= since ==>
      lo <= ps[i].Get(m) <= hi
  }

  /** Each hourly value lies between any bounds on the samples recorded in the
      minutes it is made of. */
  lemma HourlyBetween(ps: seq<Point>, since: int, o: Point, m: Metric, lo: real, hi: real)
    requires Sorted(ps)
    requires HourExact(o, RecentPoints(MinutesOf(ps), since))
    requires HourWithin(ps, since, o.time, m, lo, hi)
    ensures lo <= o.Get(m) <= hi
  {
    hide MinutesOf, RecentPoints, Slot, Sum, Count, GoodMinutes, HourExact, Sorted;
    var bs := MinutesOf(ps);
    var qs := RecentPoints(bs, since);
    assert GoodMinutes(bs, ps) by { MinutesAreExact(ps); }
    forall i | 0 <= i < |qs| && Slot(qs[i].time, HOUR) == o.time ensures lo <= qs[i].Get(m) <= hi {
      assert qs[i] in qs;
      PointBetween(bs, ps, since, qs[i], m, lo, hi);
    }
    SumBounds(qs, HOUR, o.time, m, lo, hi);
    HourTotal(o, qs, m);
    CancelBounds(o.Get(m), Sum(qs, HOUR, o.time, m), Count(qs, HOUR, o.time), lo, hi);
  }

  lemma HourTotal(o: Point, ps: seq<Point>, m: Metric)
    requires HourExact(o, ps)
    ensures Count(ps, HOUR, o.time) > 0 && o.Get(m) * Count(ps, HOUR, o.time) as real == Sum(ps, HOUR, o.time, m)
  {
    hide Count, Sum, Any, Slot;
  }

  lemma PointBetween(bs: seq<Bucket>, ps: seq<Point>, since: int, p: Point, m: Metric, lo: real, hi: real)
    requires GoodMinutes(bs, ps) && p in RecentPoints(bs, since)
    requires HourWithin(ps, since, Slot(p.time, HOUR), m, lo, hi)
    ensures lo <= p.Get(m) <= hi
  {
    hide Slot, Exact, StrictlyIncreasing, Complete, RecentPoints;
    RecentPointsAre(bs, since, p);
    var k :| 0 <= k < |bs| && bs[k].time >= since && p == AsPoint(bs[k]);
    BucketBetween(bs[k], ps, m, lo, hi);
  }

  lemma BucketBetween(b: Bucket, ps: seq<Point>, m: Metric, lo: real, hi: real)
    requires Exact(b, ps)
    requires forall i :: 0 <= i < |ps| && Slot(ps[i].time, MINUTE) == b.time ==> lo <= ps[i].Get(m) <= hi
    ensures lo <= b.Get(m) <= hi
  {
    hide Slot, Any, Sum, Count;
    SumBounds(ps, MINUTE, b.time, m, lo, hi);
    assert b.Get(m) * b.samples as real == Sum(ps, MINUTE, b.time, m) && b.samples == Count(ps, MINUTE, b.time);
    CancelBounds(b.Get(m), Sum(ps, MINUTE, b.time, m), b.samples, lo, hi);
  }

  lemma MulLess(x: real, y: real, w: real)
    requires w > 0.0
    ensures x < y ==> x * w < y * w
  {
    if x < y { assert (y - x) * w > 0.0; }
  }

  lemma CancelBounds(x: real, total: real, n: nat, lo: real, hi: real)
    requires n > 0 && x * n as real == total && Between(n, total, lo, hi)
    ensures lo <= x <= hi
  {
    var w := n as real;
    MulLess(x, lo, w);
    MulLess(hi, x, w);
  }

  // ----------------------------------------------------- what a query says of the samples

  /** The buckets still hold everything from `since` on. */
  predicate Retained(ps: seq<Point>, since: int) {
    ps != [] ==> ps[|ps| - 1].time - MINUTE_RETENTION <= since
  }

  predicate InWindow(p: Point, since: int) {
    Slot(p.time, MINUTE) >= since
  }

  /** A point is the exact mean of all samples of its minute, and reachable if and only
      if one of them is. */
  ghost predicate MinuteValue(o: Point, ps: seq<Point>) {
    && Count(ps, MINUTE, o.time) > 0
    && (o.reachable <==> exists i :: 0 <= i < |ps| && Slot(ps[i].time, MINUTE) == o.time && ps[i].reachable)
    && forall m :: o.Get(m) * Count(ps, MINUTE, o.time) as real == Sum(ps, MINUTE, o.time, m)
  }

  /** One such point, in order, for each minute of the window that has samples. */
  ghost predicate MinuteValues(out: seq<Point>, ps: seq<Point>, since: int) {
    && Increasing(out)
    && (forall o :: o in out ==> o.time >= since && MinuteValue(o, ps))
    && (forall i :: 0 <= i < |ps| && InWindow(ps[i], since) ==> HasTime(out, Slot(ps[i].time, MINUTE)))
  }

  /** The 24-hour query, said of the samples. */
  lemma DayIsExact(ps: seq<Point>, since: int)
    requires Sorted(ps) && Retained(ps, since)
    ensures MinuteValues(RecentPoints(MinutesOf(ps), since), ps, since)
  {
    hide MinutesOf, RecentPoints, Sorted, Slot, MinuteValue, HasTime;
    var bs := MinutesOf(ps);
    var out := RecentPoints(bs, since);
    MinutesAreExact(ps);
    assert StrictlyIncreasing(bs) by { GoodParts(bs, ps); }
    RecentPointsSorted(bs, since);
    forall o | o in out ensures o.time >= since && MinuteValue(o, ps) {
      RecentIsExact(bs, ps, since, o);
    }
    forall i | 0 <= i < |ps| && InWindow(ps[i], since) ensures HasTime(out, Slot(ps[i].time, MINUTE)) {
      var o := WindowHas(bs, ps, since, i);
    }
  }

  lemma RecentIsExact(bs: seq<Bucket>, ps: seq<Point>, since: int, o: Point)
    requires GoodMinutes(bs, ps) && o in RecentPoints(bs, since)
    ensures o.time >= since && MinuteValue(o, ps)
  {
    hide Slot, Count, Sum, RecentPoints, Complete, StrictlyIncreasing;
    RecentPointsAre(bs, since, o);
    var k :| 0 <= k < |bs| && bs[k].time >= since && o == AsPoint(bs[k]);
    SameValues(bs[k], ps);
  }

  lemma SameValues(b: Bucket, ps: seq<Point>)
    requires Exact(b, ps)
    ensures MinuteValue(AsPoint(b), ps)
  {
    hide Slot, Count, Sum;
  }

  /** The point of a sample's minute. */
  lemma WindowHas(bs: seq<Bucket>, ps: seq<Point>, since: int, i: nat) returns (o: Point)
    requires GoodMinutes(bs, ps) && Retained(ps, since) && i < |ps| && InWindow(ps[i], since)
    ensures o in RecentPoints(bs, since) && o.time == Slot(ps[i].time, MINUTE) && HasTime(RecentPoints(bs, since), o.time)
  {
    hide Slot, Exact, RecentPoints, StrictlyIncreasing;
    var k :| 0 <= k < |bs| && bs[k].time == Slot(ps[i].time, MINUTE);
    o := AsPoint(bs[k]);
    RecentPointsAre(bs, since, o);
    var out := RecentPoints(bs, since);
    var j :| 0 <= j < |out| && out[j] == o;
  }

  /** The samples of an hourly value: those of the window's minutes in that hour. */
  predicate InHourOf(p: Point, since: int, hour: int) {
    InWindow(p, since) && Slot(Slot(p.time, MINUTE), HOUR) == hour
  }

  ghost predicate HourReachable(ps: seq<Point>, since: int, hour: int) {
    exists i :: 0 <= i < |ps| && InHourOf(ps[i], since, hour) && ps[i].reachable
  }

  /** One value, in order, for each hour that has samples in the window, reachable if and
      only if one of them is. */
  ghost predicate HourValues(out: seq<Point>, ps: seq<Point>, since: int) {
    && Increasing(out)
    && (forall o :: o in out ==> (o.reachable <==> HourReachable(ps, since, o.time)))
    && (forall i :: 0 <= i < |ps| && InWindow(ps[i], since) ==> HasTime(out, Slot(Slot(ps[i].time, MINUTE), HOUR)))
  }

  /** The seven-day query, said of the samples; `WithinSamples` bounds the values. */
  lemma WeekIsComplete(out: seq<Point>, ps: seq<Point>, since: int)
    requires Sorted(ps) && Retained(ps, since) && GoodHours(out, RecentPoints(MinutesOf(ps), since))
    ensures HourValues(out, ps, since)
  {
    hide MinutesOf, RecentPoints, Sorted, Slot, HourReachable, HasTime, InHourOf, HourExact;
    var bs := MinutesOf(ps);
    MinutesAreExact(ps);
    forall o | o in out ensures o.reachable <==> HourReachable(ps, since, o.time) {
      ReachableHour(bs, ps, since, o);
    }
    forall i | 0 <= i < |ps| && InWindow(ps[i], since) ensures HasTime(out, Slot(Slot(ps[i].time, MINUTE), HOUR)) {
      var o := WindowHas(bs, ps, since, i);
      HourIsThere(out, RecentPoints(bs, since), o);
    }
  }

  lemma HourIsThere(out: seq<Point>, qs: seq<Point>, o: Point)
    requires GoodHours(out, qs) && o in qs
    ensures HasTime(out, Slot(o.time, HOUR))
  {
    hide Slot, HourExact;
  }

  lemma ReachableHour(bs: seq<Bucket>, ps: seq<Point>, since: int, o: Point)
    requires GoodMinutes(bs, ps) && Retained(ps, since) && HourExact(o, RecentPoints(bs, since))
    ensures o.reachable <==> HourReachable(ps, since, o.time)
  {
    hide Slot, Count, Sum, RecentPoints, GoodMinutes, Retained;
    var qs := RecentPoints(bs, since);
    if o.reachable {
      var j :| 0 <= j < |qs| && Slot(qs[j].time, HOUR) == o.time && qs[j].reachable;
      RecentIsExact(bs, ps, since, qs[j]);
      var i :| 0 <= i < |ps| && Slot(ps[i].time, MINUTE) == qs[j].time && ps[i].reachable;
      assert InHourOf(ps[i], since, o.time);
    }
    if HourReachable(ps, since, o.time) {
      var i :| 0 <= i < |ps| && InHourOf(ps[i], since, o.time) && ps[i].reachable;
      var q := WindowHas(bs, ps, since, i);
      RecentIsExact(bs, ps, since, q);
      assert q.reachable;
      var j :| 0 <= j < |qs| && qs[j] == q;
    }
  }
}
