/** Raw points of internal/starlink/history.go behind the eight-second cache gate of
    internal/starlink/service.go: two hours of retention, a cap of 960 points, and why
    the cap does not lose data. */
module RawHistory {
  import opened History

  const CACHE: int := 8 * SECOND

  // ----------------------------------------------------------------------- trimming

  /** How many leading points are older than t. */
  function Cut(ps: seq<Point>, t: int): (k: nat)
    ensures k <= |ps|
  {
    if ps != [] && ps[0].time < t then 1 + Cut(ps[1..], t) else 0
  }

  function TrimRaw(ps: seq<Point>, now: int): seq<Point> {
    var kept := ps[Cut(ps, now - RAW_RETENTION)..];
    if |kept| > RAW_MAX_POINTS then kept[|kept| - RAW_MAX_POINTS..] else kept
  }

  method TrimRawHistory(ps: seq<Point>, now: int) returns (r: seq<Point>)
    ensures r == TrimRaw(ps, now)
  {
    var cutoff := now - RAW_RETENTION;
    var start := 0;
    while start < |ps| && ps[start].time < cutoff
      invariant start <= |ps| && start + Cut(ps[start..], cutoff) == Cut(ps, cutoff)
    {
      assert ps[start..][1..] == ps[start + 1..];
      start := start + 1;
    }
    r := ps[start..];
    if |r| > RAW_MAX_POINTS {
      r := r[|r| - RAW_MAX_POINTS..];
    }
  }

  /** The points not before t, in order. */
  function Since(ps: seq<Point>, t: int): seq<Point> {
    if ps == [] then []
    else Since(ps[..|ps| - 1], t) + if ps[|ps| - 1].time >= t then [ps[|ps| - 1]] else []
  }

  method FilterRawSince(points: seq<Point>, since: int) returns (out: seq<Point>)
    ensures out == Since(points, since)
  {
    out := [];
    for i := 0 to |points|
      invariant out == Since(points[..i], since)
    {
      assert points[..i + 1][..i] == points[..i];
      if points[i].time >= since {
        out := out + [points[i]];
      }
    }
    assert points[..|points|] == points;
  }

  lemma {:induction false} CutIs(ps: seq<Point>, t: int, k: nat)
    requires k <= |ps| && (forall i :: 0 <= i < k ==> ps[i].time < t) && (k < |ps| ==> ps[k].time >= t)
    ensures Cut(ps, t) == k
  {
    if k > 0 {
      assert forall i :: 0 <= i < |ps| - 1 ==> ps[1..][i] == ps[i + 1];
      CutIs(ps[1..], t, k - 1);
    }
  }

  lemma {:induction false} CutSplits(ps: seq<Point>, t: int)
    ensures var k := Cut(ps, t); (forall i :: 0 <= i < k ==> ps[i].time < t) && (k < |ps| ==> ps[k].time >= t)
  {
    if ps != [] && ps[0].time < t {
      assert forall i :: 0 < i < |ps| ==> ps[1..][i - 1] == ps[i];
      CutSplits(ps[1..], t);
    }
  }

  lemma {:induction false} SinceFrom(ps: seq<Point>, t: int, k: nat)
    requires k <= |ps| && forall i :: 0 <= i < |ps| ==> (i < k <==> ps[i].time < t)
    ensures Since(ps, t) == ps[k..]
  {
    if ps != [] {
      var n := |ps| - 1;
      var init := ps[..n];
      if k <= n {
        SinceFrom(init, t, k);
        assert ps[k..] == init[k..] + [ps[n]];
      } else {
        SinceFrom(init, t, n);
        assert init[n..] == [] && ps[k..] == [];
      }
    }
  }

  /** On a sorted history the retained suffix is the filtered history. */
  lemma SinceIsSuffix(ps: seq<Point>, t: int)
    requires Sorted(ps)
    ensures Since(ps, t) == ps[Cut(ps, t)..]
  {
    hide Since, Cut;
    CutSplits(ps, t);
    var k := Cut(ps, t);
    assert forall i :: k <= i < |ps| ==> ps[k].time <= ps[i].time;
    SinceFrom(ps, t, k);
  }

  lemma CutOfSuffix(ps: seq<Point>, s: nat, t: int)
    requires Sorted(ps) && s <= |ps|
    ensures Cut(ps[s..], t) == if Cut(ps, t) >= s then Cut(ps, t) - s else 0
  {
    hide Cut;
    var c := Cut(ps, t);
    CutSplits(ps, t);
    var k := if c >= s then c - s else 0;
    var rest := ps[s..];
    assert forall i :: 0 <= i < |rest| ==> rest[i] == ps[s + i];
    if k < |rest| { assert ps[c].time <= ps[s + k].time; }
    CutIs(rest, t, k);
  }

  lemma SuffixOfSuffix(ps: seq<Point>, s: nat, k: nat)
    requires s + k <= |ps|
    ensures ps[s..][k..] == ps[s + k..]
  {
  }

  /** Trimming a suffix that starts early enough gives the suffix that starts at the
      later of the retention cut and the cap. */
  lemma TrimSuffix(ps: seq<Point>, s: nat, now: int)
    requires Sorted(ps) && s <= |ps|
    requires s <= Start(ps, now)
    ensures TrimRaw(ps[s..], now) == ps[Start(ps, now)..]
  {
    hide Cut, Sorted;
    var t := now - RAW_RETENTION;
    CutOfSuffix(ps, s, t);
    Capped(ps, s, Cut(ps[s..], t));
  }

  lemma Capped(ps: seq<Point>, s: nat, k: nat)
    requires s + k <= |ps|
    ensures var kept := ps[s..][k..];
            (if |kept| > RAW_MAX_POINTS then kept[|kept| - RAW_MAX_POINTS..] else kept)
            == ps[if |ps| - s - k > RAW_MAX_POINTS then |ps| - RAW_MAX_POINTS else s + k..]
  {
    SuffixOfSuffix(ps, s, k);
    if |ps| - s - k > RAW_MAX_POINTS {
      SuffixOfSuffix(ps, s + k, |ps| - s - k - RAW_MAX_POINTS);
    }
  }

  /** Where the retained points of a history start. */
  function Start(ps: seq<Point>, now: int): nat {
    var c := Cut(ps, now - RAW_RETENTION);
    if |ps| - c > RAW_MAX_POINTS then |ps| - RAW_MAX_POINTS else c
  }

  lemma StartAdvances(ps: seq<Point>, x: Point, before: int)
    requires Sorted(ps + [x]) && before <= x.time
    ensures Start(ps, before) <= Start(ps + [x], x.time)
  {
    var all := ps + [x];
    assert forall i :: 0 <= i < |ps| ==> all[i] == ps[i];
    CutSplits(ps, before - RAW_RETENTION);
    CutSplits(all, x.time - RAW_RETENTION);
  }

  // ------------------------------------------------------------------------- events

  /** A check that was not answered from the cache: when it started and what
      recordHistory was given; or a loss of the cache, by Reboot or a restart. */
  datatype Event = Record(checked: int, point: Point) | Reset(at: int) {
    function Begin(): int {
      match this case Record(c, _) => c case Reset(t) => t
    }

    function End(): int {
      match this case Record(_, p) => p.time case Reset(t) => t
    }
  }

  /** The mutex orders events one after the other on a nondecreasing clock, and the
      cache keeps two checks eight seconds apart unless it was lost in between. */
  ghost predicate Run(es: seq<Event>) {
    es == [] ||
    var init, e := es[..|es| - 1], es[|es| - 1];
    && Run(init)
    && e.Begin() <= e.End()
    && (init != [] ==> init[|init| - 1].End() <= e.Begin())
    && (init != [] && init[|init| - 1].Record? && e.Record? ==> init[|init| - 1].checked + CACHE <= e.checked)
  }

  function Abs(x: real): real {
    if x < 0.0 then -x else x
  }

  /** historyPointEqual. */
  predicate PointEqual(a: Point, b: Point) {
    && a.reachable == b.reachable
    && Abs(a.downlink - b.downlink) < 0.01
    && Abs(a.uplink - b.uplink) < 0.01
    && Abs(a.ping - b.ping) < 0.1
  }

  /** recordHistory drops a point that repeats the last one within four seconds. */
  predicate Repeats(ps: seq<Point>, p: Point) {
    ps != [] && p.time - ps[|ps| - 1].time < 4 * SECOND && PointEqual(ps[|ps| - 1], p)
  }

  function RecordRaw(history: seq<Point>, p: Point): seq<Point> {
    if Repeats(history, p) then history else TrimRaw(history + [p], p.time)
  }

  /** The stored history after a run. */
  function Stored(es: seq<Event>): seq<Point> {
    if es == [] then []
    else
      match es[|es| - 1]
      case Record(_, p) => RecordRaw(Stored(es[..|es| - 1]), p)
      case Reset(_) => Stored(es[..|es| - 1])
  }

  /** Every sample that was ever appended. */
  function Appended(es: seq<Event>): seq<Point> {
    if es == [] then []
    else
      var init := Appended(es[..|es| - 1]);
      match es[|es| - 1]
      case Record(_, p) => if Repeats(init, p) then init else init + [p]
      case Reset(_) => init
  }

  lemma {:induction false} AppendedSorted(es: seq<Event>)
    requires Run(es)
    ensures Sorted(Appended(es))
    ensures Appended(es) != [] ==> es != [] && Appended(es)[|Appended(es)| - 1].time <= es[|es| - 1].End()
  {
    hide Repeats;
    if es != [] {
      AppendedSorted(es[..|es| - 1]);
    }
  }

  ghost function Kept(ps: seq<Point>): seq<Point> {
    if ps == [] then [] else ps[Start(ps, ps[|ps| - 1].time)..]
  }

  lemma KeptLast(ps: seq<Point>)
    ensures ps == [] <==> Kept(ps) == []
    ensures ps != [] ==> Kept(ps)[|Kept(ps)| - 1] == ps[|ps| - 1]
  {
    if ps != [] {
      CutSplits(ps, ps[|ps| - 1].time - RAW_RETENTION);
    }
  }

  /** What is stored: the last 960 of the samples appended within the last two hours. */
  lemma {:induction false} StoredIs(es: seq<Event>)
    requires Run(es)
    ensures Stored(es) == Kept(Appended(es))
  {
    hide PointEqual, Cut, TrimRaw, Start;
    if es != [] {
      var init, e := es[..|es| - 1], es[|es| - 1];
      StoredIs(init);
      AppendedSorted(es);
      AppendedSorted(init);
      var a := Appended(init);
      KeptLast(a);
      if e.Record? && !Repeats(a, e.point) {
        var before := if a == [] then e.point.time else a[|a| - 1].time;
        StartAdvances(a, e.point, before);
        var all := a + [e.point];
        StartInside(a, before);
        StartInside(all, e.point.time);
        var s := if a == [] then 0 else Start(a, before);
        assert Kept(a) + [e.point] == all[s..];
        TrimSuffix(all, s, e.point.time);
      }
    }
  }

  lemma StartInside(ps: seq<Point>, now: int)
    ensures Start(ps, now) <= |ps|
  {
  }

  // --------------------------------------------------------------- counting samples

  function RecordsSince(es: seq<Event>, lo: int): nat {
    if es == [] then 0
    else RecordsSince(es[..|es| - 1], lo) +
         if es[|es| - 1].Record? && es[|es| - 1].point.time >= lo then 1 else 0
  }

  function ResetsIn(es: seq<Event>, lo: int, hi: int): nat {
    if es == [] then 0
    else ResetsIn(es[..|es| - 1], lo, hi) +
         if es[|es| - 1].Reset? && lo <= es[|es| - 1].at <= hi then 1 else 0
  }

  /** The earliest moment at which the next check can start. */
  ghost function Ready(es: seq<Event>, lo: int): int {
    if es == [] then lo
    else if es[|es| - 1].Record? then es[|es| - 1].checked + CACHE
    else LastChecked(es, lo)
  }

  ghost function LastChecked(es: seq<Event>, lo: int): int {
    if es == [] then lo
    else if es[|es| - 1].Record? then es[|es| - 1].checked
    else LastChecked(es[..|es| - 1], lo)
  }

  lemma {:induction false} LastCheckedBefore(es: seq<Event>, lo: int)
    requires Run(es) && es != [] && RecordsSince(es, lo) > 0
    ensures LastChecked(es, lo) <= es[|es| - 1].End()
    ensures lo <= es[|es| - 1].End()
  {
    if es[|es| - 1].Reset? {
      LastCheckedBefore(es[..|es| - 1], lo);
    } else if es[|es| - 1].point.time < lo {
      LastCheckedBefore(es[..|es| - 1], lo);
    }
  }

  /** After the second sample of a window every further one costs eight seconds of
      clock or a reset. */
  lemma {:induction false} Spacing(es: seq<Event>, lo: int, hi: int)
    requires Run(es) && RecordsSince(es, lo) >= 2 && es[|es| - 1].End() <= hi
    ensures Ready(es, lo) >= lo + CACHE * (RecordsSince(es, lo) - 1 - ResetsIn(es, lo, hi))
  {
    var init, e := es[..|es| - 1], es[|es| - 1];
    LastCheckedBefore(es, lo);
    if RecordsSince(init, lo) >= 1 {
      LastCheckedBefore(init, lo);
    }
    if RecordsSince(init, lo) >= 2 {
      Spacing(init, lo, hi);
    }
  }

  /** Two hours hold at most 902 samples plus one for each loss of the cache. */
  lemma WindowBound(es: seq<Event>)
    requires Run(es) && es != [] && es[|es| - 1].Record?
    ensures var t := es[|es| - 1].point.time;
            RecordsSince(es, t - RAW_RETENTION) <= 902 + ResetsIn(es, t - RAW_RETENTION, t)
  {
    var t := es[|es| - 1].point.time;
    var lo := t - RAW_RETENTION;
    hide RecordsSince, ResetsIn;
    if RecordsSince(es, lo) >= 2 {
      Spacing(es, lo, t);
    }
  }

  /** At most 58 losses of the cache in any two hours. */
  ghost predicate FewResets(es: seq<Event>) {
    forall lo, hi :: hi - lo <= RAW_RETENTION ==> ResetsIn(es, lo, hi) <= 58
  }

  lemma FewResetsBefore(es: seq<Event>)
    requires es != [] && FewResets(es)
    ensures FewResets(es[..|es| - 1])
  {
    var init := es[..|es| - 1];
    forall lo, hi | hi - lo <= RAW_RETENTION ensures ResetsIn(init, lo, hi) <= 58 {
      assert ResetsIn(es, lo, hi) <= 58;
    }
  }

  lemma SinceAppend(ps: seq<Point>, p: Point, t: int)
    ensures Since(ps + [p], t) == Since(ps, t) + if p.time >= t then [p] else []
  {
    assert (ps + [p])[..|ps|] == ps;
  }

  lemma {:induction false} AppendedAtMostRecords(es: seq<Event>, lo: int)
    ensures |Since(Appended(es), lo)| <= RecordsSince(es, lo)
  {
    hide Repeats;
    if es != [] {
      AppendedAtMostRecords(es[..|es| - 1], lo);
      if es[|es| - 1].Record? {
        SinceAppend(Appended(es[..|es| - 1]), es[|es| - 1].point, lo);
      }
    }
  }

  ghost function Recent(ps: seq<Point>): seq<Point> {
    if ps == [] then [] else Since(ps, ps[|ps| - 1].time - RAW_RETENTION)
  }

  /** The cap drops a point exactly when more than 960 samples were appended in the
      last two hours. */
  lemma CapDropsNothingIff(es: seq<Event>)
    requires Run(es)
    ensures Stored(es) == Recent(Appended(es)) <==> |Recent(Appended(es))| <= RAW_MAX_POINTS
  {
    hide Stored, Appended, Cut, Since, Run;
    StoredIs(es);
    AppendedSorted(es);
    var a := Appended(es);
    if a != [] {
      SinceIsSuffix(a, a[|a| - 1].time - RAW_RETENTION);
    }
  }

  lemma {:induction false} RecentIsSmall(es: seq<Event>)
    requires Run(es) && FewResets(es)
    ensures |Recent(Appended(es))| <= RAW_MAX_POINTS
  {
    hide FewResets, Since, Repeats, RecordsSince, ResetsIn;
    if es != [] {
      FewResetsBefore(es);
      RecentIsSmall(es[..|es| - 1]);
      var e := es[|es| - 1];
      if e.Record? && !Repeats(Appended(es[..|es| - 1]), e.point) {
        var t := e.point.time;
        WindowBound(es);
        AppendedAtMostRecords(es, t - RAW_RETENTION);
        assert ResetsIn(es, t - RAW_RETENTION, t) <= 58 by { FewAt(es, t); }
      }
    }
  }

  lemma FewAt(es: seq<Event>, t: int)
    requires FewResets(es)
    ensures ResetsIn(es, t - RAW_RETENTION, t) <= 58
  {
  }

  /** Behind the cache gate the cap never drops a point. */
  lemma CapLosesNothing(es: seq<Event>)
    requires Run(es) && FewResets(es)
    ensures Stored(es) == Recent(Appended(es))
  {
    RecentIsSmall(es);
    CapDropsNothingIff(es);
  }

  lemma {:induction false} SinceTwice(ps: seq<Point>, early: int, late: int)
    requires early <= late
    ensures Since(Since(ps, early), late) == Since(ps, late)
  {
    if ps != [] {
      var init, p := ps[..|ps| - 1], ps[|ps| - 1];
      SinceTwice(init, early, late);
      if p.time >= early {
        SinceAppend(Since(init, early), p, late);
      } else {
        assert Since(ps, early) == Since(init, early) && Since(ps, late) == Since(init, late);
      }
    }
  }

  /** A query over at most two hours returns every sample appended in its window. */
  lemma QueryIsComplete(es: seq<Event>, now: int, duration: int)
    requires Run(es) && FewResets(es) && duration <= RAW_RETENTION
    requires es != [] ==> es[|es| - 1].End() <= now
    ensures Since(Stored(es), now - duration) == Since(Appended(es), now - duration)
  {
    hide Stored, Appended, Since, FewResets, Run;
    CapLosesNothing(es);
    AppendedSorted(es);
    var a := Appended(es);
    if a != [] {
      SinceTwice(a, a[|a| - 1].time - RAW_RETENTION, now - duration);
    }
  }

  // ----------------------------------------------------------- which samples are dropped

  /** The points of all recordHistory calls. */
  function Recorded(es: seq<Event>): seq<Point> {
    if es == [] then []
    else Recorded(es[..|es| - 1]) + if es[|es| - 1].Record? then [es[|es| - 1].point] else []
  }

  /** A recorded sample is missing from the appended ones if and only if the one
      appended last is less than four seconds older, agrees in reachability, and
      differs by less than 0.01 in the two rates and 0.1 in the ping. */
  lemma DroppedIff(es: seq<Event>, checked: int, p: Point)
    ensures var a := Appended(es); var b := Appended(es + [Record(checked, p)]);
            && (b == a || b == a + [p])
            && (b == a <==> a != [] && var l := a[|a| - 1];
                 && p.time - l.time < 4_000_000_000 && l.reachable == p.reachable
                 && -0.01 < l.downlink - p.downlink < 0.01
                 && -0.01 < l.uplink - p.uplink < 0.01
                 && -0.1 < l.ping - p.ping < 0.1)
  {
    assert (es + [Record(checked, p)])[..|es|] == es;
    assert |Appended(es) + [p]| > |Appended(es)|;
  }

  /** Samples that follow each other by at least four seconds. */
  ghost predicate Spaced(ps: seq<Point>) {
    forall i :: 0 < i < |ps| ==> ps[i].time - ps[i - 1].time >= 4_000_000_000
  }

  /** Then none of them is dropped. */
  lemma {:induction false} SpacedAreAppended(es: seq<Event>)
    requires Spaced(Recorded(es))
    ensures Appended(es) == Recorded(es)
  {
    if es != [] {
      hide PointEqual;
      var init, e, r := es[..|es| - 1], es[|es| - 1], Recorded(es);
      var n := |Recorded(init)|;
      assert forall i :: 0 <= i < n ==> Recorded(init)[i] == r[i];
      SpacedAreAppended(init);
      if e.Record? && n > 0 { assert r[n] == e.point && r[n].time - r[n - 1].time >= 4_000_000_000; }
    }
  }

  /** For such runs a query over at most two hours returns every recorded sample of its
      window. */
  lemma SpacedQueryIsComplete(es: seq<Event>, now: int, duration: int)
    requires Run(es) && FewResets(es) && Spaced(Recorded(es)) && duration <= 2 * 3_600_000_000_000
    requires es != [] ==> es[|es| - 1].End() <= now
    ensures Since(Stored(es), now - duration) == Since(Recorded(es), now - duration)
  {
    hide Stored, Appended, Recorded, Since, FewResets, Run, Spaced;
    QueryIsComplete(es, now, duration);
    SpacedAreAppended(es);
  }

  // --------------------------------------------------- minute buckets over a restart

  /** The last recordHistory call, if there was one, appended its point. */
  predicate LastAppended(es: seq<Event>) {
    if es == [] then true
    else
      match es[|es| - 1]
      case Record(_, p) => !Repeats(Appended(es[..|es| - 1]), p)
      case Reset(_) => LastAppended(es[..|es| - 1])
  }

  lemma RecordedGrows(es: seq<Event>, e: Event)
    ensures Recorded(es + [e]) == Recorded(es) + if e.Record? then [e.point] else []
    ensures LastAppended(es + [e]) <==> if e.Record? then !Repeats(Appended(es), e.point) else LastAppended(es)
  {
    hide Repeats, Appended;
    assert (es + [e])[..|es|] == es;
  }

  lemma {:induction false} RecordedSorted(es: seq<Event>)
    requires Run(es)
    ensures Sorted(Recorded(es))
    ensures Recorded(es) != [] ==> es != [] && Recorded(es)[|Recorded(es)| - 1].time <= es[|es| - 1].End()
  {
    if es != [] {
      RecordedSorted(es[..|es| - 1]);
    }
  }

  /** The stored history ends with the sample that was appended last, so it decides
      whether a point repeats it. */
  lemma StoredDecides(es: seq<Event>, p: Point)
    requires Run(es)
    ensures Repeats(Stored(es), p) <==> Repeats(Appended(es), p)
  {
    hide Stored, Appended, Kept;
    StoredIs(es);
    KeptLast(Appended(es));
  }

  /** Buckets of a proper part of the samples are not the buckets of all of them. */
  lemma PartIsNotExact(part: seq<Point>, all: seq<Point>)
    requires part <= all && part != all && Sorted(all)
    ensures !GoodMinutes(MinutesOf(part), all)
  {
    hide Slot, MinutesOf, Sorted, Exact, Complete, StrictlyIncreasing;
    PrefixSorted(part, all);
    MinutesAreExact(part);
    var bs, last := MinutesOf(part), all[|all| - 1];
    if part != [] && bs[|bs| - 1].time == Slot(last.time, MINUTE) {
      var b := bs[|bs| - 1];
      CountMore(part, all, b.time);
      NotExact(b, part, all);
    }
  }

  lemma PrefixSorted(part: seq<Point>, all: seq<Point>)
    requires part <= all && Sorted(all)
    ensures Sorted(part)
  {
    assert forall i :: 0 <= i < |part| ==> part[i] == all[i];
  }

  lemma CountMore(part: seq<Point>, all: seq<Point>, minute: int)
    requires part <= all && part != all && Slot(all[|all| - 1].time, MINUTE) == minute
    ensures Count(all, MINUTE, minute) > Count(part, MINUTE, minute)
  {
    hide Slot, Count, Sum, Any;
    var more := all[|part|..];
    assert all == part + more;
    CountConcat(part, more, MINUTE, minute, Ping);
    CountPositive(more, MINUTE, minute, |more| - 1);
  }

  lemma NotExact(b: Bucket, part: seq<Point>, all: seq<Point>)
    requires Exact(b, part) && Count(all, MINUTE, b.time) != Count(part, MINUTE, b.time)
    ensures !Exact(b, all)
  {
    hide Slot, Count, Sum, Any;
  }

  // ------------------------------------------------------------------------ service

  datatype Cached = Never | At(checked: int)

  datatype Range = TenMinutes | Hour | Day | Week

  /** ParseHistoryRange. */
  function ParseRange(value: string): Range {
    match value
    case "10m" => TenMinutes
    case "24h" => Day
    case "1d" => Day
    case "7d" => Week
    case "1w" => Week
    case _ => Hour
  }

  function CachedAfter(es: seq<Event>): Cached {
    if es != [] && es[|es| - 1].Record? then At(es[|es| - 1].checked) else Never
  }

  /** The buckets have counted some of the recorded samples and the file some of those;
      while no sample was lost, the file is behind exactly after a repeat. */
  ghost predicate Accounted(es: seq<Event>, counted: seq<Point>, saved: seq<Point>) {
    && saved <= counted && |counted| <= |Recorded(es)|
    && (|counted| == |Recorded(es)| ==> counted == Recorded(es) && (saved == counted <==> LastAppended(es)))
  }

  lemma AccountedRecord(es: seq<Event>, counted: seq<Point>, saved: seq<Point>, e: Event)
    requires Accounted(es, counted, saved) && e.Record?
    ensures !Repeats(Appended(es), e.point) ==> Accounted(es + [e], counted + [e.point], counted + [e.point])
    ensures Repeats(Appended(es), e.point) ==> Accounted(es + [e], counted + [e.point], saved)
  {
    hide Repeats, Appended, Recorded, LastAppended;
    RecordedGrows(es, e);
  }

  lemma AccountedReset(es: seq<Event>, counted: seq<Point>, saved: seq<Point>, e: Event)
    requires Accounted(es, counted, saved) && e.Reset?
    ensures Accounted(es + [e], counted, saved) && Accounted(es + [e], saved, saved)
  {
    hide Repeats, Appended, Recorded, LastAppended;
    RecordedGrows(es, e);
    assert Recorded(es) + [] == Recorded(es);
  }

  /** The status service: its cache stamp, its histories and the files they are saved to.
      The ghost log is what happened; `counted` is what the minute buckets have seen. */
  class Service {
    var cached: Cached
    var history: seq<Point>
    var minutes: seq<Bucket>
    var savedHistory: seq<Point>
    var savedMinutes: seq<Bucket>
    ghost var log: seq<Event>
    ghost var counted: seq<Point>
    ghost var savedCounted: seq<Point>

    ghost predicate Valid()
      reads this
    {
      Books() && cached == CachedAfter(log)
    }

    /** Everything but the cache. */
    ghost predicate Books()
      reads this
    {
      && Run(log)
      && history == savedHistory == Stored(log)
      && minutes == MinutesOf(counted) && Sorted(counted)
      && savedMinutes == MinutesOf(savedCounted)
      && Accounted(log, counted, savedCounted)
      && (counted != [] ==> Past(counted[|counted| - 1].time))
    }

    ghost predicate Past(t: int)
      reads this
    {
      log != [] && t <= log[|log| - 1].End()
    }

    ghost predicate Now(t: int)
      reads this
    {
      log != [] ==> log[|log| - 1].End() <= t
    }

    constructor ()
      ensures Valid() && log == [] && counted == []
    {
      cached, history, minutes, savedHistory, savedMinutes := Never, [], [], [], [];
      log, counted, savedCounted := [], [], [];
    }

    /** recordHistory, in a check that started at `now`: a repeat only refines its minute;
        any other point is appended, and both histories are saved. */
    method RecordHistory(ghost now: int, p: Point)
      requires Books() && Now(now) && now <= p.time
      requires log != [] && log[|log| - 1].Record? ==> log[|log| - 1].checked + CACHE <= now
      modifies this`history, this`minutes, this`savedHistory, this`savedMinutes, this`log, this`counted, this`savedCounted
      ensures Books() && log == old(log) + [Record(now, p)] && counted == old(counted) + [p]
      ensures savedCounted == if Repeats(old(history), p) then old(savedCounted) else counted
    {
      hide Stored, MinutesOf, UpdateMinutes, TrimRaw, Accounted, Appended, Repeats, Sorted, Run;
      ghost var e := Record(now, p);
      RecordBooks(log, counted, savedCounted, now, p);
      log, counted := log + [e], counted + [p];
      assert log[|log| - 1] == e && counted[|counted| - 1] == p;
      if Repeats(history, p) {
        minutes := UpdateMinuteBucket(minutes, p);
        return;
      }
      history := TrimRawHistory(history + [p], p.time);
      assert history == Stored(log);
      minutes := UpdateMinuteBucket(minutes, p);
      assert minutes == MinutesOf(counted);
      savedHistory, savedMinutes, savedCounted := history, minutes, counted;
    }

    /** Status: `now` is the clock at entry, `p` what the dish answered, stamped with
        the clock at recordHistory. */
    method Status(now: int, p: Point) returns (hit: bool)
      requires Valid() && Now(now) && now <= p.time
      modifies this
      ensures Valid()
      ensures hit <==> exists c :: old(cached) == At(c) && now - c < CACHE
      ensures hit ==> unchanged(this)
      ensures !hit ==> log == old(log) + [Record(now, p)] && counted == old(counted) + [p] && cached == At(now)
      ensures !hit ==> savedCounted == if Repeats(old(history), p) then old(savedCounted) else counted
    {
      hide Stored, MinutesOf, Accounted, Run, Sorted, Repeats;
      if cached.At? && now - cached.checked < CACHE {
        return true;
      }
      RecordHistory(now, p);
      cached := At(now);
      return false;
    }

    /** Reboot after the dish accepted the command. */
    method Reboot(now: int)
      requires Valid() && Now(now)
      modifies this`cached, this`log
      ensures Valid() && log == old(log) + [Reset(now)]
    {
      hide Stored, MinutesOf, Accounted, Sorted, Run;
      LogGrows(log, Reset(now));
      StoredResets(log, now);
      AccountedReset(log, counted, savedCounted, Reset(now));
      cached, log := Never, log + [Reset(now)];
    }

    /** The process starts again from its files: the raw history is as it was.  If no
        sample was lost before, the minute buckets are exact for every recorded sample
        if and only if the last recordHistory call appended its point; the repeats
        after the last append are lost. */
    method Restart(now: int)
      requires Valid() && Now(now)
      modifies this
      ensures Valid() && log == old(log) + [Reset(now)]
      ensures history == old(history) && counted == old(savedCounted)
      ensures old(counted) == Recorded(old(log)) ==> (GoodMinutes(minutes, Recorded(log)) <==> LastAppended(old(log)))
    {
      hide Stored, MinutesOf, GoodMinutes, Accounted, LastAppended, Recorded, Sorted, Run;
      SavedPart(log, counted, savedCounted);
      RestartedBuckets(log, counted, savedCounted, now);
      AccountedReset(log, counted, savedCounted, Reset(now));
      LogGrows(log, Reset(now));
      StoredResets(log, now);
      cached, history, minutes := Never, savedHistory, savedMinutes;
      log, counted := log + [Reset(now)], savedCounted;
    }

    /** historyForRangeLocked. */
    method HistoryFor(value: string, now: int) returns (out: seq<Point>)
      requires Valid() && Now(now)
      ensures value == "10m" && FewResets(log) ==>
                out == Since(Appended(log), now - 10 * MINUTE) && (Spaced(Recorded(log)) ==> out == Since(Recorded(log), now - 10 * MINUTE))
      ensures value !in {"10m", "24h", "1d", "7d", "1w"} && FewResets(log) ==>
                out == Since(Appended(log), now - HOUR) && (Spaced(Recorded(log)) ==> out == Since(Recorded(log), now - HOUR))
      ensures value == "24h" || value == "1d" ==>
                out == RecentPoints(MinutesOf(counted), now - 24 * HOUR) && MinuteValues(out, counted, now - 24 * HOUR)
      ensures value == "7d" || value == "1w" ==>
                GoodHours(out, RecentPoints(MinutesOf(counted), now - 7 * 24 * HOUR)) && WithinSamples(out, counted, now - 7 * 24 * HOUR)
                && HourValues(out, counted, now - 7 * 24 * HOUR)
    {
      hide Stored, MinutesOf, Since, Appended, RecentPoints, GoodHours, FewResets, Run, CachedAfter, Sorted, Spaced, Recorded, WithinSamples, MinuteValues, HourValues;
      assert "10m"[0] == '1' && "10m"[1] == '0' && "24h"[0] == '2' && "1d"[1] == 'd' && "7d"[0] == '7' && "1w"[1] == 'w' && "7d"[0] != "24h"[0];
      if FewResets(log) && Spaced(Recorded(log)) { SpacedAreAppended(log); }
      match ParseRange(value)
      case TenMinutes =>
        out := FilterRawSince(history, now - 10 * MINUTE);
        if FewResets(log) { QueryIsComplete(log, now, 10 * MINUTE); }
      case Hour =>
        out := FilterRawSince(history, now - HOUR);
        if FewResets(log) { QueryIsComplete(log, now, HOUR); }
      case Day =>
        out := RecentPoints(minutes, now - 24 * HOUR);
        DayIsExact(counted, now - 24 * HOUR);
      case Week =>
        out := WeekHistory(counted, minutes, now);
        WeekIsComplete(out, counted, now - 7 * 24 * HOUR);
    }
  }

  /** What one more record means for the books. */
  lemma RecordBooks(es: seq<Event>, counted: seq<Point>, saved: seq<Point>, now: int, p: Point)
    requires Run(es) && now <= p.time && Sorted(counted) && Accounted(es, counted, saved)
    requires es != [] ==> es[|es| - 1].End() <= now && (counted != [] ==> counted[|counted| - 1].time <= es[|es| - 1].End())
    requires counted != [] ==> es != []
    requires es != [] && es[|es| - 1].Record? ==> es[|es| - 1].checked + CACHE <= now
    ensures var more := es + [Record(now, p)];
            && Run(more) && Sorted(counted + [p])
            && Stored(more) == RecordRaw(Stored(es), p)
            && MinutesOf(counted + [p]) == UpdateMinutes(MinutesOf(counted), p)
            && Accounted(more, counted + [p], if Repeats(Stored(es), p) then saved else counted + [p])
  {
    hide Stored, MinutesOf, UpdateMinutes, RecordRaw, Accounted, Appended, Repeats, Sorted, Run;
    StoredDecides(es, p);
    AccountedRecord(es, counted, saved, Record(now, p));
    SortedGrows(counted, p);
    LogGrows(es, Record(now, p));
    StoredGrows(es, now, p);
    MinutesGrow(counted, p);
  }

  lemma SavedPart(es: seq<Event>, counted: seq<Point>, saved: seq<Point>)
    requires Accounted(es, counted, saved) && Sorted(counted)
    ensures Sorted(saved) && (saved != [] ==> counted != [] && saved[|saved| - 1].time <= counted[|counted| - 1].time)
  {
    hide Recorded, LastAppended;
    PrefixSorted(saved, counted);
    assert saved != [] ==> saved[|saved| - 1] == counted[|saved| - 1];
  }

  lemma RestartedBuckets(es: seq<Event>, counted: seq<Point>, saved: seq<Point>, now: int)
    requires Run(es) && Accounted(es, counted, saved)
    ensures counted == Recorded(es) ==> (GoodMinutes(MinutesOf(saved), Recorded(es + [Reset(now)])) <==> LastAppended(es))
  {
    hide GoodMinutes, MinutesOf, LastAppended, Recorded;
    RecordedGrows(es, Reset(now));
    assert Recorded(es) + [] == Recorded(es);
    RecordedSorted(es);
    if counted == Recorded(es) {
      if saved == counted {
        MinutesAreExact(saved);
      } else {
        PartIsNotExact(saved, counted);
      }
    }
  }

  /** A check, a reboot of the dish, the same answer within four seconds, and a restart:
      the second sample is gone from its minute. */
  method RestartLosesRepeat() returns (s: Service)
    ensures fresh(s) && s.Valid() && !GoodMinutes(s.minutes, Recorded(s.log))
    ensures Recorded(s.log) == [Point(0, true, 1.0, 1.0, 1.0), Point(SECOND, true, 1.0, 1.0, 1.0)]
  {
    hide Stored, MinutesOf, GoodMinutes, TrimRaw, UpdateMinutes, Accounted, Run, Sorted, Service.Books, Recorded, LastAppended;
    var p, q := Point(0, true, 1.0, 1.0, 1.0), Point(SECOND, true, 1.0, 1.0, 1.0);
    s := new Service();
    var _ := s.Status(0, p);
    s.Reboot(0);
    var _ := s.Status(SECOND, q);
    var es := [Record(0, p), Reset(0), Record(SECOND, q)];
    assert s.log == es && s.counted == [p, q];
    assert es[..2][..1] == [Record(0, p)] && es[..1][..0] == [];
    assert Recorded(es) == [p, q] && !LastAppended(es) by { ExampleLog(p, q); }
    s.Restart(SECOND);
    assert Recorded(s.log) == Recorded(es) by { RecordedGrows(es, Reset(SECOND)); assert Recorded(es) + [] == Recorded(es); }
  }

  lemma ExampleLog(p: Point, q: Point)
    requires Repeats([p], q)
    ensures var es := [Record(0, p), Reset(0), Record(SECOND, q)];
            Recorded(es) == [p, q] && !LastAppended(es)
  {
    hide PointEqual;
    var a, b := [Record(0, p)], [Record(0, p), Reset(0)];
    assert [] + [Record(0, p)] == a && a + [Reset(0)] == b && b + [Record(SECOND, q)] == [Record(0, p), Reset(0), Record(SECOND, q)];
    RecordedGrows([], Record(0, p));
    RecordedGrows(a, Reset(0));
    RecordedGrows(b, Record(SECOND, q));
    assert a[..0] == [] && b[..1] == a;
    assert Appended(a) == [p] && Appended(b) == [p];
  }

  lemma SortedGrows(ps: seq<Point>, p: Point)
    requires Sorted(ps) && (ps != [] ==> ps[|ps| - 1].time <= p.time)
    ensures Sorted(ps + [p])
  {
  }

  lemma LogGrows(es: seq<Event>, e: Event)
    requires Run(es) && e.Begin() <= e.End() && (es != [] ==> es[|es| - 1].End() <= e.Begin())
    requires es != [] && es[|es| - 1].Record? && e.Record? ==> es[|es| - 1].checked + CACHE <= e.checked
    ensures Run(es + [e])
  {
    assert (es + [e])[..|es|] == es;
  }

  lemma StoredGrows(es: seq<Event>, now: int, p: Point)
    ensures Stored(es + [Record(now, p)]) == RecordRaw(Stored(es), p)
  {
    assert (es + [Record(now, p)])[..|es|] == es;
  }

  lemma StoredResets(es: seq<Event>, now: int)
    ensures Stored(es + [Reset(now)]) == Stored(es)
  {
    assert (es + [Reset(now)])[..|es|] == es;
  }

  lemma MinutesGrow(ps: seq<Point>, p: Point)
    ensures MinutesOf(ps + [p]) == UpdateMinutes(MinutesOf(ps), p)
  {
    assert (ps + [p])[..|ps|] == ps;
  }
}
