/** What the reconstructed intervals and the seconds counted from them are. */
module UptimeProofs {
  import opened Arith
  import opened Calendar
  import opened Measure
  import opened Options
  import opened Presence
  import opened Uptime

  // ---------- the intervals ----------

  /** Sorted, disjoint and inside [lo, hi]. */
  ghost predicate Chain(iv: seq<Interval>, lo: int, hi: int) {
    && (forall i | 0 <= i < |iv| :: lo <= iv[i].start <= iv[i].end <= hi)
    && (forall i, j | 0 <= i < j < |iv| :: iv[i].end <= iv[j].start)
  }

  ghost predicate Sorted(events: seq<NodeEvent>) {
    forall i, j | 0 <= i < j < |events| :: events[i].at <= events[j].at
  }

  ghost predicate InWindow(events: seq<NodeEvent>, n: NodeId, from: int, to: int) {
    forall i | 0 <= i < |events| :: events[i].node == n && from <= events[i].at <= to
  }

  lemma {:induction false} InsertKeeps(s: seq<NodeEvent>, e: NodeEvent)
    ensures multiset(InsertByTime(s, e)) == multiset(s) + multiset{e}
  {
    if s != [] && s[|s| - 1].at > e.at {
      InsertKeeps(s[..|s| - 1], e);
      assert s == s[..|s| - 1] + [s[|s| - 1]];
    }
  }

  lemma {:induction false} InsertSorted(s: seq<NodeEvent>, e: NodeEvent, top: int)
    requires Sorted(s) && e.at <= top && forall i | 0 <= i < |s| :: s[i].at <= top
    ensures Sorted(InsertByTime(s, e)) && forall i | 0 <= i < |InsertByTime(s, e)| :: InsertByTime(s, e)[i].at <= top
  {
    if s != [] && s[|s| - 1].at > e.at {
      InsertSorted(s[..|s| - 1], e, s[|s| - 1].at);
    }
  }

  /** ORDER BY sorts the rows and loses none. */
  lemma {:induction false} ByTimeSorts(s: seq<NodeEvent>)
    ensures Sorted(ByTime(s))
  {
    if s != [] {
      var head, last := ByTime(s[..|s| - 1]), s[|s| - 1];
      ByTimeSorts(s[..|s| - 1]);
      hide InsertByTime;
      InsertSorted(head, last, if head == [] then last.at else Max(head[|head| - 1].at, last.at));
    }
  }

  lemma {:induction false} ByTimeKeeps(s: seq<NodeEvent>)
    ensures multiset(ByTime(s)) == multiset(s)
  {
    hide InsertByTime;
    if s != [] {
      ByTimeKeeps(s[..|s| - 1]);
      InsertKeeps(ByTime(s[..|s| - 1]), s[|s| - 1]);
      assert s == s[..|s| - 1] + [s[|s| - 1]];
    }
  }

  lemma {:induction false} InsideInWindow(log: seq<NodeEvent>, n: NodeId, from: int, to: int)
    ensures InWindow(Inside(log, n, from, to), n, from, to)
  {
    if log != [] {
      InsideInWindow(log[..|log| - 1], n, from, to);
    }
  }

  lemma LoadedEvents(log: seq<NodeEvent>, n: NodeId, from: int, to: int)
    ensures Sorted(ByTime(Inside(log, n, from, to))) && InWindow(ByTime(Inside(log, n, from, to)), n, from, to)
  {
    var s := Inside(log, n, from, to);
    InsideInWindow(log, n, from, to);
    ByTimeSorts(s);
    ByTimeKeeps(s);
    var r := ByTime(s);
    forall i | 0 <= i < |r|
      ensures r[i].node == n && from <= r[i].at <= to
    {
      assert r[i] in multiset(s);
    }
  }

  lemma {:induction false} RebuildChain(st: Status, offStart: int, events: seq<NodeEvent>, lo: int, to: int)
    requires Sorted(events) && forall i | 0 <= i < |events| :: lo <= events[i].at <= to
    requires st == Off ==> offStart <= lo
    ensures Chain(Rebuild(st, offStart, events, to), if st == Off then offStart else lo, to)
    decreases |events|
  {
    if events != [] {
      var e, rest := events[0], events[1..];
      var st' := Next(st, e);
      RebuildChain(st', if st == On && st' == Off then e.at else offStart, rest, e.at, to);
    }
  }

  /** Whatever the log holds, the intervals are sorted, disjoint and inside the
      window. */
  lemma IntervalsAreChain(log: seq<NodeEvent>, n: NodeId, from: int, to: int)
    ensures Chain(IntervalsOf(log, n, from, to), from, to)
  {
    LoadedEvents(log, n, from, to);
    RebuildChain(StateFrom(Prior(log, n, from)), from, ByTime(Inside(log, n, from, to)), from, to);
  }

  lemma {:induction false} RebuildAfterFirst(offStart: int, events: seq<NodeEvent>, from: int, to: int)
    requires Sorted(events) && forall i | 0 <= i < |events| :: from <= events[i].at <= to
    ensures ExistsFrom(None, events, from).None? ==> Rebuild(Absent, offStart, events, to) == []
    ensures var f := ExistsFrom(None, events, from);
            f.Some? ==> from <= f.value <= to && Chain(Rebuild(Absent, offStart, events, to), f.value, to)
  {
    if events != [] {
      if events[0].online {
        RebuildChain(On, offStart, events[1..], events[0].at, to);
      } else {
        RebuildAfterFirst(offStart, events[1..], from, to);
      }
    }
  }

  /** No outage begins before the node exists, and a node that does not exist
      has none. */
  lemma OutagesFollowExistence(log: seq<NodeEvent>, n: NodeId, from: int, to: int)
    ensures var f, iv := ExistsOf(log, n, from, to), IntervalsOf(log, n, from, to);
            && (f.None? ==> iv == [])
            && (f.Some? ==> from <= f.value && Chain(iv, f.value, to))
  {
    LoadedEvents(log, n, from, to);
    if Prior(log, n, from).None? {
      RebuildAfterFirst(from, ByTime(Inside(log, n, from, to)), from, to);
    } else {
      IntervalsAreChain(log, n, from, to);
    }
  }

  // ---------- seconds against the true length ----------

  ghost predicate In(x: Interval, t: int) {
    x.start <= t < x.end
  }

  ghost predicate Covered(iv: seq<Interval>, t: int) {
    exists i | 0 <= i < |iv| :: In(iv[i], t)
  }

  /** Nanoseconds of [s, e) that lie in the intervals. */
  ghost function TrueOffline(iv: seq<Interval>, s: int, e: int): nat {
    Count(t => Covered(iv, t), s, e)
  }

  function Length(x: Interval, s: int, e: int): nat {
    var d := Min(x.end, e) - Max(x.start, s);
    if d > 0 then d else 0
  }

  lemma LengthIsCount(x: Interval, s: int, e: int)
    requires s <= e
    ensures Count(t => In(x, t), s, e) == Length(x, s, e)
  {
    var p := t => In(x, t);
    var a := Min(Max(x.start, s), e);
    var b := Max(Min(x.end, e), a);
    CountSplit(p, s, a, e);
    CountSplit(p, a, b, e);
    CountConst(p, s, a, false);
    CountConst(p, a, b, true);
    CountConst(p, b, e, false);
  }

  lemma CoveredLast(iv: seq<Interval>, lo: int, hi: int, t: int)
    requires iv != [] && Chain(iv, lo, hi)
    ensures var head, last := iv[..|iv| - 1], iv[|iv| - 1];
            (Covered(iv, t) <==> Covered(head, t) || In(last, t)) && !(Covered(head, t) && In(last, t))
  {
    var head, last := iv[..|iv| - 1], iv[|iv| - 1];
    if Covered(iv, t) && !In(last, t) {
      var i :| 0 <= i < |iv| && In(iv[i], t);
      assert head[i] == iv[i];
    }
    if Covered(head, t) {
      var i :| 0 <= i < |head| && In(head[i], t);
      assert In(iv[i], t) && iv[i].end <= last.start;
    }
  }

  /** Truncating each interval loses less than a second per interval. */
  lemma {:induction false} SecondsAgainstTrue(iv: seq<Interval>, lo: int, hi: int, s: int, e: int)
    requires Chain(iv, lo, hi) && s <= e
    ensures SumOverlap(iv, s, e) * SECOND <= TrueOffline(iv, s, e)
    ensures TrueOffline(iv, s, e) <= SumOverlap(iv, s, e) * SECOND + (SECOND - 1) * |iv|
    ensures SumOverlap(iv, s, e) >= 0
    decreases |iv|
  {
    if iv == [] {
      CountConst(t => Covered(iv, t), s, e, false);
    } else {
      var head, last := iv[..|iv| - 1], iv[|iv| - 1];
      SecondsAgainstTrue(head, lo, hi, s, e);
      forall t | s <= t < e
        ensures (Covered(iv, t) <==> Covered(head, t) || In(last, t)) && !(Covered(head, t) && In(last, t))
      {
        CoveredLast(iv, lo, hi, t);
      }
      CountUnion(t => Covered(head, t), t => In(last, t), t => Covered(iv, t), s, e);
      LengthIsCount(last, s, e);
    }
  }

  /** The clamp to the length of the window never has to change anything. */
  lemma ClampIsIdle(iv: seq<Interval>, lo: int, hi: int, s: int, e: int)
    requires Chain(iv, lo, hi)
    ensures 0 <= SumOverlap(iv, s, e) <= Max(Whole(e - s), 0)
  {
    if s <= e {
      SecondsAgainstTrue(iv, lo, hi, s, e);
      CountAtMost(t => Covered(iv, t), s, e);
    } else {
      EmptyWindow(iv, s, e);
    }
  }

  lemma {:induction false} EmptyWindow(iv: seq<Interval>, s: int, e: int)
    requires s >= e
    ensures SumOverlap(iv, s, e) == 0
  {
    if iv != [] {
      EmptyWindow(iv[..|iv| - 1], s, e);
    }
  }

  /** What the uptime page and the donation rewards report for a node, for any
      log: online and offline add up to the whole seconds of the window, and
      the reported offline time is at most the reconstructed one and short of
      it by less than a second per outage. */
  lemma ReportedSeconds(nodes: map<NodeId, NodeRow>, log: seq<NodeEvent>, n: NodeId, from: int, to: int)
    requires n in nodes
    ensures var st, iv := NodeStats(nodes, log, n, from, to), IntervalsOf(log, n, from, to);
            && st.online + st.offline == st.seconds && st.online >= 0 && st.offline >= 0
            && st.downCount == |iv|
            && (st.from <= to ==>
                  && st.seconds == Whole(to - st.from)
                  && st.offline * SECOND <= TrueOffline(iv, st.from, to)
                  && TrueOffline(iv, st.from, to) <= st.offline * SECOND + (SECOND - 1) * st.downCount)
            && (st.from > to ==> st.seconds == 0)
  {
    var st, iv := NodeStats(nodes, log, n, from, to), IntervalsOf(log, n, from, to);
    var exists_ := ExistsOf(log, n, from, to);
    IntervalsAreChain(log, n, from, to);
    OutagesFollowExistence(log, n, from, to);
    hide Chain, Rebuild, ByTime, Inside, Prior;
    ClampIsIdle(iv, from, to, st.from, to);
    if st.from <= to {
      SecondsAgainstTrue(iv, from, to, st.from, to);
    }
  }

  /** Where the counting starts, for any log: at the latest of the window's
      start, the row's first-seen time and the start of existence. A node that
      is offline and of which the log knows nothing is not counted at all. */
  lemma CountingFrom(nodes: map<NodeId, NodeRow>, log: seq<NodeEvent>, n: NodeId, from: int, to: int)
    requires n in nodes
    ensures var st, f := NodeStats(nodes, log, n, from, to), ExistsOf(log, n, from, to);
            if f.None? && !nodes[n].online then st == Stats(to, to, 0, 0, 0, 0)
            else
              && st.to == to && st.from >= from && st.from >= nodes[n].firstSeen && (f.Some? ==> st.from >= f.value)
              && (st.from == from || st.from == nodes[n].firstSeen || f == Some(st.from))
  {
    hide Rebuild, ByTime, Inside, Prior, ExistsFrom, SumOverlap;
  }

  // ---------- days ----------

  /** Consecutive buckets from s to e. */
  ghost predicate Tiles(bs: seq<Bucket>, s: int, e: int)
    decreases |bs|
  {
    if bs == [] then s >= e
    else bs[0].start == s && s < bs[0].end <= e && Tiles(bs[1..], bs[0].end, e)
  }

  ghost predicate OnItsDay(cal: Calendar, b: Bucket) {
    && 0 <= b.day < |cal.midnights| - 1
    && cal.midnights[b.day] <= b.start < b.end <= cal.midnights[b.day + 1]
    && b.seconds == Whole(b.end - b.start) && b.offline == 0 && b.downCount == 0
  }

  /** The buckets cover the window without gap or overlap, each within its own
      day. */
  lemma {:induction false} BucketsTile(cal: Calendar, k: nat, from: int, to: int)
    requires Regular(cal) && k < |cal.midnights| && to <= cal.midnights[|cal.midnights| - 1]
    ensures Tiles(Buckets(cal, k, from, to), Max(cal.midnights[k], from), to)
    ensures forall i | 0 <= i < |Buckets(cal, k, from, to)| :: OnItsDay(cal, Buckets(cal, k, from, to)[i])
    decreases |cal.midnights| - k
  {
    hide Whole;
    BucketsStep(cal, k, from, to);
    if cal.midnights[k] < to {
      BucketsTile(cal, k + 1, from, to);
      var b, rest := BucketOf(cal, k, from, to), Buckets(cal, k + 1, from, to);
      if b.end > b.start {
        assert Buckets(cal, k, from, to) == [b] + rest;
        assert ([b] + rest)[1..] == rest;
        assert OnItsDay(cal, b);
      } else {
        assert Buckets(cal, k, from, to) == rest;
      }
    }
  }

  function FillAll(bs: seq<Bucket>, iv: seq<Interval>): seq<Bucket> {
    if bs == [] then [] else [Filled(bs[0], iv)] + FillAll(bs[1..], iv)
  }

  function SumSeconds(bs: seq<Bucket>): int {
    if bs == [] then 0 else bs[0].seconds + SumSeconds(bs[1..])
  }

  function SumOffline(bs: seq<Bucket>): int {
    if bs == [] then 0 else bs[0].offline + SumOffline(bs[1..])
  }

  function SumDown(bs: seq<Bucket>): int {
    if bs == [] then 0 else bs[0].downCount + SumDown(bs[1..])
  }

  predicate OnSecond(t: int) {
    t % SECOND == 0
  }

  ghost predicate AllOnSecond(iv: seq<Interval>) {
    forall i | 0 <= i < |iv| :: OnSecond(iv[i].start) && OnSecond(iv[i].end)
  }

  ghost predicate Forward(iv: seq<Interval>) {
    forall i | 0 <= i < |iv| :: iv[i].start <= iv[i].end
  }

  lemma WholeOnSecond(a: int, b: int)
    requires OnSecond(a) && OnSecond(b) && b <= a
    ensures Whole(a - b) * SECOND == a - b
  {
    assert (a - b) % SECOND == 0;
  }

  /** Between whole seconds nothing is truncated. */
  lemma OverlapOnSecond(x: Interval, s: int, e: int)
    requires OnSecond(x.start) && OnSecond(x.end) && OnSecond(s) && OnSecond(e)
    ensures Overlap(x, s, e) * SECOND == Max(Min(x.end, e) - Max(x.start, s), 0)
  {
    hide OnSecond, Whole;
    var a, b := Min(x.end, e), Max(x.start, s);
    if b <= a {
      WholeOnSecond(a, b);
    }
  }

  lemma OverlapSplit(x: Interval, s: int, m: int, e: int)
    requires OnSecond(x.start) && OnSecond(x.end) && OnSecond(s) && OnSecond(m) && OnSecond(e)
    requires s <= m <= e && x.start <= x.end
    ensures Overlap(x, s, e) == Overlap(x, s, m) + Overlap(x, m, e)
  {
    hide OnSecond, Overlap;
    OverlapOnSecond(x, s, e);
    OverlapOnSecond(x, s, m);
    OverlapOnSecond(x, m, e);
  }

  lemma {:induction false} SumOverlapSplit(iv: seq<Interval>, s: int, m: int, e: int)
    requires AllOnSecond(iv) && OnSecond(s) && OnSecond(m) && OnSecond(e) && s <= m <= e
    requires Forward(iv)
    ensures SumOverlap(iv, s, e) == SumOverlap(iv, s, m) + SumOverlap(iv, m, e)
  {
    hide OnSecond, Overlap;
    if iv != [] {
      SumOverlapSplit(iv[..|iv| - 1], s, m, e);
      OverlapSplit(iv[|iv| - 1], s, m, e);
    }
  }

  lemma {:induction false} StartsInSplit(iv: seq<Interval>, s: int, m: int, e: int)
    requires s <= m <= e
    ensures StartsIn(iv, s, e) == StartsIn(iv, s, m) + StartsIn(iv, m, e)
  {
    if iv != [] {
      StartsInSplit(iv[..|iv| - 1], s, m, e);
    }
  }

  lemma {:induction false} StartsInEmpty(iv: seq<Interval>, s: int)
    ensures StartsIn(iv, s, s) == 0
  {
    if iv != [] {
      StartsInEmpty(iv[..|iv| - 1], s);
    }
  }

  lemma {:induction false} StartsInAll(iv: seq<Interval>, s: int, e: int)
    ensures StartsIn(iv, s, e) <= |iv|
    ensures StartsIn(iv, s, e) == |iv| <==> forall i | 0 <= i < |iv| :: s <= iv[i].start < e
  {
    if iv != [] {
      var head, last := iv[..|iv| - 1], iv[|iv| - 1];
      StartsInAll(head, s, e);
      if s <= last.start < e && forall i | 0 <= i < |head| :: s <= head[i].start < e {
        assert forall i | 0 <= i < |iv| :: iv[i] == if i < |head| then head[i] else last;
      }
      if forall i | 0 <= i < |iv| :: s <= iv[i].start < e {
        assert forall i | 0 <= i < |head| :: head[i] == iv[i];
      }
    }
  }

  lemma {:induction false} DailyDown(bs: seq<Bucket>, iv: seq<Interval>, s: int, e: int)
    requires Tiles(bs, s, e) && s <= e
    requires forall i | 0 <= i < |bs| :: bs[i].downCount == 0
    ensures SumDown(FillAll(bs, iv)) == StartsIn(iv, s, e)
    decreases |bs|
  {
    hide SumOverlap;
    if bs == [] {
      StartsInEmpty(iv, s);
    } else {
      DailyDown(bs[1..], iv, bs[0].end, e);
      assert FillAll(bs, iv)[1..] == FillAll(bs[1..], iv);
      StartsInSplit(iv, s, bs[0].end, e);
    }
  }

  /** A bucket filled from intervals that lie in a chain. */
  lemma FilledDay(cal: Calendar, b: Bucket, iv: seq<Interval>, lo: int, hi: int)
    requires OnItsDay(cal, b) && Chain(iv, lo, hi)
    ensures Filled(b, iv).seconds == Whole(b.end - b.start) && Filled(b, iv).offline == SumOverlap(iv, b.start, b.end)
  {
    hide Chain;
    ClampIsIdle(iv, lo, hi, b.start, b.end);
  }

  lemma ChainForward(iv: seq<Interval>, lo: int, hi: int)
    requires Chain(iv, lo, hi)
    ensures Forward(iv)
  {
  }

  lemma ChainSplit(iv: seq<Interval>, lo: int, hi: int, s: int, m: int, e: int)
    requires AllOnSecond(iv) && OnSecond(s) && OnSecond(m) && OnSecond(e) && s <= m <= e && Chain(iv, lo, hi)
    ensures SumOverlap(iv, s, e) == SumOverlap(iv, s, m) + SumOverlap(iv, m, e)
    ensures Whole(e - s) == Whole(m - s) + Whole(e - m)
  {
    ChainForward(iv, lo, hi);
    WholeSplit(s, m, e);
    hide Chain, AllOnSecond, Forward, OnSecond, SumOverlap, Whole;
    SumOverlapSplit(iv, s, m, e);
  }

  lemma WholeSplit(s: int, m: int, e: int)
    requires OnSecond(s) && OnSecond(m) && OnSecond(e) && s <= m <= e
    ensures Whole(e - s) == Whole(m - s) + Whole(e - m)
  {
    hide OnSecond, Whole;
    WholeOnSecond(e, s);
    WholeOnSecond(m, s);
    WholeOnSecond(e, m);
  }

  lemma {:induction false} DailySums(cal: Calendar, bs: seq<Bucket>, iv: seq<Interval>, lo: int, hi: int,
                                     s: int, e: int)
    requires Tiles(bs, s, e) && s <= e && Chain(iv, lo, hi)
    requires forall i | 0 <= i < |bs| :: OnItsDay(cal, bs[i]) && OnSecond(bs[i].end)
    requires AllOnSecond(iv) && OnSecond(s) && OnSecond(e)
    ensures SumSeconds(FillAll(bs, iv)) == Whole(e - s)
    ensures SumOffline(FillAll(bs, iv)) == SumOverlap(iv, s, e)
    decreases |bs|
  {
    hide SumOverlap, Chain, AllOnSecond, OnSecond, Filled, OnItsDay, Whole;
    if bs == [] {
      EmptyWindow(iv, s, e);
      WholeSplit(s, s, e);
    } else {
      var b := bs[0];
      DailySums(cal, bs[1..], iv, lo, hi, b.end, e);
      assert FillAll(bs, iv)[1..] == FillAll(bs[1..], iv);
      FilledDay(cal, b, iv, lo, hi);
      ChainSplit(iv, lo, hi, s, b.end, e);
    }
  }

  /** fillUptimeDaily(dayBuckets(from, to), iv). */
  method Daily(cal: Calendar, from: int, to: int, iv: seq<Interval>) returns (out: seq<Bucket>)
    requires Spans(cal, from, to)
    ensures out == FillAll(Buckets(cal, DayOf(cal.midnights, from), from, to), iv)
  {
    hide DayOf, Buckets, Filled;
    var bs := DayBuckets(cal, from, to);
    if |bs| == 0 {
      return [];
    }
    var b := new Bucket[|bs|](i requires 0 <= i < |bs| => bs[i]);
    assert b[..] == bs;
    FillUptimeDaily(b, iv);
    FillAllAt(bs, iv);
    return b[..];
  }

  lemma {:induction false} FillAllAt(bs: seq<Bucket>, iv: seq<Interval>)
    ensures |FillAll(bs, iv)| == |bs|
    ensures forall i | 0 <= i < |bs| :: FillAll(bs, iv)[i] == Filled(bs[i], iv)
  {
    hide Filled;
    if bs != [] {
      FillAllAt(bs[1..], iv);
    }
  }

  /** The days of a node's page. They tile the counted window. When all
      timestamps are whole seconds their seconds and offline seconds add up to
      the figures of the window. Their down counts add up to the window's
      unless an outage begins outside [st.from, to), which the window counts
      and no day does. */
  lemma DaysAddUp(cal: Calendar, nodes: map<NodeId, NodeRow>, log: seq<NodeEvent>, n: NodeId, from: int, to: int)
    requires n in nodes && Regular(cal)
    requires var st := NodeStats(nodes, log, n, from, to); st.from <= to && Spans(cal, st.from, to)
    ensures var st, iv := NodeStats(nodes, log, n, from, to), IntervalsOf(log, n, from, to);
            var bs := Buckets(cal, DayOf(cal.midnights, st.from), st.from, to);
            var days := FillAll(bs, iv);
            && Tiles(bs, st.from, to) && (forall i | 0 <= i < |bs| :: OnItsDay(cal, bs[i]))
            && (SumDown(days) == st.downCount <==> forall i | 0 <= i < |iv| :: st.from <= iv[i].start < to)
            && ((forall i | 0 <= i < |cal.midnights| :: OnSecond(cal.midnights[i]))
                && AllOnSecond(iv) && OnSecond(st.from) && OnSecond(to) ==>
                  SumSeconds(days) == st.seconds && SumOffline(days) == st.offline)
  {
    var st, iv := NodeStats(nodes, log, n, from, to), IntervalsOf(log, n, from, to);
    var k := DayOf(cal.midnights, st.from);
    var bs := Buckets(cal, k, st.from, to);
    IntervalsAreChain(log, n, from, to);
    OutagesFollowExistence(log, n, from, to);
    ReportedSeconds(nodes, log, n, from, to);
    BucketsTile(cal, k, st.from, to);
    ClampIsIdle(iv, from, to, st.from, to);
    hide Rebuild, ByTime, Inside, Prior, Buckets, Tiles, DayOf;
    DailyDown(bs, iv, st.from, to);
    StartsInAll(iv, st.from, to);
    if (forall i | 0 <= i < |cal.midnights| :: OnSecond(cal.midnights[i]))
       && AllOnSecond(iv) && OnSecond(st.from) && OnSecond(to) {
      EndsOnSecond(cal, k, st.from, to);
      DailySums(cal, bs, iv, from, to, st.from, to);
    }
  }

  lemma {:induction false} EndsOnSecond(cal: Calendar, k: nat, from: int, to: int)
    requires k < |cal.midnights| && to <= cal.midnights[|cal.midnights| - 1]
    requires forall i | 0 <= i < |cal.midnights| :: OnSecond(cal.midnights[i])
    ensures OnSecond(to) ==>
              forall i | 0 <= i < |Buckets(cal, k, from, to)| :: OnSecond(Buckets(cal, k, from, to)[i].end)
    decreases |cal.midnights| - k
  {
    hide Whole;
    BucketsStep(cal, k, from, to);
    if cal.midnights[k] < to {
      EndsOnSecond(cal, k + 1, from, to);
    }
  }
}
