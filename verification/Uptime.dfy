/** uptime.go: rebuilding a node's offline intervals from the event log and
    turning them into seconds, per window and per day. Ratios are left out. */
module Uptime {
  import opened Arith
  import opened Calendar
  import opened Options
  import opened Presence

  datatype Interval = Interval(start: int, end: int)

  datatype Status = Absent | On | Off

  datatype Stats = Stats(from: int, to: int, seconds: int, online: int, offline: int, downCount: int)

  datatype Bucket = Bucket(day: int, start: int, end: int, seconds: int, offline: int, downCount: int)

  // ---------- loading the events ----------

  /** The node's event with the largest id among those before from. */
  function Prior(log: seq<NodeEvent>, n: NodeId, from: int): Option<NodeEvent> {
    if log == [] then None
    else
      var last := log[|log| - 1];
      if last.node == n && last.at < from then Some(last) else Prior(log[..|log| - 1], n, from)
  }

  /** The node's events in [from, to], in id order. */
  function Inside(log: seq<NodeEvent>, n: NodeId, from: int, to: int): seq<NodeEvent> {
    if log == [] then []
    else
      var last := log[|log| - 1];
      Inside(log[..|log| - 1], n, from, to) + if last.node == n && from <= last.at <= to then [last] else []
  }

  function InsertByTime(s: seq<NodeEvent>, e: NodeEvent): seq<NodeEvent> {
    if s == [] || s[|s| - 1].at <= e.at then s + [e] else InsertByTime(s[..|s| - 1], e) + [s[|s| - 1]]
  }

  /** ORDER BY created_at, id. */
  function ByTime(s: seq<NodeEvent>): seq<NodeEvent> {
    if s == [] then [] else InsertByTime(ByTime(s[..|s| - 1]), s[|s| - 1])
  }

  // ---------- offline intervals ----------

  function StateFrom(prior: Option<NodeEvent>): Status {
    match prior
    case None => Absent
    case Some(e) => if e.online then On else Off
  }

  /** How uptimeForNode moves its state on one event. */
  function Next(st: Status, e: NodeEvent): Status {
    match st
    case Absent => if e.online then On else Absent
    case On => if e.online then On else Off
    case Off => if e.online then On else Off
  }

  /** The offline intervals found in the rest of the events. */
  function Rebuild(st: Status, offStart: int, events: seq<NodeEvent>, to: int): seq<Interval>
    decreases |events|
  {
    if events == [] then
      if st == Off && to > offStart then [Interval(offStart, to)] else []
    else
      var e, rest := events[0], events[1..];
      var st' := Next(st, e);
      if st == On && st' == Off then Rebuild(Off, e.at, rest, to)
      else if st == Off && st' == On then [Interval(offStart, e.at)] + Rebuild(On, offStart, rest, to)
      else Rebuild(st', offStart, rest, to)
  }

  /** From when on the node exists, if it does. */
  function ExistsFrom(prior: Option<NodeEvent>, events: seq<NodeEvent>, from: int): Option<int> {
    if prior.Some? then Some(from)
    else if events == [] then None
    else if events[0].online then Some(events[0].at)
    else ExistsFrom(None, events[1..], from)
  }

  method UptimeForNode(from: int, to: int, prior: Option<NodeEvent>, events: seq<NodeEvent>)
    returns (out: seq<Interval>, existsFrom: Option<int>)
    ensures out == Rebuild(StateFrom(prior), from, events, to)
    ensures existsFrom == ExistsFrom(prior, events, from)
  {
    out, existsFrom := [], None;
    var state, offStart := Absent, from;
    if prior.Some? {
      existsFrom := Some(from);
      state := if prior.value.online then On else Off;
    }
    var i := 0;
    while i < |events|
      invariant 0 <= i <= |events|
      invariant out + Rebuild(state, offStart, events[i..], to) == Rebuild(StateFrom(prior), from, events, to)
      invariant state == Absent ==>
                  && existsFrom.None? && prior.None?
                  && ExistsFrom(None, events[i..], from) == ExistsFrom(prior, events, from)
      invariant state != Absent ==> existsFrom == ExistsFrom(prior, events, from)
    {
      var e := events[i];
      assert events[i..][0] == e && events[i..][1..] == events[i + 1..];
      match state {
        case Absent =>
          if e.online {
            state, existsFrom := On, Some(e.at);
          }
        case On =>
          if !e.online {
            state, offStart := Off, e.at;
          }
        case Off =>
          if e.online {
            ghost var rest := Rebuild(On, offStart, events[i + 1..], to);
            assert out + ([Interval(offStart, e.at)] + rest) == (out + [Interval(offStart, e.at)]) + rest;
            out := out + [Interval(offStart, e.at)];
            state := On;
          }
      }
      i := i + 1;
    }
    if state == Off && to > offStart {
      out := out + [Interval(offStart, to)];
    }
  }

  // ---------- seconds ----------

  /** int64(d.Seconds()): truncation toward zero. */
  function Whole(d: int): int {
    if d >= 0 then d / SECOND else -((-d) / SECOND)
  }

  /** Seconds of an interval that fall into [s, e). */
  function Overlap(x: Interval, s: int, e: int): int {
    var d := Min(x.end, e) - Max(x.start, s);
    if d > 0 then Whole(d) else 0
  }

  function SumOverlap(iv: seq<Interval>, s: int, e: int): int {
    if iv == [] then 0 else SumOverlap(iv[..|iv| - 1], s, e) + Overlap(iv[|iv| - 1], s, e)
  }

  /** Where the counting of a window starts. */
  function StatsFrom(row: NodeRow, from: int, existsFrom: Option<int>): int {
    var f := Max(from, row.firstSeen);
    if existsFrom.Some? then Max(f, existsFrom.value) else f
  }

  function StatsOf(row: NodeRow, from: int, to: int, iv: seq<Interval>, existsFrom: Option<int>): Stats {
    if existsFrom.None? && !row.online then Stats(to, to, 0, 0, 0, 0)
    else
      var f := StatsFrom(row, from, existsFrom);
      var seconds := Max(Whole(to - f), 0);
      var offline := Min(SumOverlap(iv, f, to), seconds);
      Stats(f, to, seconds, seconds - offline, offline, |iv|)
  }

  lemma SumOverlapNext(iv: seq<Interval>, i: nat, s: int, e: int)
    requires i < |iv|
    ensures SumOverlap(iv[..i + 1], s, e) == SumOverlap(iv[..i], s, e) + Overlap(iv[i], s, e)
  {
    hide Overlap;
    assert iv[..i + 1][..i] == iv[..i];
  }

  method BuildUptimeStats(row: NodeRow, from: int, to: int, iv: seq<Interval>, existsFrom: Option<int>)
    returns (st: Stats)
    ensures st == StatsOf(row, from, to, iv, existsFrom)
  {
    hide Overlap, Whole;
    var f := from;
    if row.firstSeen > f {
      f := row.firstSeen;
    }
    if existsFrom.Some? && existsFrom.value > f {
      f := existsFrom.value;
    }
    if existsFrom.None? && !row.online {
      return Stats(to, to, 0, 0, 0, 0);
    }
    var seconds := Whole(to - f);
    if seconds < 0 {
      seconds := 0;
    }
    var offline, i := 0, 0;
    while i < |iv|
      invariant 0 <= i <= |iv|
      invariant offline == SumOverlap(iv[..i], f, to)
    {
      SumOverlapNext(iv, i, f, to);
      offline := offline + Overlap(iv[i], f, to);
      i := i + 1;
    }
    assert iv[..i] == iv;
    if offline > seconds {
      offline := seconds;
    }
    return Stats(f, to, seconds, seconds - offline, offline, |iv|);
  }

  // ---------- days ----------

  function BucketOf(cal: Calendar, k: nat, from: int, to: int): Bucket
    requires k + 1 < |cal.midnights|
  {
    var s, e := Max(cal.midnights[k], from), Min(cal.midnights[k + 1], to);
    Bucket(k, s, e, Whole(e - s), 0, 0)
  }

  /** The part of [from, to) on each day from day k on. */
  function Buckets(cal: Calendar, k: nat, from: int, to: int): seq<Bucket>
    requires k < |cal.midnights| && to <= cal.midnights[|cal.midnights| - 1]
    decreases |cal.midnights| - k
  {
    if cal.midnights[k] >= to then []
    else
      var b := BucketOf(cal, k, from, to);
      if b.end > b.start then [b] + Buckets(cal, k + 1, from, to) else Buckets(cal, k + 1, from, to)
  }

  lemma BucketsStep(cal: Calendar, k: nat, from: int, to: int)
    requires k < |cal.midnights| && to <= cal.midnights[|cal.midnights| - 1]
    ensures cal.midnights[k] >= to ==> Buckets(cal, k, from, to) == []
    ensures cal.midnights[k] < to ==>
              k + 1 < |cal.midnights| &&
              var b := BucketOf(cal, k, from, to);
              Buckets(cal, k, from, to) == (if b.end > b.start then [b] else []) + Buckets(cal, k + 1, from, to)
  {
    hide BucketOf;
  }

  method DayBuckets(cal: Calendar, from: int, to: int) returns (out: seq<Bucket>)
    requires Spans(cal, from, to)
    ensures out == Buckets(cal, DayOf(cal.midnights, from), from, to)
  {
    hide Whole, DayOf, Buckets;
    out := [];
    var day := DayOf(cal.midnights, from);
    while cal.midnights[day] < to
      invariant day < |cal.midnights|
      invariant out + Buckets(cal, day, from, to) == Buckets(cal, DayOf(cal.midnights, from), from, to)
      decreases |cal.midnights| - day
    {
      BucketsStep(cal, day, from, to);
      var s, e := cal.midnights[day], cal.midnights[day + 1];
      if s < from {
        s := from;
      }
      if e > to {
        e := to;
      }
      if e > s {
        out := out + [Bucket(day, s, e, Whole(e - s), 0, 0)];
      }
      day := day + 1;
    }
    BucketsStep(cal, day, from, to);
  }

  /** How many intervals begin in [s, e). */
  function StartsIn(iv: seq<Interval>, s: int, e: int): nat {
    if iv == [] then 0
    else StartsIn(iv[..|iv| - 1], s, e) + if s <= iv[|iv| - 1].start < e then 1 else 0
  }

  function Filled(b: Bucket, iv: seq<Interval>): Bucket {
    b.(offline := Min(b.offline + SumOverlap(iv, b.start, b.end), b.seconds),
       downCount := b.downCount + StartsIn(iv, b.start, b.end))
  }

  method FillUptimeDaily(b: array<Bucket>, iv: seq<Interval>)
    modifies b
    ensures forall i | 0 <= i < b.Length :: b[i] == Filled(old(b[i]), iv)
  {
    hide Overlap;
    var i := 0;
    while i < b.Length
      invariant 0 <= i <= b.Length
      invariant forall k | 0 <= k < i :: b[k] == Filled(old(b[k]), iv)
      invariant forall k | i <= k < b.Length :: b[k] == old(b[k])
    {
      ghost var b0 := b[i];
      var j := 0;
      while j < |iv|
        invariant 0 <= j <= |iv|
        invariant forall k | 0 <= k < i :: b[k] == Filled(old(b[k]), iv)
        invariant forall k | i < k < b.Length :: b[k] == old(b[k])
        invariant b[i] == b0.(offline := b0.offline + SumOverlap(iv[..j], b0.start, b0.end),
                              downCount := b0.downCount + StartsIn(iv[..j], b0.start, b0.end))
      {
        SumOverlapNext(iv, j, b0.start, b0.end);
        assert iv[..j + 1][..j] == iv[..j];
        var x := iv[j];
        b[i] := b[i].(offline := b[i].offline + Overlap(x, b[i].start, b[i].end));
        if b[i].start <= x.start < b[i].end {
          b[i] := b[i].(downCount := b[i].downCount + 1);
        }
        j := j + 1;
      }
      assert iv[..j] == iv;
      if b[i].offline > b[i].seconds {
        b[i] := b[i].(offline := b[i].seconds);
      }
      i := i + 1;
    }
  }

  // ---------- the query donation rewards use ----------

  function IntervalsOf(log: seq<NodeEvent>, n: NodeId, from: int, to: int): seq<Interval> {
    Rebuild(StateFrom(Prior(log, n, from)), from, ByTime(Inside(log, n, from, to)), to)
  }

  function ExistsOf(log: seq<NodeEvent>, n: NodeId, from: int, to: int): Option<int> {
    ExistsFrom(Prior(log, n, from), ByTime(Inside(log, n, from, to)), from)
  }

  function NodeStats(nodes: map<NodeId, NodeRow>, log: seq<NodeEvent>, n: NodeId, from: int, to: int): Stats
    requires n in nodes
  {
    StatsOf(nodes[n], from, to, IntervalsOf(log, n, from, to), ExistsOf(log, n, from, to))
  }

  function OnlineSeconds(nodes: map<NodeId, NodeRow>, log: seq<NodeEvent>, n: NodeId, from: int, to: int): int {
    if n in nodes then NodeStats(nodes, log, n, from, to).online else 0
  }

  method NodeOnlineSeconds(nodes: map<NodeId, NodeRow>, log: seq<NodeEvent>, n: NodeId, from: int, to: int)
    returns (seconds: int)
    ensures seconds == OnlineSeconds(nodes, log, n, from, to)
  {
    if n !in nodes {
      return 0;
    }
    var iv, exists_ := UptimeForNode(from, to, Prior(log, n, from), ByTime(Inside(log, n, from, to)));
    var st := BuildUptimeStats(nodes[n], from, to, iv, exists_);
    return st.online;
  }
}
