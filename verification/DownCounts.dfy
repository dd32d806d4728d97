/** When the days' outage counts add up to the window's, told from the log. */
module DownCounts {
  import opened Calendar
  import opened History
  import opened Options
  import opened Presence
  import opened Uptime
  import opened UptimeProofs

  /** The node goes offline at the very instant to. */
  predicate DropsAt(log: seq<NodeEvent>, n: NodeId, to: int) {
    exists i | 0 <= i < |log| :: log[i] == NodeEvent(n, false, to)
  }

  /** The node goes offline at the very instant to and is back within it. */
  predicate BouncesAt(log: seq<NodeEvent>, n: NodeId, to: int) {
    exists i, j | 0 <= i < j < |log| :: log[i] == NodeEvent(n, false, to) && log[j] == NodeEvent(n, true, to)
  }

  lemma DropsAppend(log: seq<NodeEvent>, e: NodeEvent, n: NodeId, to: int)
    ensures DropsAt(log + [e], n, to) <==> DropsAt(log, n, to) || e == NodeEvent(n, false, to)
  {
    var log' := log + [e];
    assert log'[|log|] == e;
    if DropsAt(log, n, to) {
      var i :| 0 <= i < |log| && log[i] == NodeEvent(n, false, to);
      assert log'[i] == log[i];
    }
  }

  lemma BouncesAppend(log: seq<NodeEvent>, e: NodeEvent, n: NodeId, to: int)
    ensures BouncesAt(log + [e], n, to) <==>
            BouncesAt(log, n, to) || (DropsAt(log, n, to) && e == NodeEvent(n, true, to))
  {
    var log' := log + [e];
    assert log'[|log|] == e;
    if BouncesAt(log, n, to) {
      var i, j :| 0 <= i < j < |log| && log[i] == NodeEvent(n, false, to) && log[j] == NodeEvent(n, true, to);
      assert log'[i] == log[i] && log'[j] == log[j];
    } else if DropsAt(log, n, to) {
      var i :| 0 <= i < |log| && log[i] == NodeEvent(n, false, to);
      assert log'[i] == log[i];
    }
  }

  lemma {:induction false} BouncesInside(log: seq<NodeEvent>, n: NodeId, from: int, to: int)
    requires from <= to
    ensures DropsAt(Inside(log, n, from, to), n, to) <==> DropsAt(log, n, to)
    ensures BouncesAt(Inside(log, n, from, to), n, to) <==> BouncesAt(log, n, to)
  {
    if log != [] {
      var head, e := log[..|log| - 1], log[|log| - 1];
      assert log == head + [e];
      hide DropsAt, BouncesAt;
      BouncesInside(head, n, from, to);
      DropsAppend(head, e, n, to);
      BouncesAppend(head, e, n, to);
      if e.node == n && from <= e.at <= to {
        DropsAppend(Inside(head, n, from, to), e, n, to);
        BouncesAppend(Inside(head, n, from, to), e, n, to);
      } else {
        assert Inside(log, n, from, to) == Inside(head, n, from, to);
      }
    }
  }

  /** Every offline event finds the state online. */
  predicate Alternates(st: Status, events: seq<NodeEvent>)
    decreases |events|
  {
    events == [] || ((events[0].online || st == On) && Alternates(Next(st, events[0]), events[1..]))
  }

  lemma {:induction false} AlternatesAppend(st: Status, events: seq<NodeEvent>, e: NodeEvent, t: int)
    requires Alternates(st, events) && (forall i | 0 <= i < |events| :: events[i].at <= t)
    requires e.online || StatusAt(st, events, t) == On
    ensures Alternates(st, events + [e])
    decreases |events|
  {
    if events == [] {
      assert (events + [e])[1..] == [];
    } else {
      assert (events + [e])[1..] == events[1..] + [e];
      AlternatesAppend(Next(st, events[0]), events[1..], e, t);
    }
  }

  lemma {:induction false} InsideAlternates(log: seq<NodeEvent>, n: NodeId, from: int, to: int)
    requires Sorted(log) && OnlineFirst(log) && Changes(log) && from <= to
    ensures Alternates(StateFrom(Prior(log, n, from)), Inside(log, n, from, to))
  {
    if log != [] {
      var head, e := log[..|log| - 1], log[|log| - 1];
      OnlineFirstHead(log, e.at);
      ChangesHead(log);
      hide OnlineFirst, Changes;
      InsideAlternates(head, n, from, to);
      if e.node == n && from <= e.at <= to {
        WindowFold(head, n, from, to, e.at);
        InsideSorted(head, n, from, to);
        AlternatesAppend(StateFrom(Prior(head, n, from)), Inside(head, n, from, to), e, e.at);
      } else if e.node == n && e.at < from {
        NothingInside(log, n, from, to);
      } else {
        assert Inside(log, n, from, to) == Inside(head, n, from, to);
      }
    }
  }

  lemma ChangesHead(log: seq<NodeEvent>)
    requires log != [] && Changes(log)
    ensures Changes(log[..|log| - 1])
    ensures var e := log[|log| - 1]; e.online || StateFrom(LastIn(log[..|log| - 1], e.node, e.at)) == On
  {
    var head := log[..|log| - 1];
    forall i | 0 <= i < |head| && !head[i].online
      ensures StateFrom(LastIn(head[..i], head[i].node, head[i].at)) == On
    {
      assert head[..i] == log[..i];
    }
  }

  ghost predicate StartsBy(iv: seq<Interval>, to: int) {
    forall i | 0 <= i < |iv| :: iv[i].start < to
  }

  predicate HasOnline(events: seq<NodeEvent>) {
    exists i | 0 <= i < |events| :: events[i].online
  }

  lemma HasOnlineHead(events: seq<NodeEvent>)
    requires events != []
    ensures HasOnline(events) <==> events[0].online || HasOnline(events[1..])
  {
    if HasOnline(events[1..]) {
      var i :| 0 <= i < |events[1..]| && events[1..][i].online;
      assert events[i + 1].online;
    }
    if HasOnline(events) && !events[0].online {
      var i :| 0 <= i < |events| && events[i].online;
      assert events[1..][i - 1].online;
    }
  }

  lemma BouncesRest(events: seq<NodeEvent>, n: NodeId, to: int)
    requires events != [] && BouncesAt(events[1..], n, to)
    ensures BouncesAt(events, n, to)
  {
    var rest := events[1..];
    var i, j :| 0 <= i < j < |rest| && rest[i] == NodeEvent(n, false, to) && rest[j] == NodeEvent(n, true, to);
    assert events[i + 1] == rest[i] && events[j + 1] == rest[j];
  }

  lemma BouncesFirst(events: seq<NodeEvent>, n: NodeId, to: int)
    requires events != [] && Sorted(events) && InWindow(events, n, events[0].at, to)
    requires events[0] == NodeEvent(n, false, to) && HasOnline(events[1..])
    ensures BouncesAt(events, n, to)
  {
    var j :| 0 <= j < |events[1..]| && events[1..][j].online;
    assert events[j + 1] == NodeEvent(n, true, to);
  }

  lemma BouncesOnly(events: seq<NodeEvent>, n: NodeId, to: int)
    requires BouncesAt(events, n, to)
    ensures BouncesAt(events[1..], n, to) || (events[0] == NodeEvent(n, false, to) && HasOnline(events[1..]))
  {
    var rest := events[1..];
    var i, j :| 0 <= i < j < |events| && events[i] == NodeEvent(n, false, to) && events[j] == NodeEvent(n, true, to);
    assert rest[j - 1] == NodeEvent(n, true, to) && rest[j - 1].online;
    assert i > 0 ==> rest[i - 1] == NodeEvent(n, false, to);
  }

  lemma BouncesHead(events: seq<NodeEvent>, n: NodeId, to: int)
    requires events != [] && Sorted(events) && InWindow(events, n, events[0].at, to)
    ensures BouncesAt(events, n, to) <==>
            BouncesAt(events[1..], n, to) || (events[0] == NodeEvent(n, false, to) && HasOnline(events[1..]))
  {
    var rest := events[1..];
    if BouncesAt(rest, n, to) {
      BouncesRest(events, n, to);
    } else if events[0] == NodeEvent(n, false, to) && HasOnline(rest) {
      BouncesFirst(events, n, to);
    }
    if BouncesAt(events, n, to) {
      BouncesOnly(events, n, to);
    }
  }

  lemma StartsByPrepend(x: Interval, iv: seq<Interval>, to: int)
    ensures StartsBy([x] + iv, to) <==> x.start < to && StartsBy(iv, to)
  {
    var all := [x] + iv;
    assert all[0] == x;
    assert forall i | 0 <= i < |iv| :: all[i + 1] == iv[i];
  }

  /** The rebuilt intervals all begin before to unless an offline state reached
      at to is left again. */
  lemma {:induction false} RebuildStarts(st: Status, offStart: int, events: seq<NodeEvent>, n: NodeId, lo: int, to: int)
    requires Sorted(events) && InWindow(events, n, lo, to) && Alternates(st, events)
    requires st == Off ==> offStart <= lo
    ensures !StartsBy(Rebuild(st, offStart, events, to), to) <==>
            (st == Off && offStart == to && HasOnline(events)) || BouncesAt(events, n, to)
    decreases |events|
  {
    if events != [] {
      var e, rest := events[0], events[1..];
      var st' := Next(st, e);
      var start := if st == On && st' == Off then e.at else offStart;
      var iv := Rebuild(st', start, rest, to);
      RebuildStarts(st', start, rest, n, e.at, to);
      hide StartsBy, HasOnline, BouncesAt;
      HasOnlineHead(events);
      BouncesHead(events, n, to);
      StartsByPrepend(Interval(offStart, e.at), iv, to);
    }
  }

  /** In every run, the down counts of a node's days add up to the window's
      unless the node goes offline and comes back at the very instant the window
      ends: the window counts that outage and no day does. */
  lemma DaysCountOutages(cal: Calendar, es: seq<Event>, n: NodeId, from: int, to: int)
    requires Ordered(es) && from < to && n in Run(START, es).nodes && Regular(cal)
    requires var s := Run(START, es);
             var st := NodeStats(s.nodes, s.events, n, from, to); st.from <= to && Spans(cal, st.from, to)
    ensures var s := Run(START, es);
            var st, iv := NodeStats(s.nodes, s.events, n, from, to), IntervalsOf(s.events, n, from, to);
            var days := FillAll(Buckets(cal, DayOf(cal.midnights, st.from), st.from, to), iv);
            SumDown(days) == st.downCount <==> !BouncesAt(s.events, n, to)
  {
    var s := Run(START, es);
    var log := s.events;
    var st, iv := NodeStats(s.nodes, log, n, from, to), IntervalsOf(log, n, from, to);
    DaysAddUp(cal, s.nodes, log, n, from, to);
    WindowCut(es, n, from, to);
    var first := if es == [] then 0 else es[0].now;
    StartInv(first);
    RunKeepsInv(START, es, first);
    var events := Inside(log, n, from, to);
    hide Run, Step, OnlineFirst, Changes, Sorted, BouncesAt, Alternates, Rebuild, Buckets, FillAll, DayOf;
    InsideSorted(log, n, from, to);
    InsideInWindow(log, n, from, to);
    ByTimeIdle(events);
    InsideAlternates(log, n, from, to);
    BouncesInside(log, n, from, to);
    RebuildStarts(StateFrom(Prior(log, n, from)), from, events, n, from, to);
  }

  /** Such a run: online at 0, offline and back online at ten seconds, seen
      through the window of those ten seconds. The one outage of the window is
      [10 s, 10 s], so the window counts it and the days' sum is 0. */
  lemma AnOutageNoDayCounts()
    ensures var n, to := "node", 10 * SECOND;
            var es := [Event(0, Online(n)), Event(to, Offline(n, false)), Event(to, Online(n))];
            var cal := Calendar([0, 86400 * SECOND], ["2024-01-01"]);
            var s := Run(START, es);
            && Ordered(es) && Regular(cal) && n in s.nodes
            && var st, iv := NodeStats(s.nodes, s.events, n, 0, to), IntervalsOf(s.events, n, 0, to);
            && Spans(cal, st.from, to) && iv == [Interval(to, to)] && st.downCount == 1
            && SumDown(FillAll(Buckets(cal, DayOf(cal.midnights, st.from), st.from, to), iv)) == 0
  {
    var n, to := "node", 10 * SECOND;
    var cal := Calendar([0, 86400 * SECOND], ["2024-01-01"]);
    var log := [NodeEvent(n, true, 0), NodeEvent(n, false, to), NodeEvent(n, true, to)];
    var s := Run(START, [Event(0, Online(n)), Event(to, Offline(n, false)), Event(to, Online(n))]);
    BouncingRun(n, to);
    BouncingLog(n, to);
    hide Run, Step, IntervalsOf, ExistsOf, FillAll, Buckets, DayOf, SumOverlap;
    var st, iv := NodeStats(s.nodes, log, n, 0, to), IntervalsOf(log, n, 0, to);
    BucketsTile(cal, DayOf(cal.midnights, 0), 0, to);
    DailyDown(Buckets(cal, DayOf(cal.midnights, 0), 0, to), iv, 0, to);
    assert StartsIn(iv, 0, to) == 0 by {
      assert iv[..0] == [];
    }
  }

  lemma BouncingRun(n: NodeId, to: int)
    requires to > 0
    ensures var es := [Event(0, Online(n)), Event(to, Offline(n, false)), Event(to, Online(n))];
            var s := Run(START, es);
            && s.events == [NodeEvent(n, true, 0), NodeEvent(n, false, to), NodeEvent(n, true, to)]
            && n in s.nodes && s.nodes[n] == NodeRow(true, 0)
  {
    var e0, e1, e2 := Event(0, Online(n)), Event(to, Offline(n, false)), Event(to, Online(n));
    var es := [e0, e1, e2];
    var s1 := Step(START, e0);
    var s2 := Step(s1, e1);
    var s3 := Step(s2, e2);
    assert s1.events == [NodeEvent(n, true, 0)] && s1.nodes == map[n := NodeRow(true, 0)];
    assert s2.events == s1.events + [NodeEvent(n, false, to)] && s2.nodes == map[n := NodeRow(false, 0)];
    assert s3.events == s2.events + [NodeEvent(n, true, to)] && s3.nodes == map[n := NodeRow(true, 0)];
    hide Step;
    assert es[1..] == [e1, e2] && [e1, e2][1..] == [e2] && [e2][1..] == [];
    assert Run(s2, [e2]) == Run(s3, []);
    assert Run(s1, [e1, e2]) == Run(s2, [e2]);
  }

  lemma LoadNothing(n: NodeId, from: int, to: int)
    ensures Inside([], n, from, to) == [] && Prior([], n, from) == None
  {
  }

  /** Loading one more event of the window. */
  lemma LoadNext(log: seq<NodeEvent>, e: NodeEvent, n: NodeId, from: int, to: int)
    requires e.node == n && from <= e.at <= to
    ensures Inside(log + [e], n, from, to) == Inside(log, n, from, to) + [e]
    ensures Prior(log + [e], n, from) == Prior(log, n, from)
  {
    assert (log + [e])[..|log|] == log;
  }

  lemma BouncingLog(n: NodeId, to: int)
    requires to > 0
    ensures var log := [NodeEvent(n, true, 0), NodeEvent(n, false, to), NodeEvent(n, true, to)];
            IntervalsOf(log, n, 0, to) == [Interval(to, to)] && ExistsOf(log, n, 0, to) == Some(0)
  {
    var a, b, c := NodeEvent(n, true, 0), NodeEvent(n, false, to), NodeEvent(n, true, to);
    LoadNext([], a, n, 0, to);
    LoadNext([a], b, n, 0, to);
    LoadNext([a, b], c, n, 0, to);
    LoadNothing(n, 0, to);
    hide Rebuild, ByTime, Inside, Prior;
    assert [] + [a] == [a] && [a] + [b] == [a, b] && [a, b] + [c] == [a, b, c];
    ByTimeIdle([a, b, c]);
    BouncingEvents(a, b, c, to);
  }

  lemma BouncingEvents(a: NodeEvent, b: NodeEvent, c: NodeEvent, to: int)
    requires a.online && !b.online && c.online && b.at == c.at == to
    ensures Rebuild(Absent, 0, [a, b, c], to) == [Interval(to, to)]
  {
    assert [a, b, c][1..] == [b, c] && [b, c][1..] == [c] && [c][1..] == [];
    assert Rebuild(On, to, [], to) == [];
    assert Rebuild(Off, to, [c], to) == [Interval(to, to)];
    assert Rebuild(On, 0, [b, c], to) == [Interval(to, to)];
  }
}
