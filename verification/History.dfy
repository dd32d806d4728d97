/** The event log is a faithful history: the intervals rebuilt from it are the
    instants at which the nodes table had the node offline. */
module History {
  import opened Calendar
  import opened Measure
  import opened Options
  import opened Presence
  import opened Uptime
  import opened UptimeProofs

  // ---------- what the log says about an instant ----------

  /** The node's last event at or before t. */
  function LastIn(log: seq<NodeEvent>, n: NodeId, t: int): Option<NodeEvent> {
    if log == [] then None
    else
      var last := log[|log| - 1];
      if last.node == n && last.at <= t then Some(last) else LastIn(log[..|log| - 1], n, t)
  }

  /** The state after the events up to t, starting from st. */
  function StatusAt(st: Status, events: seq<NodeEvent>, t: int): Status
    decreases |events|
  {
    if events == [] || events[0].at > t then st else StatusAt(Next(st, events[0]), events[1..], t)
  }

  /** Nobody goes offline before having been online. */
  ghost predicate OnlineFirst(log: seq<NodeEvent>) {
    forall i | 0 <= i < |log| && !log[i].online :: exists j | 0 <= j < i :: log[j].node == log[i].node
  }

  /** A node goes offline only from being online. */
  ghost predicate Changes(log: seq<NodeEvent>) {
    forall i | 0 <= i < |log| && !log[i].online :: StateFrom(LastIn(log[..i], log[i].node, log[i].at)) == On
  }

  lemma {:induction false} RebuildCovers(st: Status, offStart: int, events: seq<NodeEvent>, lo: int, to: int, t: int)
    requires Sorted(events) && forall i | 0 <= i < |events| :: lo <= events[i].at <= to
    requires lo <= t < to && (st == Off ==> offStart <= lo)
    ensures Covered(Rebuild(st, offStart, events, to), t) <==> StatusAt(st, events, t) == Off
    decreases |events|
  {
    if events == [] {
      assert st == Off ==> In(Rebuild(st, offStart, events, to)[0], t);
    } else {
      var e, rest := events[0], events[1..];
      var st' := Next(st, e);
      var start := if st == On && st' == Off then e.at else offStart;
      var iv := Rebuild(st', start, rest, to);
      RebuildChain(st', start, rest, e.at, to);
      if e.at <= t {
        RebuildCovers(st', start, rest, e.at, to, t);
      }
      if st == Off && st' == On {
        PrependCovers(Interval(offStart, e.at), iv, t);
      } else if e.at > t && st' == Off && st == Off {
        RebuildCovers(st', start, rest, lo, to, t);
        assert StatusAt(Off, rest, t) == Off by {
          assert rest == [] || rest[0].at > t;
        }
      }
    }
  }

  lemma PrependCovers(x: Interval, iv: seq<Interval>, t: int)
    ensures Covered([x] + iv, t) <==> In(x, t) || Covered(iv, t)
  {
    var all := [x] + iv;
    if Covered(iv, t) {
      var i :| 0 <= i < |iv| && In(iv[i], t);
      assert In(all[i + 1], t);
    }
    if In(x, t) {
      assert In(all[0], t);
    }
  }

  lemma {:induction false} StatusAtAppend(st: Status, events: seq<NodeEvent>, e: NodeEvent, t: int)
    requires Sorted(events + [e])
    ensures StatusAt(st, events + [e], t) ==
            if e.at <= t then Next(StatusAt(st, events, t), e) else StatusAt(st, events, t)
    decreases |events|
  {
    if events == [] {
      assert (events + [e])[1..] == [];
    } else {
      assert (events + [e])[0] == events[0] && (events + [e])[|events|] == e;
      assert (events + [e])[1..] == events[1..] + [e];
      StatusAtAppend(Next(st, events[0]), events[1..], e, t);
    }
  }

  lemma {:induction false} ByTimeIdle(s: seq<NodeEvent>)
    requires Sorted(s)
    ensures ByTime(s) == s
  {
    if s != [] {
      var head, last := s[..|s| - 1], s[|s| - 1];
      ByTimeIdle(head);
      assert head == [] || s[|s| - 2].at <= last.at;
      hide Sorted;
      assert InsertByTime(head, last) == head + [last] == s;
    }
  }

  lemma {:induction false} InsideSorted(log: seq<NodeEvent>, n: NodeId, from: int, to: int)
    requires Sorted(log)
    ensures Sorted(Inside(log, n, from, to))
    ensures forall i | 0 <= i < |Inside(log, n, from, to)| :: Inside(log, n, from, to)[i] in log
  {
    if log != [] {
      InsideSorted(log[..|log| - 1], n, from, to);
    }
  }

  lemma {:induction false} NothingInside(log: seq<NodeEvent>, n: NodeId, from: int, to: int)
    requires forall i | 0 <= i < |log| :: log[i].at < from
    ensures Inside(log, n, from, to) == []
  {
    if log != [] {
      NothingInside(log[..|log| - 1], n, from, to);
    }
  }

  lemma {:induction false} LastInFinds(log: seq<NodeEvent>, n: NodeId, t: int, j: nat)
    requires j < |log| && log[j].node == n && log[j].at <= t
    ensures LastIn(log, n, t).Some?
  {
    if j < |log| - 1 {
      LastInFinds(log[..|log| - 1], n, t, j);
    }
  }

  lemma {:induction false} PriorIsLastIn(log: seq<NodeEvent>, n: NodeId, from: int)
    ensures Prior(log, n, from) == LastIn(log, n, from - 1)
  {
    if log != [] {
      PriorIsLastIn(log[..|log| - 1], n, from);
    }
  }

  /** Reading the prior event and folding in the window's events gives the
      state after the last event at or before t. */
  lemma {:induction false} WindowFold(log: seq<NodeEvent>, n: NodeId, from: int, to: int, t: int)
    requires Sorted(log) && OnlineFirst(log) && from <= t <= to
    ensures StatusAt(StateFrom(Prior(log, n, from)), Inside(log, n, from, to), t) == StateFrom(LastIn(log, n, t))
  {
    hide StatusAt, OnlineFirst;
    if log == [] {
      StatusAtNothing(StateFrom(None), t);
    } else {
      var head, e := log[..|log| - 1], log[|log| - 1];
      OnlineFirstHead(log, t);
      WindowFold(head, n, from, to, t);
      InsideSorted(log, n, from, to);
      if e.node != n || e.at > to {
        assert Inside(log, n, from, to) == Inside(head, n, from, to);
      } else {
        if e.at < from {
          NothingInside(log, n, from, to);
          StatusAtNothing(StateFrom(Some(e)), t);
        } else {
          StatusAtAppend(StateFrom(Prior(head, n, from)), Inside(head, n, from, to), e, t);
        }
      }
    }
  }

  lemma StatusAtNothing(st: Status, t: int)
    ensures StatusAt(st, [], t) == st
  {
  }

  lemma OnlineFirstHead(log: seq<NodeEvent>, t: int)
    requires log != [] && OnlineFirst(log) && Sorted(log)
    ensures OnlineFirst(log[..|log| - 1])
    ensures var e := log[|log| - 1]; !e.online && e.at <= t ==> LastIn(log[..|log| - 1], e.node, t).Some?
  {
    hide LastIn;
    var head, e := log[..|log| - 1], log[|log| - 1];
    forall i | 0 <= i < |head| && !head[i].online
      ensures exists j | 0 <= j < i :: head[j].node == head[i].node
    {
      var j :| 0 <= j < i && log[j].node == log[i].node;
      assert head[j] == log[j];
    }
    if !e.online && e.at <= t {
      var j :| 0 <= j < |log| - 1 && log[j].node == e.node;
      LastInFinds(head, e.node, t, j);
    }
  }

  /** On a log whose ids follow time, an instant of the window is covered by the
      rebuilt intervals exactly when the last event before it says offline. */
  lemma LogIsHistory(log: seq<NodeEvent>, n: NodeId, from: int, to: int, t: int)
    requires Sorted(log) && OnlineFirst(log) && from <= t < to
    ensures Covered(IntervalsOf(log, n, from, to), t) <==> StateFrom(LastIn(log, n, t)) == Off
  {
    var events := Inside(log, n, from, to);
    InsideSorted(log, n, from, to);
    InsideInWindow(log, n, from, to);
    ByTimeIdle(events);
    WindowFold(log, n, from, to, t);
    RebuildCovers(StateFrom(Prior(log, n, from)), from, events, from, to, t);
  }

  // ---------- what a run keeps ----------

  function StatusOf(s: State, n: NodeId): Status {
    if n !in s.nodes then Absent else if s.nodes[n].online then On else Off
  }

  ghost predicate StatusLogged(s: State, clock: int) {
    forall n: NodeId, t: int | t >= clock :: StateFrom(LastIn(s.events, n, t)) == StatusOf(s, n)
  }

  ghost predicate SeenFirst(s: State) {
    forall i | 0 <= i < |s.events| ::
      s.events[i].node in s.nodes && s.nodes[s.events[i].node].firstSeen <= s.events[i].at
  }

  ghost predicate KnownLogged(s: State) {
    forall n | n in s.nodes :: exists i | 0 <= i < |s.events| :: s.events[i].node == n
  }

  ghost predicate Until(log: seq<NodeEvent>, clock: int) {
    forall i | 0 <= i < |log| :: log[i].at <= clock
  }

  ghost predicate LogInv(s: State, clock: int) {
    && Sorted(s.events) && Until(s.events, clock) && OnlineFirst(s.events) && Changes(s.events)
    && StatusLogged(s, clock) && SeenFirst(s) && KnownLogged(s)
  }

  /** A step logs at most one event, stamped with its own clock. */
  lemma StepAppends(s: State, e: Event)
    ensures Step(s, e).events == s.events
         || exists n: NodeId, on: bool :: Step(s, e).events == s.events + [NodeEvent(n, on, e.now)]
  {
    match e.action {
      case Online(n) => assert IsOnline(s, n) || Step(s, e).events == s.events + [NodeEvent(n, true, e.now)];
      case Offline(n, _) => assert !IsOnline(s, n) || Step(s, e).events == s.events + [NodeEvent(n, false, e.now)];
      case _ =>
    }
  }

  lemma OnlineFirstStays(log: seq<NodeEvent>, e: NodeEvent)
    requires OnlineFirst(log) && (e.online || exists j | 0 <= j < |log| :: log[j].node == e.node)
    ensures OnlineFirst(log + [e])
  {
    var log' := log + [e];
    forall i | 0 <= i < |log'| && !log'[i].online
      ensures exists j | 0 <= j < i :: log'[j].node == log'[i].node
    {
      var j :| 0 <= j < i && log[j].node == log'[i].node;
      assert log'[j] == log[j];
    }
  }

  lemma ChangesStays(log: seq<NodeEvent>, e: NodeEvent)
    requires Changes(log) && (e.online || StateFrom(LastIn(log, e.node, e.at)) == On)
    ensures Changes(log + [e])
  {
    var log' := log + [e];
    forall i | 0 <= i < |log'| && !log'[i].online
      ensures StateFrom(LastIn(log'[..i], log'[i].node, log'[i].at)) == On
    {
      assert log'[..i] == log[..i];
      assert i == |log| ==> log[..i] == log;
    }
  }

  lemma KnownStays(s: State, s': State, e: NodeEvent)
    requires KnownLogged(s) && s'.events == s.events + [e] && s'.nodes.Keys == s.nodes.Keys + {e.node}
    ensures KnownLogged(s')
  {
    assert s'.events[|s.events|].node == e.node;
    forall m | m in s'.nodes
      ensures exists i | 0 <= i < |s'.events| :: s'.events[i].node == m
    {
      if m != e.node {
        assert m in s.nodes;
        var i :| 0 <= i < |s.events| && s.events[i].node == m;
        assert s'.events[i].node == m;
      }
    }
  }

  lemma SortedStays(log: seq<NodeEvent>, e: NodeEvent, clock: int)
    requires Sorted(log) && Until(log, clock) && clock <= e.at
    ensures Sorted(log + [e]) && Until(log + [e], e.at)
  {
  }

  /** s' is s after the event e was logged and the node's row brought up to date. */
  ghost predicate Logged(s: State, s': State, e: NodeEvent) {
    && s'.events == s.events + [e]
    && e.node in s'.nodes && s'.nodes == s.nodes[e.node := s'.nodes[e.node]]
    && s'.nodes[e.node].online == e.online && (!e.online ==> IsOnline(s, e.node))
    && s'.nodes[e.node].firstSeen == if e.node in s.nodes then s.nodes[e.node].firstSeen else e.at
  }

  lemma SeenFirstStays(s: State, s': State, e: NodeEvent, clock: int)
    requires SeenFirst(s) && Until(s.events, clock) && clock <= e.at && Logged(s, s', e) && KnownLogged(s)
    ensures SeenFirst(s')
  {
    if e.node in s.nodes {
      var j :| 0 <= j < |s.events| && s.events[j].node == e.node;
      assert s.nodes[e.node].firstSeen <= s.events[j].at <= e.at;
    }
  }

  lemma StatusStays(s: State, s': State, e: NodeEvent, clock: int)
    requires StatusLogged(s, clock) && clock <= e.at && Logged(s, s', e)
    ensures StatusLogged(s', e.at)
  {
    assert s'.events[..|s.events|] == s.events && s'.events[|s.events|] == e;
    forall m: NodeId, t: int | t >= e.at
      ensures StateFrom(LastIn(s'.events, m, t)) == StatusOf(s', m)
    {
      assert StateFrom(LastIn(s.events, m, t)) == StatusOf(s, m);
    }
  }

  lemma AppendKeepsInv(s: State, s': State, e: NodeEvent, clock: int)
    requires LogInv(s, clock) && clock <= e.at && Logged(s, s', e)
    ensures LogInv(s', e.at)
  {
    if !e.online {
      assert exists j | 0 <= j < |s.events| :: s.events[j].node == e.node;
      assert StateFrom(LastIn(s.events, e.node, e.at)) == StatusOf(s, e.node);
    }
    assert s'.nodes.Keys == s.nodes.Keys + {e.node};
    hide KnownLogged, OnlineFirst, Changes, SeenFirst, StatusLogged, Sorted, Until;
    KnownStays(s, s', e);
    OnlineFirstStays(s.events, e);
    ChangesStays(s.events, e);
    SortedStays(s.events, e, clock);
    SeenFirstStays(s, s', e, clock);
    StatusStays(s, s', e, clock);
  }

  lemma SameKeepsInv(s: State, s': State, now: int, clock: int)
    requires LogInv(s, clock) && clock <= now && s'.events == s.events && s'.nodes == s.nodes
    ensures LogInv(s', now)
  {
    forall n: NodeId, t: int | t >= now
      ensures StateFrom(LastIn(s'.events, n, t)) == StatusOf(s', n)
    {
      assert StateFrom(LastIn(s.events, n, t)) == StatusOf(s, n);
    }
  }

  lemma StepKeepsInv(s: State, e: Event, clock: int)
    requires LogInv(s, clock) && clock <= e.now
    ensures LogInv(Step(s, e), e.now)
  {
    hide LogInv, Outages, InFlight;
    var s' := Step(s, e);
    match e.action {
      case Online(n) =>
        if IsOnline(s, n) {
          assert s'.nodes == s.nodes;
          SameKeepsInv(s, s', e.now, clock);
        } else {
          AppendKeepsInv(s, s', NodeEvent(n, true, e.now), clock);
        }
      case Offline(n, maint) =>
        if IsOnline(s, n) {
          AppendKeepsInv(s, s', NodeEvent(n, false, e.now), clock);
        } else {
          SameKeepsInv(s, s', e.now, clock);
        }
      case _ => SameKeepsInv(s, s', e.now, clock);
    }
  }

  lemma {:induction false} RunKeepsInv(s: State, es: seq<Event>, clock: int)
    requires LogInv(s, clock) && Ordered(es) && (es != [] ==> clock <= es[0].now)
    ensures LogInv(Run(s, es), if es == [] then clock else es[|es| - 1].now)
    decreases |es|
  {
    hide LogInv, Step;
    if es != [] {
      StepKeepsInv(s, es[0], clock);
      RunKeepsInv(Step(s, es[0]), es[1..], es[0].now);
    }
  }

  lemma StartInv(clock: int)
    ensures LogInv(START, clock)
  {
  }

  // ---------- the theorem ----------

  /** The steps taken up to and including time t. */
  function UpTo(es: seq<Event>, t: int): seq<Event>
    decreases |es|
  {
    if es == [] || es[0].now > t then [] else [es[0]] + UpTo(es[1..], t)
  }

  /** Was the nodes table's online flag off at time t? */
  predicate OfflineAt(es: seq<Event>, n: NodeId, t: int) {
    IsOffline(Run(START, UpTo(es, t)), n)
  }

  lemma {:induction false} UpToOrdered(es: seq<Event>, t: int)
    requires Ordered(es)
    ensures var a := UpTo(es, t);
            Ordered(a) && a <= es && (forall i | 0 <= i < |a| :: a[i].now <= t)
            && forall i | |a| <= i < |es| :: es[i].now > t
    decreases |es|
  {
    if es != [] && es[0].now <= t {
      UpToOrdered(es[1..], t);
    }
  }

  lemma {:induction false} RunSplit(s: State, es: seq<Event>, k: nat)
    requires k <= |es|
    ensures Run(s, es) == Run(Run(s, es[..k]), es[k..])
    decreases k
  {
    if k > 0 {
      RunSplit(Step(s, es[0]), es[1..], k - 1);
      assert es[..k][1..] == es[1..][..k - 1] && es[1..][k - 1..] == es[k..];
    }
  }

  /** Later steps do not change what the log says about an earlier instant. */
  lemma {:induction false} LaterStepsKeepPast(s: State, es: seq<Event>, n: NodeId, t: int)
    requires forall i | 0 <= i < |es| :: es[i].now > t
    ensures LastIn(Run(s, es).events, n, t) == LastIn(s.events, n, t)
    decreases |es|
  {
    if es != [] {
      var s' := Step(s, es[0]);
      StepAppends(s, es[0]);
      hide Step;
      if s'.events != s.events {
        assert s'.events[..|s.events|] == s.events;
      }
      LaterStepsKeepPast(s', es[1..], n, t);
    }
  }

  /** Faithful history: for every run with a clock that does not go back and
      every window, the rebuilt intervals contain exactly the instants of the
      window at which the node was known and its online flag was off. */
  lemma FaithfulHistory(es: seq<Event>, n: NodeId, from: int, to: int, t: int)
    requires Ordered(es) && from <= t < to
    ensures Covered(IntervalsOf(Run(START, es).events, n, from, to), t) <==> OfflineAt(es, n, t)
  {
    hide Step, IntervalsOf, Covered;
    var a := UpTo(es, t);
    var first := if es == [] then 0 else es[0].now;
    StartInv(first);
    RunKeepsInv(START, es, first);
    LogIsHistory(Run(START, es).events, n, from, to, t);
    UpToOrdered(es, t);
    assert es[..|a|] == a;
    RunSplit(START, es, |a|);
    LaterStepsKeepPast(Run(START, a), es[|a|..], n, t);
    var first' := if a == [] then t else a[0].now;
    StartInv(first');
    RunKeepsInv(START, a, first');
    assert StateFrom(LastIn(Run(START, a).events, n, t)) == StatusOf(Run(START, a), n);
  }

  // ---------- consequences for the reported seconds ----------

  lemma {:induction false} LastInIsThere(log: seq<NodeEvent>, n: NodeId, t: int)
    ensures LastIn(log, n, t).Some? ==> LastIn(log, n, t).value in log && LastIn(log, n, t).value.node == n
                                        && LastIn(log, n, t).value.at <= t
  {
    if log != [] {
      LastInIsThere(log[..|log| - 1], n, t);
    }
  }

  lemma {:induction false} ExistsFromEvent(events: seq<NodeEvent>, from: int)
    ensures var f := ExistsFrom(None, events, from);
            f.Some? ==> exists i | 0 <= i < |events| :: events[i].at == f.value
    decreases |events|
  {
    if events != [] && !events[0].online {
      ExistsFromEvent(events[1..], from);
      if ExistsFrom(None, events[1..], from).Some? {
        var i :| 0 <= i < |events[1..]| && events[1..][i].at == ExistsFrom(None, events[1..], from).value;
        assert events[i + 1].at == ExistsFrom(None, events, from).value;
      }
    }
  }

  /** The row's first-seen time never cuts into the part of the window in which
      the log knows the node. */
  lemma CountingStart(s: State, clock: int, n: NodeId, from: int, to: int)
    requires LogInv(s, clock) && n in s.nodes
    ensures var f := ExistsOf(s.events, n, from, to);
            f.Some? ==> StatsFrom(s.nodes[n], from, f) == f.value
  {
    var events := Inside(s.events, n, from, to);
    InsideSorted(s.events, n, from, to);
    InsideInWindow(s.events, n, from, to);
    ByTimeIdle(events);
    PriorIsLastIn(s.events, n, from);
    LastInIsThere(s.events, n, from - 1);
    if Prior(s.events, n, from).None? {
      ExistsFromEvent(events, from);
    }
  }

  lemma CoveredIn(iv: seq<Interval>, lo: int, hi: int, t: int)
    requires Chain(iv, lo, hi) && Covered(iv, t)
    ensures lo <= t < hi
  {
  }

  /** The offline seconds reported for a node of a run, against the time its
      online flag was really off in the window. */
  lemma HonestSeconds(es: seq<Event>, n: NodeId, from: int, to: int)
    requires Ordered(es) && from <= to && n in Run(START, es).nodes
    ensures var s := Run(START, es);
            var st := NodeStats(s.nodes, s.events, n, from, to);
            var down := Count(t => OfflineAt(es, n, t), from, to);
            && st.offline * SECOND <= down <= st.offline * SECOND + (SECOND - 1) * st.downCount
            && st.online + st.offline == st.seconds
            && forall i | 0 <= i < st.downCount :: st.from <= IntervalsOf(s.events, n, from, to)[i].start
  {
    hide Run, Step, LogInv, NodeStats, IntervalsOf, ExistsOf, Covered;
    var s := Run(START, es);
    var st, iv := NodeStats(s.nodes, s.events, n, from, to), IntervalsOf(s.events, n, from, to);
    ReportedSeconds(s.nodes, s.events, n, from, to);
    forall t | from <= t < to
      ensures OfflineAt(es, n, t) <==> Covered(iv, t)
    {
      FaithfulHistory(es, n, from, to, t);
    }
    CountSame(t => OfflineAt(es, n, t), t => Covered(iv, t), from, to);
    WindowCut(es, n, from, to);
  }

  /** Cutting the window at the start of the counting loses no outage. */
  lemma WindowCut(es: seq<Event>, n: NodeId, from: int, to: int)
    requires Ordered(es) && from <= to && n in Run(START, es).nodes
    ensures var s := Run(START, es);
            var st, iv := NodeStats(s.nodes, s.events, n, from, to), IntervalsOf(s.events, n, from, to);
            && TrueOffline(iv, from, to) == (if st.from <= to then TrueOffline(iv, st.from, to) else 0)
            && (st.from > to ==> st.offline == 0)
            && forall i | 0 <= i < |iv| :: st.from <= iv[i].start
  {
    hide Run, Step, IntervalsOf, ExistsOf, Covered, Rebuild, SumOverlap, Whole;
    var s := Run(START, es);
    var st, iv := NodeStats(s.nodes, s.events, n, from, to), IntervalsOf(s.events, n, from, to);
    var f := ExistsOf(s.events, n, from, to);
    var first := if es == [] then 0 else es[0].now;
    StartInv(first);
    RunKeepsInv(START, es, first);
    CountingStart(s, if es == [] then first else es[|es| - 1].now, n, from, to);
    OutagesFollowExistence(s.events, n, from, to);
    ReportedSeconds(s.nodes, s.events, n, from, to);
    var p := t => Covered(iv, t);
    if f.None? {
      NoneCovered(from, to);
      if st.from <= to {
        NoneCovered(st.from, to);
      }
    } else if f.value <= to {
      CountSplit(p, from, f.value, to);
      forall t | from <= t < f.value
        ensures !p(t)
      {
        if Covered(iv, t) {
          CoveredIn(iv, f.value, to, t);
        }
      }
      CountConst(p, from, f.value, false);
    } else {
      forall t | from <= t < to
        ensures !p(t)
      {
        if Covered(iv, t) {
          CoveredIn(iv, f.value, to, t);
        }
      }
      CountConst(p, from, to, false);
    }
  }

  lemma NoneCovered(s: int, e: int)
    requires s <= e
    ensures TrueOffline([], s, e) == 0
  {
    CountConst(t => Covered([], t), s, e, false);
  }
}
