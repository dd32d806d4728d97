/** The online seconds that are reported and rewarded, against the time the
    nodes table really had the node online. */
module OnlineTime {
  import opened Arith
  import opened Calendar
  import opened History
  import opened Measure
  import opened Options
  import opened Presence
  import opened Uptime
  import opened UptimeProofs

  /** Was the nodes table's online flag on at time t? */
  predicate OnlineAt(es: seq<Event>, n: NodeId, t: int) {
    IsOnline(Run(START, UpTo(es, t)), n)
  }

  // ---------- since when a node is known ----------

  predicate FirstEvent(s: State, n: NodeId)
    requires n in s.nodes
  {
    exists i | 0 <= i < |s.events| :: s.events[i] == NodeEvent(n, true, s.nodes[n].firstSeen)
  }

  /** Every known node has an online event at the time it was first seen. */
  ghost predicate FirstLogged(s: State) {
    forall n | n in s.nodes :: FirstEvent(s, n)
  }

  /** Rows are never deleted and keep the time of their first event. */
  lemma StepKeepsFirst(s: State, e: Event)
    ensures forall n | n in s.nodes :: n in Step(s, e).nodes && Step(s, e).nodes[n].firstSeen == s.nodes[n].firstSeen
    ensures forall n | n in Step(s, e).nodes && n !in s.nodes ::
              Step(s, e).nodes[n].firstSeen == e.now && Step(s, e).events == s.events + [NodeEvent(n, true, e.now)]
    ensures s.events <= Step(s, e).events
  {
    hide Outages, InFlight;
  }

  lemma StepKeepsFirstLogged(s: State, e: Event)
    requires FirstLogged(s)
    ensures FirstLogged(Step(s, e))
  {
    StepKeepsFirst(s, e);
    hide Step;
    var s' := Step(s, e);
    forall n | n in s'.nodes
      ensures FirstEvent(s', n)
    {
      if n in s.nodes {
        assert FirstEvent(s, n);
        var i :| 0 <= i < |s.events| && s.events[i] == NodeEvent(n, true, s.nodes[n].firstSeen);
        assert s'.events[i] == s.events[i];
      } else {
        assert s'.events[|s.events|] == NodeEvent(n, true, e.now);
      }
    }
  }

  lemma {:induction false} RunKeepsFirst(s: State, es: seq<Event>, n: NodeId)
    requires FirstLogged(s)
    ensures FirstLogged(Run(s, es))
    ensures n in s.nodes ==> n in Run(s, es).nodes && Run(s, es).nodes[n].firstSeen == s.nodes[n].firstSeen
    ensures n in Run(s, es).nodes && n !in s.nodes ==>
              exists i | 0 <= i < |es| :: Run(s, es).nodes[n].firstSeen == es[i].now
    decreases |es|
  {
    hide FirstLogged, Step;
    if es != [] {
      var s' := Step(s, es[0]);
      StepKeepsFirst(s, es[0]);
      StepKeepsFirstLogged(s, es[0]);
      RunKeepsFirst(s', es[1..], n);
      if n in Run(s, es).nodes && n !in s'.nodes {
        var i :| 0 <= i < |es[1..]| && Run(s', es[1..]).nodes[n].firstSeen == es[1..][i].now;
        assert Run(s, es).nodes[n].firstSeen == es[i + 1].now;
      }
    }
  }

  lemma NothingFirst()
    ensures FirstLogged(START)
  {
  }

  /** At time t a node of the run is known exactly if it has been seen by then. */
  lemma KnownSince(es: seq<Event>, n: NodeId, t: int)
    requires Ordered(es) && n in Run(START, es).nodes
    ensures n in Run(START, UpTo(es, t)).nodes <==> Run(START, es).nodes[n].firstSeen <= t
  {
    hide Run, Step, FirstLogged;
    var a := UpTo(es, t);
    UpToOrdered(es, t);
    assert es[..|a|] == a;
    RunSplit(START, es, |a|);
    NothingFirst();
    RunKeepsFirst(START, a, n);
    RunKeepsFirst(Run(START, a), es[|a|..], n);
  }

  // ---------- where the counting starts ----------

  /** The earliest online event. */
  lemma {:induction false} ExistsFromLeast(events: seq<NodeEvent>, from: int, i: nat)
    requires Sorted(events) && i < |events| && events[i].online
    requires forall j | 0 <= j < |events| :: events[i].at <= events[j].at
    ensures ExistsFrom(None, events, from) == Some(events[i].at)
    decreases |events|
  {
    if !events[0].online {
      ExistsFromLeast(events[1..], from, i - 1);
    }
  }

  lemma {:induction false} InsideHas(log: seq<NodeEvent>, n: NodeId, from: int, to: int, i: nat) returns (k: nat)
    requires i < |log| && log[i].node == n && from <= log[i].at <= to
    ensures k < |Inside(log, n, from, to)| && Inside(log, n, from, to)[k] == log[i]
  {
    if i == |log| - 1 {
      k := |Inside(log, n, from, to)| - 1;
    } else {
      k := InsideHas(log[..|log| - 1], n, from, to, i);
    }
  }

  lemma {:induction false} PriorIsThere(log: seq<NodeEvent>, n: NodeId, from: int, i: nat)
    requires i < |log| && log[i].node == n && log[i].at < from
    ensures Prior(log, n, from).Some?
  {
    if i < |log| - 1 {
      PriorIsThere(log[..|log| - 1], n, from, i);
    }
  }

  /** What is loaded for a window, and that nothing of it is older than the
      node's row. */
  lemma LoadedSince(s: State, clock: int, n: NodeId, from: int, to: int)
    requires LogInv(s, clock) && n in s.nodes
    ensures var events := Inside(s.events, n, from, to);
            && ByTime(events) == events && Sorted(events)
            && forall i | 0 <= i < |events| :: s.nodes[n].firstSeen <= events[i].at <= to
    ensures var p := Prior(s.events, n, from); p.Some? ==> s.nodes[n].firstSeen <= p.value.at < from
  {
    var log := s.events;
    var events := Inside(log, n, from, to);
    InsideSorted(log, n, from, to);
    InsideInWindow(log, n, from, to);
    PriorIsLastIn(log, n, from);
    LastInIsThere(log, n, from - 1);
    SeenBefore(s, clock);
    hide LogInv, Inside, Prior, LastIn, ByTime;
    ByTimeIdle(events);
    forall i | 0 <= i < |events|
      ensures s.nodes[n].firstSeen <= events[i].at <= to
    {
      assert events[i] in log && events[i].node == n;
    }
  }

  /** The start of existence that the log yields is the time the node was first
      seen, or the start of the window if that is later. */
  lemma ExistsIsFirstSeen(s: State, clock: int, n: NodeId, from: int, to: int)
    requires LogInv(s, clock) && FirstLogged(s) && n in s.nodes && from <= to
    ensures var first := s.nodes[n].firstSeen;
            ExistsOf(s.events, n, from, to) == if first > to then None else Some(Max(from, first))
  {
    assert FirstEvent(s, n);
    hide LogInv, FirstLogged, Inside, Prior, ByTime, Sorted, ExistsOf;
    LoadedSince(s, clock, n, from, to);
    var log, first := s.events, s.nodes[n].firstSeen;
    var i :| 0 <= i < |log| && log[i] == NodeEvent(n, true, first);
    if first < from {
      PriorIsThere(log, n, from, i);
      ExistsBefore(log, n, from, to);
    } else if first <= to {
      var k := InsideHas(log, n, from, to, i);
      ExistsWithin(log, n, from, to, k);
    } else {
      assert Inside(log, n, from, to) == [];
      ExistsNot(log, n, from, to);
    }
  }

  lemma ExistsBefore(log: seq<NodeEvent>, n: NodeId, from: int, to: int)
    requires Prior(log, n, from).Some?
    ensures ExistsOf(log, n, from, to) == Some(from)
  {
  }

  lemma ExistsWithin(log: seq<NodeEvent>, n: NodeId, from: int, to: int, k: nat)
    requires var events := Inside(log, n, from, to);
             && Prior(log, n, from).None? && ByTime(events) == events && Sorted(events)
             && k < |events| && events[k].online && forall j | 0 <= j < |events| :: events[k].at <= events[j].at
    ensures ExistsOf(log, n, from, to) == Some(Inside(log, n, from, to)[k].at)
  {
    hide Inside, Prior, ByTime, Sorted;
    ExistsFromLeast(Inside(log, n, from, to), from, k);
  }

  lemma ExistsNot(log: seq<NodeEvent>, n: NodeId, from: int, to: int)
    requires Prior(log, n, from).None? && Inside(log, n, from, to) == []
    ensures ExistsOf(log, n, from, to) == None
  {
  }

  lemma SeenBefore(s: State, clock: int)
    requires LogInv(s, clock)
    ensures forall e | e in s.events :: e.node in s.nodes && s.nodes[e.node].firstSeen <= e.at
  {
  }

  lemma SecondsSince(row: NodeRow, from: int, to: int, iv: seq<Interval>, f: Option<int>)
    requires from <= to && f == if row.firstSeen > to then None else Some(Max(from, row.firstSeen))
    ensures StatsOf(row, from, to, iv, f).seconds == Whole(Max(to - Max(from, row.firstSeen), 0))
  {
    hide SumOverlap;
  }

  /** In every run the counted seconds of a window are those since the node was
      first seen. */
  lemma CountedSeconds(es: seq<Event>, n: NodeId, from: int, to: int)
    requires Ordered(es) && from <= to && n in Run(START, es).nodes
    ensures var s := Run(START, es);
            NodeStats(s.nodes, s.events, n, from, to).seconds
            == Whole(Max(to - Max(from, s.nodes[n].firstSeen), 0))
  {
    hide Run, Step, LogInv, FirstLogged, IntervalsOf, ExistsOf, StatsOf, Whole, Max;
    var s := Run(START, es);
    var first := if es == [] then 0 else es[0].now;
    StartInv(first);
    RunKeepsInv(START, es, first);
    NothingFirst();
    RunKeepsFirst(START, es, n);
    ExistsIsFirstSeen(s, if es == [] then first else es[|es| - 1].now, n, from, to);
    SecondsSince(s.nodes[n], from, to, IntervalsOf(s.events, n, from, to), ExistsOf(s.events, n, from, to));
  }

  // ---------- the theorem ----------

  /** The online seconds reported for a node of a run are the time its online
      flag was on in the window, short of it by less than a second and over it
      by less than a second per outage. */
  lemma HonestOnline(es: seq<Event>, n: NodeId, from: int, to: int)
    requires Ordered(es) && from <= to && n in Run(START, es).nodes
    ensures var s := Run(START, es);
            var st := NodeStats(s.nodes, s.events, n, from, to);
            var up := Count(t => OnlineAt(es, n, t), from, to);
            up - (SECOND - 1) <= st.online * SECOND <= up + (SECOND - 1) * st.downCount
  {
    hide Run, NodeStats, OnlineAt, OfflineAt, IntervalsOf;
    HonestSeconds(es, n, from, to);
    CountedSeconds(es, n, from, to);
    UpAndDown(es, n, from, to);
  }

  /** On and off together make up the time since the node was first seen. */
  lemma UpAndDown(es: seq<Event>, n: NodeId, from: int, to: int)
    requires Ordered(es) && from <= to && n in Run(START, es).nodes
    ensures Count(t => OnlineAt(es, n, t), from, to) + Count(t => OfflineAt(es, n, t), from, to)
         == Max(to - Max(from, Run(START, es).nodes[n].firstSeen), 0)
  {
    hide Run;
    var first := Run(START, es).nodes[n].firstSeen;
    var known := t => t >= first;
    forall t | from <= t < to
      ensures (known(t) <==> OnlineAt(es, n, t) || OfflineAt(es, n, t)) && !(OnlineAt(es, n, t) && OfflineAt(es, n, t))
    {
      KnownSince(es, n, t);
    }
    CountUnion(t => OnlineAt(es, n, t), t => OfflineAt(es, n, t), known, from, to);
    var m := Min(Max(from, first), to);
    CountSplit(known, from, m, to);
    CountConst(known, from, m, false);
    CountConst(known, m, to, true);
  }
}
