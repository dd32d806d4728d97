/** presence.go and the parts of ota.go that feed it: the nodes table, the event
    log, the grace timers and the flags that decide which notices are sent. A
    step runs without interruption and carries its clock in nanoseconds. */
module Presence {
  import opened Calendar

  const GRACE: int := 20 * SECOND
  const OTA_TIMEOUT: int := 900 * SECOND

  type NodeId = string

  datatype NodeRow = NodeRow(online: bool, firstSeen: int)

  datatype NodeEvent = NodeEvent(node: NodeId, online: bool, at: int)

  /** The outage number counts the node's offline events; it is the model's
      name for "the same outage" and is not part of the message. */
  datatype Notice = Down(node: NodeId, outage: nat) | Up(node: NodeId, outage: nat)

  datatype OtaTask = OtaTask(node: NodeId, dispatchedAt: int, inFlight: bool)

  datatype State = State(
    nodes: map<NodeId, NodeRow>,
    events: seq<NodeEvent>,
    downPending: map<NodeId, int>,     // when the grace timer is due
    startupExempt: set<NodeId>,
    otaExempt: set<NodeId>,
    maintSuppressed: set<NodeId>,
    tasks: seq<OtaTask>,
    notices: seq<Notice>)

  const START := State(map[], [], map[], {}, {}, {}, [], [])

  function Outages(events: seq<NodeEvent>, n: NodeId): nat {
    if events == [] then 0
    else
      var last := events[|events| - 1];
      Outages(events[..|events| - 1], n) + if last.node == n && !last.online then 1 else 0
  }

  predicate IsOnline(s: State, n: NodeId) {
    n in s.nodes && s.nodes[n].online
  }

  predicate IsOffline(s: State, n: NodeId) {
    n in s.nodes && !s.nodes[n].online
  }

  predicate InFlight(s: State, n: NodeId) {
    exists i | 0 <= i < |s.tasks| :: s.tasks[i].node == n && s.tasks[i].inFlight
  }

  /** recordNodeOnline. */
  function WentOnline(s: State, n: NodeId, now: int): State {
    var exempt := n in s.startupExempt || n in s.otaExempt || n in s.maintSuppressed;
    var recovered := IsOffline(s, n) && !exempt && n !in s.downPending;
    s.(nodes := s.nodes[n := if n in s.nodes then s.nodes[n].(online := true) else NodeRow(true, now)],
       events := if IsOnline(s, n) then s.events else s.events + [NodeEvent(n, true, now)],
       downPending := s.downPending - {n},
       startupExempt := s.startupExempt - {n},
       otaExempt := s.otaExempt - {n},
       maintSuppressed := s.maintSuppressed - {n},
       notices := if recovered then s.notices + [Up(n, Outages(s.events, n))] else s.notices)
  }

  /** recordNodeOffline; maint is what maintenanceHit answers at that moment. */
  function WentOffline(s: State, n: NodeId, now: int, maint: bool): State {
    if !IsOnline(s, n) then s
    else
      var t := s.(nodes := s.nodes[n := s.nodes[n].(online := false)],
                  events := s.events + [NodeEvent(n, false, now)]);
      if InFlight(s, n) then t.(otaExempt := s.otaExempt + {n})
      else if maint then t.(maintSuppressed := s.maintSuppressed + {n})
      else t.(downPending := s.downPending[n := now + GRACE])
  }

  /** The grace timer's callback. */
  function TimerFired(s: State, n: NodeId, now: int): State {
    if n !in s.downPending || now < s.downPending[n] then s
    else s.(downPending := s.downPending - {n},
            notices := if IsOffline(s, n) then s.notices + [Down(n, Outages(s.events, n))] else s.notices)
  }

  function Dispatched(s: State, n: NodeId, at: int): State {
    s.(tasks := s.tasks + [OtaTask(n, at, true)])
  }

  /** finishOTATask: the update is guarded by status = dispatched. */
  function TaskFinished(s: State, i: nat): State {
    if i < |s.tasks| then s.(tasks := s.tasks[i := s.tasks[i].(inFlight := false)]) else s
  }

  predicate TimeoutHits(s: State, i: nat, now: int) {
    i < |s.tasks| && s.tasks[i].inFlight && now - s.tasks[i].dispatchedAt > OTA_TIMEOUT
  }

  /** The timeout branch of otaReconcilerLoop. */
  function TaskTimedOut(s: State, i: nat, now: int): State {
    if !TimeoutHits(s, i, now) then s
    else
      var n := s.tasks[i].node;
      var t := TaskFinished(s, i);
      if IsOffline(s, n) then
        t.(otaExempt := s.otaExempt - {n}, notices := s.notices + [Down(n, Outages(s.events, n))])
      else t
  }

  datatype Action =
    | Online(node: NodeId)
    | Offline(node: NodeId, maint: bool)
    | Timer(node: NodeId)
    | Dispatch(node: NodeId, at: int)
    | Finish(task: nat)
    | Timeout(task: nat)

  datatype Event = Event(now: int, action: Action)

  function Step(s: State, e: Event): State {
    match e.action
    case Online(n) => WentOnline(s, n, e.now)
    case Offline(n, maint) => WentOffline(s, n, e.now, maint)
    case Timer(n) => TimerFired(s, n, e.now)
    case Dispatch(n, at) => Dispatched(s, n, at)
    case Finish(i) => TaskFinished(s, i)
    case Timeout(i) => TaskTimedOut(s, i, e.now)
  }

  function Run(s: State, events: seq<Event>): State
    decreases |events|
  {
    if events == [] then s else Run(Step(s, events[0]), events[1..])
  }

  /** The clock never goes back. */
  ghost predicate Ordered(events: seq<Event>) {
    forall i, j | 0 <= i < j < |events| :: events[i].now <= events[j].now
  }

  // ---------- the tables and maps of the process ----------

  class Tracker {
    var nodes: map<NodeId, NodeRow>
    var events: seq<NodeEvent>
    var downPending: map<NodeId, int>
    var startupExempt: set<NodeId>
    var otaExempt: set<NodeId>
    var maintSuppressed: set<NodeId>
    var tasks: seq<OtaTask>
    var notices: seq<Notice>

    function View(): State
      reads this
    {
      State(nodes, events, downPending, startupExempt, otaExempt, maintSuppressed, tasks, notices)
    }

    constructor ()
      ensures View() == START
    {
      nodes, events, downPending := map[], [], map[];
      startupExempt, otaExempt, maintSuppressed := {}, {}, {};
      tasks, notices := [], [];
    }

    method RecordNodeOnline(n: NodeId, now: int)
      modifies this
      ensures View() == WentOnline(old(View()), n, now)
    {
      hide Outages;
      var known := n in nodes;
      var wasOnline := known && nodes[n].online;
      var exempt := n in startupExempt;
      startupExempt := startupExempt - {n};
      if n in otaExempt {
        otaExempt := otaExempt - {n};
        exempt := true;
      }
      assert otaExempt == old(otaExempt) - {n};
      if n in maintSuppressed {
        maintSuppressed := maintSuppressed - {n};
        exempt := true;
      }
      assert maintSuppressed == old(maintSuppressed) - {n};
      var pending := n in downPending;
      if pending {
        downPending := downPending - {n};
      }
      assert downPending == old(downPending) - {n};
      var recovered := known && !wasOnline && !exempt && !pending;
      nodes := nodes[n := if known then nodes[n].(online := true) else NodeRow(true, now)];
      if recovered {
        notices := notices + [Up(n, Outages(events, n))];
      }
      if !known || !wasOnline {
        events := events + [NodeEvent(n, true, now)];
      }
    }

    method RecordNodeOffline(n: NodeId, now: int, maint: bool)
      modifies this
      ensures View() == WentOffline(old(View()), n, now, maint)
    {
      if n !in nodes {
        return;
      }
      var wasOnline := nodes[n].online;
      nodes := nodes[n := nodes[n].(online := false)];
      if wasOnline {
        events := events + [NodeEvent(n, false, now)];
        if InFlight(View(), n) {
          otaExempt := otaExempt + {n};
          return;
        }
        if maint {
          maintSuppressed := maintSuppressed + {n};
          return;
        }
        downPending := downPending[n := now + GRACE];
      } else {
        assert nodes == old(nodes);
      }
    }

    method GraceTimer(n: NodeId, now: int)
      modifies this
      ensures View() == TimerFired(old(View()), n, now)
    {
      if n !in downPending || now < downPending[n] {
        return;
      }
      downPending := downPending - {n};
      if n in nodes && !nodes[n].online {
        notices := notices + [Down(n, Outages(events, n))];
      }
    }

    method ReconcileTimeout(i: nat, now: int)
      modifies this
      ensures View() == TaskTimedOut(old(View()), i, now)
    {
      if i >= |tasks| || !tasks[i].inFlight {
        return;
      }
      if now - tasks[i].dispatchedAt > OTA_TIMEOUT {
        var n := tasks[i].node;
        tasks := tasks[i := tasks[i].(inFlight := false)];
        if n in nodes && !nodes[n].online {
          otaExempt := otaExempt - {n};
          notices := notices + [Down(n, Outages(events, n))];
        }
      }
    }
  }
}
