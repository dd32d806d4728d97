/** Which notices administrators get: recovery only after the down notice of
    the same outage, and silence for outages that end within the grace period. */
module Notices {
  import opened Calendar
  import opened Presence

  ghost predicate Told(notices: seq<Notice>, n: NodeId, k: nat) {
    Down(n, k) in notices
  }

  /** Some notice of either kind belongs to outage k of node n. */
  ghost predicate Mentioned(notices: seq<Notice>, n: NodeId, k: nat) {
    Down(n, k) in notices || Up(n, k) in notices
  }

  ghost predicate NodeOk(s: State, n: NodeId) {
    var k := Outages(s.events, n);
    var flagged := n in s.otaExempt || n in s.maintSuppressed;
    && (n in s.downPending || flagged ==> IsOffline(s, n))
    && (IsOffline(s, n) && n !in s.downPending && !flagged ==> Told(s.notices, n, k))
    && (n !in s.nodes ==> k == 0)
    && (IsOffline(s, n) ==> k > 0)
    && !(n in s.downPending && flagged)
  }

  /** No notice belongs to an outage that has not begun. */
  ghost predicate TagsOk(s: State) {
    forall i | 0 <= i < |s.notices| :: s.notices[i].outage <= Outages(s.events, s.notices[i].node)
  }

  /** Every recovery notice has its down notice before it. */
  ghost predicate Sound(notices: seq<Notice>) {
    forall i | 0 <= i < |notices| && notices[i].Up? :: Told(notices[..i], notices[i].node, notices[i].outage)
  }

  ghost predicate NotifyInv(s: State) {
    s.startupExempt == {} && (forall n: NodeId :: NodeOk(s, n)) && TagsOk(s) && Sound(s.notices)
  }

  lemma OutagesAppend(events: seq<NodeEvent>, e: NodeEvent, n: NodeId)
    ensures Outages(events + [e], n) == Outages(events, n) + if e.node == n && !e.online then 1 else 0
  {
    assert (events + [e])[..|events|] == events;
  }

  /** How a step changes what the invariant looks at. */
  lemma StepOutages(s: State, e: Event, n: NodeId)
    ensures var down := e.action.Offline? && e.action.node == n && IsOnline(s, n);
            Outages(Step(s, e).events, n) == Outages(s.events, n) + if down then 1 else 0
  {
    match e.action {
      case Online(m) => OutagesAppend(s.events, NodeEvent(m, true, e.now), n);
      case Offline(m, _) => OutagesAppend(s.events, NodeEvent(m, false, e.now), n);
      case _ =>
    }
  }

  /** A step sends at most one notice; it is about the node's latest outage and
      the node was offline when it was sent. */
  lemma StepNotices(s: State, e: Event)
    ensures var after := Step(s, e).notices;
            after == s.notices ||
            (exists x: Notice ::
               && after == s.notices + [x]
               && IsOffline(s, x.node) && x.outage == Outages(s.events, x.node)
               && (x.Up? ==> e.action == Online(x.node) && x.node !in s.downPending
                             && x.node !in s.otaExempt && x.node !in s.maintSuppressed))
  {
    var after := Step(s, e).notices;
    if after != s.notices {
      var x := after[|s.notices|];
      assert after == s.notices + [x];
    }
  }

  lemma StepKeepsNode(s: State, e: Event, n: NodeId)
    requires NodeOk(s, n)
    ensures NodeOk(Step(s, e), n)
  {
    hide Outages;
    match e.action {
      case Online(m) => OnlineKeepsNode(s, m, e.now, n);
      case Offline(m, maint) => OfflineKeepsNode(s, m, e.now, maint, n);
      case Timer(m) => TimerKeepsNode(s, m, e.now, n);
      case Timeout(i) => TimeoutKeepsNode(s, i, e.now, n);
      case _ =>
    }
  }

  lemma OnlineKeepsNode(s: State, m: NodeId, now: int, n: NodeId)
    requires NodeOk(s, n)
    ensures NodeOk(WentOnline(s, m, now), n)
  {
    hide Outages;
    OutagesAppend(s.events, NodeEvent(m, true, now), n);
    assert Told(s.notices, n, Outages(s.events, n)) ==> Told(WentOnline(s, m, now).notices, n, Outages(s.events, n));
  }

  lemma OfflineKeepsNode(s: State, m: NodeId, now: int, maint: bool, n: NodeId)
    requires NodeOk(s, n)
    ensures NodeOk(WentOffline(s, m, now, maint), n)
  {
    hide Outages, InFlight;
    OutagesAppend(s.events, NodeEvent(m, false, now), n);
  }

  lemma TimerKeepsNode(s: State, m: NodeId, now: int, n: NodeId)
    requires NodeOk(s, n)
    ensures NodeOk(TimerFired(s, m, now), n)
  {
    hide Outages;
    var s', k := TimerFired(s, m, now), Outages(s.events, n);
    assert Told(s.notices, n, k) ==> Told(s'.notices, n, k);
    if m == n && n in s.downPending && n !in s'.downPending {
      assert s'.notices[|s.notices|] == Down(n, k);
    }
  }

  lemma TimeoutKeepsNode(s: State, i: nat, now: int, n: NodeId)
    requires NodeOk(s, n)
    ensures NodeOk(TaskTimedOut(s, i, now), n)
  {
    hide Outages;
    var s', k := TaskTimedOut(s, i, now), Outages(s.events, n);
    assert Told(s.notices, n, k) ==> Told(s'.notices, n, k);
    if TimeoutHits(s, i, now) && s.tasks[i].node == n && IsOffline(s, n) {
      assert s'.notices[|s.notices|] == Down(n, k);
    }
  }

  lemma StepKeepsTags(s: State, e: Event)
    requires TagsOk(s)
    ensures TagsOk(Step(s, e))
  {
    hide Outages;
    StepNotices(s, e);
    var s' := Step(s, e);
    forall i | 0 <= i < |s'.notices|
      ensures s'.notices[i].outage <= Outages(s'.events, s'.notices[i].node)
    {
      hide Step;
      StepOutages(s, e, s'.notices[i].node);
    }
  }

  lemma StepKeepsSound(s: State, e: Event)
    requires NotifyInv(s)
    ensures Sound(Step(s, e).notices)
  {
    hide Outages, Step;
    StepNotices(s, e);
    var after := Step(s, e).notices;
    if after != s.notices {
      var x := after[|s.notices|];
      forall i | 0 <= i < |after| && after[i].Up?
        ensures Told(after[..i], after[i].node, after[i].outage)
      {
        if i < |s.notices| {
          assert after[..i] == s.notices[..i] && after[i] == s.notices[i];
        } else {
          assert after[..i] == s.notices && after[i] == x;
          assert NodeOk(s, x.node);
        }
      }
    }
  }

  lemma StepKeepsNotifyInv(s: State, e: Event)
    requires NotifyInv(s)
    ensures NotifyInv(Step(s, e))
  {
    forall n: NodeId
      ensures NodeOk(Step(s, e), n)
    {
      assert NodeOk(s, n);
      StepKeepsNode(s, e, n);
    }
    StepKeepsTags(s, e);
    StepKeepsSound(s, e);
  }

  lemma {:induction false} RunKeepsNotifyInv(s: State, events: seq<Event>)
    requires NotifyInv(s)
    ensures NotifyInv(Run(s, events))
    decreases |events|
  {
    if events != [] {
      StepKeepsNotifyInv(s, events[0]);
      RunKeepsNotifyInv(Step(s, events[0]), events[1..]);
    }
  }

  /** In every run from an empty node table a recovery notice is preceded by
      the down notice of the same outage. */
  lemma RecoveryFollowsDown(events: seq<Event>, i: nat)
    requires i < |Run(START, events).notices| && Run(START, events).notices[i].Up?
    ensures var notices := Run(START, events).notices;
            exists j | 0 <= j < i :: notices[j] == Down(notices[i].node, notices[i].outage)
  {
    assert NotifyInv(START);
    RunKeepsNotifyInv(START, events);
    var notices := Run(START, events).notices;
    assert Told(notices[..i], notices[i].node, notices[i].outage);
    var j :| 0 <= j < i && notices[..i][j] == Down(notices[i].node, notices[i].outage);
    assert notices[j] == notices[..i][j];
  }

  // ---------- when a notice is sent ----------

  /** The exact condition for a down notice: the grace timer of an outage that
      still lasts has come due, or an OTA task in flight for an offline node has
      run out of time. */
  lemma DownIff(s: State, e: Event, n: NodeId)
    ensures Step(s, e).notices == s.notices + [Down(n, Outages(s.events, n))] <==>
              && n in s.nodes && !s.nodes[n].online
              && ((e.action == Timer(n) && n in s.downPending && e.now >= s.downPending[n])
                  || (e.action.Timeout? && e.action.task < |s.tasks|
                      && var task := s.tasks[e.action.task];
                      task.node == n && task.inFlight && e.now - task.dispatchedAt > 900 * SECOND))
  {
    hide Outages;
    var x := Down(n, Outages(s.events, n));
    if Step(s, e).notices == s.notices + [x] {
      assert Step(s, e).notices[|s.notices|] == x;
    }
  }

  /** The exact condition for a recovery notice: in every run, a node coming
      back online is announced in that very step if and only if its outage was
      reported, its grace timer is no longer pending, and neither an OTA update
      nor a maintenance window exempts it. */
  lemma RecoveryIff(before: seq<Event>, n: NodeId, now: int)
    ensures var s := Run(START, before);
            var k := Outages(s.events, n);
            Step(s, Event(now, Online(n))).notices
            == s.notices + if && n in s.nodes && !s.nodes[n].online && Down(n, k) in s.notices
                              && n !in s.downPending && n !in s.otaExempt && n !in s.maintSuppressed
                           then [Up(n, k)] else []
  {
    assert NotifyInv(START);
    RunKeepsNotifyInv(START, before);
    hide Run, Outages, TagsOk, Sound;
    assert NodeOk(Run(START, before), n);
  }

  /** The notices of one outage in a run. Under maintenance, or while an OTA task
      is in flight, neither its beginning nor its end is announced. Otherwise
      its end is not announced if it comes before the timer, and once the timer
      has fired, 20 seconds after the beginning or later, both are. */
  lemma OutageIsAnnounced(before: seq<Event>, n: NodeId, t: int, maint: bool, fired: int, back: int)
    requires IsOnline(Run(START, before), n)
    ensures var s := Run(START, before);
            var down := Step(s, Event(t, Offline(n, maint)));
            var timed := Step(down, Event(fired, Timer(n)));
            var k := Outages(s.events, n) + 1;
            var quiet := maint || exists i | 0 <= i < |s.tasks| :: s.tasks[i].node == n && s.tasks[i].inFlight;
            && down.notices == s.notices
            && Step(down, Event(back, Online(n))).notices == s.notices
            && timed.notices == s.notices + (if !quiet && fired >= t + 20 * SECOND then [Down(n, k)] else [])
            && Step(timed, Event(back, Online(n))).notices
               == timed.notices + if !quiet && fired >= t + 20 * SECOND then [Up(n, k)] else []
  {
    assert NotifyInv(START);
    RunKeepsNotifyInv(START, before);
    var s := Run(START, before);
    hide Run, TagsOk, Sound;
    assert NodeOk(s, n);
    OneOutage(s, n, t, maint, fired, back);
  }

  /** An outage during an OTA update that was dispatched at "at": it is not
      announced unless the update has run for more than 15 minutes when the
      reconciler looks; then its beginning and its end are. */
  lemma OtaOutageIsAnnounced(before: seq<Event>, n: NodeId, at: int, t: int, look: int, back: int)
    requires IsOnline(Run(START, before), n)
    ensures var s := Run(START, before);
            var down := Step(Step(s, Event(at, Dispatch(n, at))), Event(t, Offline(n, false)));
            var looked := Step(down, Event(look, Timeout(|s.tasks|)));
            var k := Outages(s.events, n) + 1;
            && down.notices == s.notices
            && looked.notices == s.notices + (if look - at > 900 * SECOND then [Down(n, k)] else [])
            && Step(looked, Event(back, Online(n))).notices
               == looked.notices + if look - at > 900 * SECOND then [Up(n, k)] else []
  {
    assert NotifyInv(START);
    RunKeepsNotifyInv(START, before);
    var s := Run(START, before);
    hide Run, TagsOk, Sound, Outages;
    assert NodeOk(s, n);
    var sent := Dispatched(s, n, at);
    assert sent.tasks[|s.tasks|] == OtaTask(n, at, true);
    OutagesAppend(s.events, NodeEvent(n, false, t), n);
  }

  /** Maintenance swallows the recovery notice even of an outage that was
      reported: a node goes down under maintenance, an OTA update is sent to it
      and runs out of time, which reports the node, and its return is not
      announced. */
  lemma MaintenanceSwallowsRecovery(before: seq<Event>, n: NodeId, t: int, at: int, look: int, back: int)
    requires IsOnline(Run(START, before), n) && !InFlight(Run(START, before), n) && look - at > 900 * SECOND
    ensures var s := Run(START, before);
            var sent := Step(Step(s, Event(t, Offline(n, true))), Event(at, Dispatch(n, at)));
            var looked := Step(sent, Event(look, Timeout(|s.tasks|)));
            && sent.notices == s.notices && looked.notices == s.notices + [Down(n, Outages(s.events, n) + 1)]
            && Step(looked, Event(back, Online(n))).notices == looked.notices
  {
    var s := Run(START, before);
    OutagesAppend(s.events, NodeEvent(n, false, t), n);
    hide Run, Outages, InFlight;
    var down := WentOffline(s, n, t, true);
    assert Dispatched(down, n, at).tasks[|s.tasks|] == OtaTask(n, at, true);
  }

  /** An update that has ended no longer exempts the node. */
  lemma EndedUpdateExemptsNothing(s: State, n: NodeId, at: int, now: int)
    requires forall i | 0 <= i < |s.tasks| :: !(s.tasks[i].node == n && s.tasks[i].inFlight)
    ensures var sent := Step(s, Event(now, Dispatch(n, at)));
            InFlight(sent, n) && !InFlight(Step(sent, Event(now, Finish(|s.tasks|))), n)
  {
    var sent := Dispatched(s, n, at);
    assert sent.tasks[|s.tasks|].node == n && sent.tasks[|s.tasks|].inFlight;
  }

  lemma OneOutage(s: State, n: NodeId, t: int, maint: bool, fired: int, back: int)
    requires IsOnline(s, n) && NodeOk(s, n) && s.startupExempt == {}
    ensures var down := WentOffline(s, n, t, maint);
            var timed := TimerFired(down, n, fired);
            var k := Outages(s.events, n) + 1;
            var told := !maint && !InFlight(s, n) && fired >= t + 20 * SECOND;
            && down.notices == s.notices && WentOnline(down, n, back).notices == s.notices
            && timed.notices == s.notices + (if told then [Down(n, k)] else [])
            && WentOnline(timed, n, back).notices == timed.notices + if told then [Up(n, k)] else []
  {
    OutagesAppend(s.events, NodeEvent(n, false, t), n);
    hide Outages, InFlight;
  }

  // ---------- outages that end while the timer is pending ----------

  /** The nodes whose grace timer is pending and that an OTA timeout has
      already reported during the present outage. */
  ghost function Reported(s: State, hit: set<NodeId>, e: Event): set<NodeId> {
    match e.action
    case Offline(n, _) => if IsOnline(s, n) then hit - {n} else hit
    case Timeout(i) =>
      if TimeoutHits(s, i, e.now) && IsOffline(s, s.tasks[i].node) then hit + {s.tasks[i].node} else hit
    case _ => hit
  }

  ghost function RunReported(s: State, hit: set<NodeId>, events: seq<Event>): set<NodeId>
    decreases |events|
  {
    if events == [] then hit else RunReported(Step(s, events[0]), Reported(s, hit, events[0]), events[1..])
  }

  /** While the timer is pending, the outage has been mentioned exactly if an
      OTA timeout has reported it. */
  ghost predicate PendingExact(s: State, hit: set<NodeId>) {
    forall n | n in s.downPending :: n in hit <==> Mentioned(s.notices, n, Outages(s.events, n))
  }

  lemma FreshOutage(s: State, n: NodeId)
    requires TagsOk(s)
    ensures !Mentioned(s.notices, n, Outages(s.events, n) + 1)
  {
    hide Outages;
    assert forall i | 0 <= i < |s.notices| && s.notices[i].node == n :: s.notices[i].outage <= Outages(s.events, n);
  }

  lemma StepKeepsExact(s: State, hit: set<NodeId>, e: Event)
    requires NotifyInv(s) && PendingExact(s, hit)
    ensures PendingExact(Step(s, e), Reported(s, hit, e))
  {
    hide Outages, NodeOk, Sound, TagsOk, Mentioned, Step;
    var s', hit' := Step(s, e), Reported(s, hit, e);
    forall n | n in s'.downPending
      ensures n in hit' <==> Mentioned(s'.notices, n, Outages(s'.events, n))
    {
      assert NodeOk(s, n);
      assert n in s.downPending ==> (n in hit <==> Mentioned(s.notices, n, Outages(s.events, n)));
      StepKeepsExactAt(s, hit, e, n);
    }
  }

  lemma StepKeepsExactAt(s: State, hit: set<NodeId>, e: Event, n: NodeId)
    requires NodeOk(s, n) && TagsOk(s) && n in Step(s, e).downPending
    requires n in s.downPending ==> (n in hit <==> Mentioned(s.notices, n, Outages(s.events, n)))
    ensures n in Reported(s, hit, e) <==> Mentioned(Step(s, e).notices, n, Outages(Step(s, e).events, n))
  {
    StepOutages(s, e, n);
    hide Outages, InFlight;
    if n !in s.downPending {
      FreshOutage(s, n);
    } else {
      hide TagsOk;
      StillPending(s, hit, e, n);
    }
  }

  lemma StillPending(s: State, hit: set<NodeId>, e: Event, n: NodeId)
    requires NodeOk(s, n) && n in s.downPending && n in Step(s, e).downPending
    requires n in hit <==> Mentioned(s.notices, n, Outages(s.events, n))
    ensures n in Reported(s, hit, e) <==> Mentioned(Step(s, e).notices, n, Outages(s.events, n))
  {
    StepNotices(s, e);
    hide Outages, InFlight;
  }

  lemma {:induction false} RunKeepsExact(s: State, hit: set<NodeId>, events: seq<Event>)
    requires NotifyInv(s) && PendingExact(s, hit)
    ensures PendingExact(Run(s, events), RunReported(s, hit, events))
    decreases |events|
  {
    if events != [] {
      StepKeepsExact(s, hit, events[0]);
      StepKeepsNotifyInv(s, events[0]);
      RunKeepsExact(Step(s, events[0]), Reported(s, hit, events[0]), events[1..]);
    }
  }

  /** From here on outage k of node n cannot be mentioned any more. */
  ghost predicate Over(s: State, n: NodeId, k: nat) {
    Outages(s.events, n) >= k && n in s.nodes && (Outages(s.events, n) == k ==> IsOnline(s, n))
  }

  lemma StepKeepsOver(s: State, e: Event, n: NodeId, k: nat)
    requires Over(s, n, k)
    ensures Over(Step(s, e), n, k)
    ensures Mentioned(Step(s, e).notices, n, k) <==> Mentioned(s.notices, n, k)
  {
    hide Outages;
    StepOutages(s, e, n);
    StepNotices(s, e);
  }

  lemma {:induction false} RunKeepsOver(s: State, events: seq<Event>, n: NodeId, k: nat)
    requires Over(s, n, k)
    ensures Mentioned(Run(s, events).notices, n, k) <==> Mentioned(s.notices, n, k)
    decreases |events|
  {
    if events != [] {
      StepKeepsOver(s, events[0], n, k);
      RunKeepsOver(Step(s, events[0]), events[1..], n, k);
    }
  }

  /** The exact condition for silence: an outage that ends while its grace timer
      is pending is never mentioned, neither before nor after, if and only if no
      OTA timeout reported the node during that outage. */
  lemma SilentUnlessOtaTimeout(before: seq<Event>, n: NodeId, now: int, after: seq<Event>)
    requires n in Run(START, before).downPending
    ensures var s := Run(START, before);
            var later := Run(Step(s, Event(now, Online(n))), after);
            Mentioned(later.notices, n, Outages(s.events, n)) <==> n in RunReported(START, {}, before)
  {
    assert NotifyInv(START);
    RunKeepsNotifyInv(START, before);
    RunKeepsExact(START, {}, before);
    var s := Run(START, before);
    var e := Event(now, Online(n));
    var back := Step(s, e);
    hide Run, RunReported, Outages, Sound, TagsOk;
    assert NodeOk(s, n);
    StepOutages(s, e, n);
    assert back.notices == s.notices && IsOnline(back, n);
    RunKeepsOver(back, after, n, Outages(s.events, n));
  }

  // ---------- when that can happen ----------

  const DISPATCH_LAG: int := 60 * SECOND
  const TIMER_SLACK: int := OTA_TIMEOUT - GRACE - DISPATCH_LAG

  /** OTA rows are stored within a minute of their dispatch time, and no timer
      is still pending 820 seconds after it was due. */
  ghost predicate Prompt(s: State, events: seq<Event>)
    decreases |events|
  {
    events == [] ||
    (var e := events[0];
     && (e.action.Dispatch? ==> e.now - DISPATCH_LAG <= e.action.at)
     && (forall n | n in s.downPending :: e.now <= s.downPending[n] + TIMER_SLACK)
     && Prompt(Step(s, e), events[1..]))
  }

  /** Every task in flight for a node with a pending timer was dispatched no
      earlier than a lag before that outage. */
  ghost predicate TasksLate(s: State, now: int) {
    && (forall n | n in s.downPending :: s.downPending[n] - GRACE <= now)
    && (forall i | 0 <= i < |s.tasks| && s.tasks[i].inFlight && s.tasks[i].node in s.downPending ::
          s.tasks[i].dispatchedAt >= s.downPending[s.tasks[i].node] - GRACE - DISPATCH_LAG)
  }

  lemma StepKeepsTasksLate(s: State, e: Event, now: int)
    requires TasksLate(s, now) && now <= e.now
    requires e.action.Dispatch? ==> e.now - DISPATCH_LAG <= e.action.at
    ensures TasksLate(Step(s, e), e.now)
  {
    if e.action.Offline? && IsOnline(s, e.action.node) && !InFlight(s, e.action.node) {
      forall i | 0 <= i < |s.tasks| && s.tasks[i].node == e.action.node
        ensures !s.tasks[i].inFlight
      {
      }
    }
  }

  lemma {:induction false} PromptMeansUnreported(s: State, hit: set<NodeId>, events: seq<Event>, now: int)
    requires NotifyInv(s) && TasksLate(s, now) && Prompt(s, events) && Ordered(events)
    requires events != [] ==> now <= events[0].now
    requires forall n | n in s.downPending :: n !in hit
    ensures forall n | n in Run(s, events).downPending :: n !in RunReported(s, hit, events)
    decreases |events|
  {
    if events != [] {
      var e := events[0];
      var s', hit' := Step(s, e), Reported(s, hit, e);
      StepKeepsNotifyInv(s, e);
      StepKeepsTasksLate(s, e, now);
      forall n | n in s'.downPending
        ensures n !in hit'
      {
        assert NodeOk(s, n);
      }
      PromptMeansUnreported(s', hit', events[1..], e.now);
    }
  }

  /** With prompt timers an outage that ends while its timer is pending sends
      neither a down nor a recovery notice, at any time. */
  lemma ShortOutageIsSilent(before: seq<Event>, n: NodeId, now: int, after: seq<Event>)
    requires Ordered(before) && Prompt(START, before) && n in Run(START, before).downPending
    ensures var s := Run(START, before);
            var later := Run(Step(s, Event(now, Online(n))), after);
            !Mentioned(later.notices, n, Outages(s.events, n))
  {
    assert NotifyInv(START);
    PromptMeansUnreported(START, {}, before, if before == [] then 0 else before[0].now);
    SilentUnlessOtaTimeout(before, n, now, after);
  }

  function StalledRun(n: NodeId): seq<Event> {
    [Event(0, Online(n)), Event(1, Offline(n, false)), Event(2, Dispatch(n, 2)), Event(OTA_TIMEOUT + 3, Timeout(0))]
  }

  /** The run as far as the OTA timeout. */
  lemma StalledState(n: NodeId)
    ensures Run(START, StalledRun(n))
         == State(map[n := NodeRow(false, 0)], [NodeEvent(n, true, 0), NodeEvent(n, false, 1)], map[n := 1 + GRACE],
                  {}, {}, {}, [OtaTask(n, 2, false)], [Down(n, 1)])
  {
    hide Outages, InFlight;
    var on, off := NodeEvent(n, true, 0), NodeEvent(n, false, 1);
    var e := StalledRun(n);
    var s1 := State(map[n := NodeRow(true, 0)], [on], map[], {}, {}, {}, [], []);
    var s2 := State(map[n := NodeRow(false, 0)], [on, off], map[n := 1 + GRACE], {}, {}, {}, [], []);
    var s3 := s2.(tasks := [OtaTask(n, 2, true)]);
    assert Step(START, e[0]) == s1;
    assert Step(s1, e[1]) == s2 by { assert !InFlight(s1, n) by { NothingInFlight(s1, n); } }
    assert Step(s2, e[2]) == s3;
    OutagesOf(n);
    var s4 := s3.(tasks := [OtaTask(n, 2, false)], notices := [Down(n, 1)]);
    assert Step(s3, e[3]) == s4;
    hide Step;
    assert e[1..][1..] == e[2..] && e[2..][1..] == e[3..] && e[3..][1..] == [];
    assert Run(s3, e[3..]) == s4;
    assert Run(s2, e[2..]) == s4;
    assert Run(s1, e[1..]) == s4;
  }

  lemma NothingInFlight(s: State, n: NodeId)
    requires s.tasks == []
    ensures !InFlight(s, n)
  {
  }

  lemma OutagesOf(n: NodeId)
    ensures Outages([NodeEvent(n, true, 0), NodeEvent(n, false, 1)], n) == 1
  {
    OutagesAppend([], NodeEvent(n, true, 0), n);
    OutagesAppend([NodeEvent(n, true, 0)], NodeEvent(n, false, 1), n);
    assert [] + [NodeEvent(n, true, 0)] == [NodeEvent(n, true, 0)];
    assert [NodeEvent(n, true, 0)] + [NodeEvent(n, false, 1)] == [NodeEvent(n, true, 0), NodeEvent(n, false, 1)];
  }

  /** Without that assumption silence can fail: a process that does not run its
      20-second timer for 15 minutes lets an OTA timeout report the node first. */
  lemma StalledTimerIsNotSilent(n: NodeId)
    ensures var s := Run(START, StalledRun(n));
            && n in s.downPending
            && Mentioned(Run(Step(s, Event(OTA_TIMEOUT + 4, Online(n))), []).notices, n, Outages(s.events, n))
  {
    StalledState(n);
    OutagesOf(n);
    hide Outages;
    var s := Run(START, StalledRun(n));
    var back := Step(s, Event(OTA_TIMEOUT + 4, Online(n)));
    assert back.notices == [Down(n, 1)];
    assert Run(back, []) == back;
  }
}
