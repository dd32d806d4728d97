/** ws.go: which connection speaks for a node. Read loops, the eviction loop
    and everything that can close a connection interleave; a step is one
    section under the mutex or one call into the presence code. */
module Peers {
  import opened Options

  type NodeId = string

  datatype Stage =
    | Reading       // in the read loop
    | Announcing    // in peers, recordNodeOnline still to come
    | Reporting     // out of peers, recordNodeOffline still to come
    | Ended

  /** node is set once the connection has registered. */
  datatype Conn = Conn(node: Option<NodeId>, open: bool, stage: Stage)

  /** The connection the eviction loop is dealing with. */
  datatype Evicting = Idle | Closed(conn: nat) | Removed(conn: nat)

  /** online is the flag in the nodes table; batch is the eviction loop's copy
      of peers. */
  datatype State = State(
    conns: seq<Conn>, peers: map<NodeId, nat>, online: map<NodeId, bool>, batch: set<nat>, evicting: Evicting)

  const START := State([], map[], map[], {}, Idle)

  datatype Event =
    | Connect
    | Register(newcomer: nat, node: NodeId)
    | Announce(announced: nat)
    | Die(dying: nat)              // the network, Kick, a rotated key
    | Disconnect(leaving: nat)     // the read loop gets its error
    | Report(reported: nat)
    | Snapshot
    | EvictClose(idle: nat)
    | EvictRemove
    | EvictReport

  predicate Registered(s: State, c: nat) {
    c < |s.conns| && s.conns[c].node.Some?
  }

  function NodeOf(s: State, c: nat): NodeId
    requires Registered(s, c)
  {
    s.conns[c].node.value
  }

  predicate Current(s: State, c: nat) {
    Registered(s, c) && NodeOf(s, c) in s.peers && s.peers[NodeOf(s, c)] == c
  }

  function Close(conns: seq<Conn>, c: nat): seq<Conn> {
    if c < |conns| then conns[c := conns[c].(open := false)] else conns
  }

  function Staged(s: State, c: nat, stage: Stage): State
    requires c < |s.conns|
  {
    s.(conns := s.conns[c := s.conns[c].(stage := stage)])
  }

  function WithoutCurrent(s: State, c: nat): map<NodeId, nat> {
    if Current(s, c) then s.peers - {NodeOf(s, c)} else s.peers
  }

  /** recordNodeOffline changes only nodes it knows. */
  function MarkedOffline(s: State, c: nat): map<NodeId, bool>
    requires Registered(s, c)
  {
    if NodeOf(s, c) in s.online then s.online[NodeOf(s, c) := false] else s.online
  }

  predicate Enabled(s: State, e: Event) {
    match e
    case Connect => true
    case Register(c, _) => c < |s.conns| && s.conns[c].node.None? && s.conns[c].stage.Reading?
    case Announce(c) => Registered(s, c) && s.conns[c].stage.Announcing?
    case Die(c) => c < |s.conns|
    case Disconnect(c) => c < |s.conns| && s.conns[c].stage.Reading? && !s.conns[c].open
    case Report(c) => Registered(s, c) && s.conns[c].stage.Reporting?
    case Snapshot => s.evicting.Idle?
    case EvictClose(c) => s.evicting.Idle? && c in s.batch && Registered(s, c)
    case EvictRemove => s.evicting.Closed? && Registered(s, s.evicting.conn)
    case EvictReport => s.evicting.Removed? && Registered(s, s.evicting.conn)
  }

  function Step(s: State, e: Event): State {
    if !Enabled(s, e) then s
    else match e
      case Connect => s.(conns := s.conns + [Conn(None, true, Reading)])
      case Register(c, n) =>
        var closed := if n in s.peers then Close(s.conns, s.peers[n]) else s.conns;
        s.(conns := closed[c := s.conns[c].(node := Some(n), stage := Announcing)], peers := s.peers[n := c])
      case Announce(c) => Staged(s, c, Reading).(online := s.online[NodeOf(s, c) := true])
      case Die(c) => s.(conns := Close(s.conns, c))
      case Disconnect(c) =>
        if Current(s, c) then Staged(s, c, Reporting).(peers := WithoutCurrent(s, c)) else Staged(s, c, Ended)
      case Report(c) => Staged(s, c, Ended).(online := MarkedOffline(s, c))
      case Snapshot => s.(batch := set n | n in s.peers :: s.peers[n])
      case EvictClose(c) => s.(conns := Close(s.conns, c), batch := s.batch - {c}, evicting := Closed(c))
      case EvictRemove => s.(peers := WithoutCurrent(s, s.evicting.conn), evicting := Removed(s.evicting.conn))
      case EvictReport => s.(online := MarkedOffline(s, s.evicting.conn), evicting := Idle)
  }

  function Run(s: State, es: seq<Event>): State {
    if es == [] then s else Step(Run(s, es[..|es| - 1]), es[|es| - 1])
  }

  // ---------- who is in peers ----------

  ghost predicate Inv(s: State) {
    && (forall n | n in s.peers :: Registered(s, s.peers[n]) && NodeOf(s, s.peers[n]) == n)
    && (forall c: nat | Registered(s, c) && !Current(s, c) :: !s.conns[c].open)
    && (s.evicting.Closed? ==> Registered(s, s.evicting.conn) && !s.conns[s.evicting.conn].open)
    && (forall c: nat | c < |s.conns| && s.conns[c].stage.Reporting? :: !Current(s, c))
  }

  lemma RegisterKeepsInv(s: State, c: nat, n: NodeId)
    requires Inv(s) && Enabled(s, Register(c, n))
    ensures Inv(Step(s, Register(c, n)))
  {
    var s' := Step(s, Register(c, n));
    forall d: nat | Registered(s', d) && !Current(s', d)
      ensures !s'.conns[d].open
    {
      assert d != c && Registered(s, d);
    }
  }

  lemma DisconnectKeepsInv(s: State, c: nat)
    requires Inv(s) && Enabled(s, Disconnect(c))
    ensures Inv(Step(s, Disconnect(c)))
  {
    var stage := if Current(s, c) then Reporting else Ended;
    var s' := s.(conns := s.conns[c := s.conns[c].(stage := stage)], peers := WithoutCurrent(s, c));
    assert Step(s, Disconnect(c)) == s';
    hide Step;
    forall d: nat | Registered(s', d) && !Current(s', d)
      ensures !s'.conns[d].open
    {
      assert Registered(s, d);
    }
  }

  lemma EvictRemoveKeepsInv(s: State)
    requires Inv(s) && Enabled(s, EvictRemove)
    ensures Inv(Step(s, EvictRemove))
  {
    var s' := s.(peers := WithoutCurrent(s, s.evicting.conn), evicting := Removed(s.evicting.conn));
    assert Step(s, EvictRemove) == s';
    hide Step;
    forall d: nat | Registered(s', d) && !Current(s', d)
      ensures !s'.conns[d].open
    {
      assert Registered(s, d);
    }
  }

  /** Steps that leave peers alone may close connections, never open them. */
  lemma OtherKeepsInv(s: State, e: Event)
    requires Inv(s) && Enabled(s, e) && !e.Register? && !e.Disconnect? && !e.EvictRemove?
    ensures Inv(Step(s, e))
  {
    hide MarkedOffline, WithoutCurrent;
    var s' := Step(s, e);
    assert s'.peers == s.peers;
    assert forall d: nat | d < |s.conns| :: s'.conns[d].node == s.conns[d].node
                                            && (s'.conns[d].open ==> s.conns[d].open)
                                            && (s'.conns[d].stage.Reporting? ==> s.conns[d].stage.Reporting?);
    hide Step;
    forall d: nat | Registered(s', d) && !Current(s', d)
      ensures !s'.conns[d].open
    {
      assert Registered(s, d) && !Current(s, d);
    }
  }

  lemma StepKeepsInv(s: State, e: Event)
    requires Inv(s)
    ensures Inv(Step(s, e))
  {
    hide Inv;
    if Enabled(s, e) {
      match e {
        case Register(c, n) => RegisterKeepsInv(s, c, n);
        case Disconnect(c) => DisconnectKeepsInv(s, c);
        case EvictRemove => EvictRemoveKeepsInv(s);
        case _ => OtherKeepsInv(s, e);
      }
    }
  }

  lemma {:induction false} RunKeepsInv(es: seq<Event>)
    ensures Inv(Run(START, es))
  {
    hide Inv, Step;
    if es == [] {
      StartInv();
    } else {
      RunKeepsInv(es[..|es| - 1]);
      StepKeepsInv(Run(START, es[..|es| - 1]), es[|es| - 1]);
    }
  }

  lemma StartInv()
    ensures Inv(START)
  {
  }

  /** In every run a registered connection that is still open is the one peers
      holds for its node; all others have been closed or have died. So a node
      never has two open registered connections. */
  lemma ReplacedAreClosed(es: seq<Event>)
    ensures var s := Run(START, es);
            && (forall c: nat | Registered(s, c) && s.conns[c].open :: Current(s, c))
            && (forall c: nat, d: nat | Registered(s, c) && Registered(s, d) && NodeOf(s, c) == NodeOf(s, d)
                                        && s.conns[c].open && s.conns[d].open :: c == d)
  {
    RunKeepsInv(es);
  }

  /** A stale connection never takes its successor out: an entry of peers goes
      away only when its own connection, already closed, is disconnected or
      evicted, and it changes only when a newcomer registers for the node. */
  lemma SuccessorSurvives(es: seq<Event>, e: Event, n: NodeId)
    ensures var s := Run(START, es);
            var s' := Step(s, e);
            n in s.peers && (n !in s'.peers || s'.peers[n] != s.peers[n]) ==>
              || (n in s'.peers && e == Register(s'.peers[n], n))
              || (n !in s'.peers && !s.conns[s.peers[n]].open
                  && (e == Disconnect(s.peers[n]) || (e.EvictRemove? && s.evicting == Closed(s.peers[n]))))
  {
    hide Run;
    RunKeepsInv(es);
  }

  // ---------- peers and the online flag ----------

  /** No announcement or report is outstanding. */
  ghost predicate AtRest(s: State) {
    && (forall c: nat | c < |s.conns| :: s.conns[c].stage.Reading? || s.conns[c].stage.Ended?)
    && s.evicting.Idle?
  }

  predicate ShownOnline(s: State, n: NodeId) {
    n in s.online && s.online[n]
  }

  /** The nodes whose flag was last written against what peers said at that
      moment: announced while not in peers, or reported while in peers. */
  function Marked(s: State, e: Event, marked: set<NodeId>): set<NodeId> {
    if !Enabled(s, e) then marked
    else match e
      case Announce(c) => if NodeOf(s, c) in s.peers then marked - {NodeOf(s, c)} else marked + {NodeOf(s, c)}
      case Report(c) => if NodeOf(s, c) in s.peers then marked + {NodeOf(s, c)} else marked - {NodeOf(s, c)}
      case EvictReport =>
        var n := NodeOf(s, s.evicting.conn);
        if n in s.peers then marked + {n} else marked - {n}
      case _ => marked
  }

  function RunMarked(es: seq<Event>): set<NodeId> {
    if es == [] then {}
    else Marked(Run(START, es[..|es| - 1]), es[|es| - 1], RunMarked(es[..|es| - 1]))
  }

  /** Connection c still has to write the node's flag. */
  predicate Owes(s: State, c: nat, n: NodeId) {
    Registered(s, c) && NodeOf(s, c) == n
    && (s.conns[c].stage.Announcing? || s.conns[c].stage.Reporting? || s.evicting == Removed(c))
  }

  predicate Owed(s: State, n: NodeId) {
    exists c: nat | c < |s.conns| :: Owes(s, c, n)
  }

  predicate Agrees(s: State, n: NodeId) {
    ShownOnline(s, n) <==> n in s.peers
  }

  /** A write is owed, or the flag agrees with peers unless its last write did
      not. */
  ghost predicate FlagOk(s: State, marked: set<NodeId>, n: NodeId) {
    Owed(s, n) || (Agrees(s, n) <==> n !in marked)
  }

  lemma StillOwed(s: State, s': State, n: NodeId)
    requires Owed(s, n) && |s.conns| <= |s'.conns|
    requires forall c: nat | c < |s.conns| && Owes(s, c, n) :: Owes(s', c, n)
    ensures Owed(s', n)
  {
    var c: nat :| c < |s.conns| && Owes(s, c, n);
    assert Owes(s', c, n);
  }

  /** A change that does not write the node's flag: if it moves the node in or
      out of peers, connection c now owes the write. */
  lemma MoveKeepsFlag(s: State, s': State, marked: set<NodeId>, n: NodeId, c: nat)
    requires FlagOk(s, marked, n) && s'.online == s.online && |s.conns| <= |s'.conns|
    requires forall d: nat | d < |s.conns| && Owes(s, d, n) :: Owes(s', d, n)
    requires Owes(s', c, n) || (n in s'.peers <==> n in s.peers)
    ensures FlagOk(s', marked, n)
  {
    hide Owes;
    if Owed(s, n) {
      StillOwed(s, s', n);
    } else if Owes(s', c, n) {
      assert c < |s'.conns| by { OwesKnown(s', c, n); }
    }
  }

  lemma OwesKnown(s: State, c: nat, n: NodeId)
    requires Owes(s, c, n)
    ensures c < |s.conns|
  {
  }

  lemma RegisterKeepsFlag(s: State, c: nat, m: NodeId, marked: set<NodeId>, n: NodeId)
    requires FlagOk(s, marked, n) && Enabled(s, Register(c, m))
    ensures FlagOk(Step(s, Register(c, m)), marked, n)
  {
    hide FlagOk;
    MoveKeepsFlag(s, Step(s, Register(c, m)), marked, n, c);
  }

  lemma DisconnectKeepsFlag(s: State, c: nat, marked: set<NodeId>, n: NodeId)
    requires FlagOk(s, marked, n) && Enabled(s, Disconnect(c))
    ensures FlagOk(Step(s, Disconnect(c)), marked, n)
  {
    hide FlagOk;
    MoveKeepsFlag(s, Step(s, Disconnect(c)), marked, n, c);
  }

  lemma EvictRemoveKeepsFlag(s: State, marked: set<NodeId>, n: NodeId)
    requires FlagOk(s, marked, n) && Enabled(s, EvictRemove)
    ensures FlagOk(Step(s, EvictRemove), marked, n)
  {
    hide FlagOk;
    MoveKeepsFlag(s, Step(s, EvictRemove), marked, n, s.evicting.conn);
  }

  lemma QuietKeepsFlag(s: State, e: Event, marked: set<NodeId>, n: NodeId)
    requires FlagOk(s, marked, n) && Enabled(s, e) && (e.Connect? || e.Die? || e.Snapshot? || e.EvictClose?)
    ensures FlagOk(Step(s, e), marked, n)
  {
    var s' := Step(s, e);
    assert s'.peers == s.peers && s'.online == s.online;
    if Owed(s, n) {
      StillOwed(s, s', n);
    }
  }

  /** Steps that write the flag of node m. */
  lemma WriteKeepsFlag(s: State, e: Event, marked: set<NodeId>, n: NodeId, m: NodeId)
    requires FlagOk(s, marked, n) && Enabled(s, e) && (e.Announce? || e.Report? || e.EvictReport?)
    requires m == NodeOf(s, if e.Announce? then e.announced else if e.Report? then e.reported else s.evicting.conn)
    ensures FlagOk(Step(s, e), Marked(s, e, marked), n)
  {
    var s' := Step(s, e);
    assert s'.peers == s.peers;
    if n == m {
      assert ShownOnline(s', n) <==> e.Announce?;
    } else if Owed(s, n) {
      StillOwed(s, s', n);
    }
  }

  lemma StepKeepsFlag(s: State, e: Event, marked: set<NodeId>, n: NodeId)
    requires Inv(s) && FlagOk(s, marked, n)
    ensures FlagOk(Step(s, e), Marked(s, e, marked), n)
  {
    hide Inv, FlagOk;
    if Enabled(s, e) {
      match e {
        case Announce(c) => WriteKeepsFlag(s, e, marked, n, NodeOf(s, c));
        case Report(c) => WriteKeepsFlag(s, e, marked, n, NodeOf(s, c));
        case EvictReport => WriteKeepsFlag(s, e, marked, n, NodeOf(s, s.evicting.conn));
        case Register(c, m) => RegisterKeepsFlag(s, c, m, marked, n);
        case Disconnect(c) => DisconnectKeepsFlag(s, c, marked, n);
        case EvictRemove => EvictRemoveKeepsFlag(s, marked, n);
        case _ => QuietKeepsFlag(s, e, marked, n);
      }
    }
  }

  lemma {:induction false} RunKeepsFlag(es: seq<Event>, n: NodeId)
    ensures FlagOk(Run(START, es), RunMarked(es), n)
  {
    hide Inv, FlagOk, Step, Marked;
    if es == [] {
      StartFlag(n);
    } else {
      var head := es[..|es| - 1];
      RunKeepsFlag(head, n);
      RunKeepsInv(head);
      StepKeepsFlag(Run(START, head), es[|es| - 1], RunMarked(head), n);
    }
  }

  lemma StartFlag(n: NodeId)
    ensures FlagOk(START, {}, n)
  {
  }

  lemma NothingOwed(s: State, n: NodeId)
    requires AtRest(s)
    ensures !Owed(s, n)
  {
  }

  /** The exact condition: at rest a node is shown online exactly when it is
      connected, if and only if the last write of its flag agreed with peers
      at that moment. */
  lemma {:induction false} FlagAgreesUnlessMarked(es: seq<Event>, n: NodeId)
    requires AtRest(Run(START, es))
    ensures Agrees(Run(START, es), n) <==> n !in RunMarked(es)
  {
    hide Run, Step, Marked, Agrees;
    RunKeepsFlag(es, n);
    NothingOwed(Run(START, es), n);
  }

  /** The step does not write the online flag against what peers says. */
  predicate Timely(s: State, e: Event) {
    Enabled(s, e) ==>
      match e
      case Announce(c) => NodeOf(s, c) in s.peers
      case Report(c) => NodeOf(s, c) !in s.peers
      case EvictReport => NodeOf(s, s.evicting.conn) !in s.peers
      case _ => true
  }

  ghost predicate AllTimely(es: seq<Event>)
    decreases |es|
  {
    es == [] || (AllTimely(es[..|es| - 1]) && Timely(Run(START, es[..|es| - 1]), es[|es| - 1]))
  }

  lemma {:induction false} TimelyMarksNothing(es: seq<Event>)
    requires AllTimely(es)
    ensures RunMarked(es) == {}
  {
    hide Run, Step;
    if es != [] {
      TimelyMarksNothing(es[..|es| - 1]);
    }
  }

  /** In particular, if every write is made in time, every flag agrees. */
  lemma {:induction false} FlagsFollowPeers(es: seq<Event>, n: NodeId)
    requires AllTimely(es) && AtRest(Run(START, es))
    ensures ShownOnline(Run(START, es), n) <==> n in Run(START, es).peers
  {
    TimelyMarksNothing(es);
    hide Run, RunMarked;
    FlagAgreesUnlessMarked(es, n);
  }

  lemma Extend(es: seq<Event>, e: Event) returns (es': seq<Event>)
    ensures Run(START, es') == Step(Run(START, es), e)
  {
    es' := es + [e];
    assert es'[..|es|] == es;
  }

  /** A node registers over connection 0, the eviction loop copies peers, and a
      second connection arrives. */
  lemma SecondConnection(n: NodeId) returns (es: seq<Event>)
    ensures Run(START, es)
         == State([Conn(Some(n), true, Reading), Conn(None, true, Reading)], map[n := 0], map[n := true], {0}, Idle)
  {
    hide Run;
    es := [];
    assert Run(START, es) == START by { RunNothing(); }
    es := Extend(es, Connect);
    es := Extend(es, Register(0, n));
    assert Run(START, es) == State([Conn(Some(n), true, Announcing)], map[n := 0], map[], {}, Idle);
    es := Extend(es, Announce(0));
    assert Run(START, es) == State([Conn(Some(n), true, Reading)], map[n := 0], map[n := true], {}, Idle);
    es := Extend(es, Snapshot);
    es := Extend(es, Connect);
  }

  lemma RunNothing()
    ensures Run(START, []) == START
  {
  }

  /** The server does not check this. The eviction loop records the node as
      offline even when the evicted connection has been replaced since the
      loop copied peers: a node with an open, current connection is then shown
      offline although nothing is outstanding. */
  lemma EvictionHidesAConnectedNode(n: NodeId) returns (es: seq<Event>)
    ensures var s := Run(START, es);
            AtRest(s) && Current(s, 1) && NodeOf(s, 1) == n && s.conns[1].open && !ShownOnline(s, n)
  {
    es := SecondConnection(n);
    hide Run;
    var a, b := Conn(Some(n), false, Reading), Conn(Some(n), true, Reading);
    es := Extend(es, Register(1, n));
    assert Run(START, es) == State([a, b.(stage := Announcing)], map[n := 1], map[n := true], {0}, Idle);
    es := Extend(es, Announce(1));
    assert Run(START, es) == State([a, b], map[n := 1], map[n := true], {0}, Idle);
    es := Extend(es, EvictClose(0));
    assert Run(START, es) == State([a, b], map[n := 1], map[n := true], {}, Closed(0));
    es := Extend(es, EvictRemove);
    assert Run(START, es) == State([a, b], map[n := 1], map[n := true], {}, Removed(0));
    es := Extend(es, EvictReport);
    assert Run(START, es) == State([a, b], map[n := 1], map[n := false], {}, Idle);
  }

  /** What a registration does, and that the newcomer is then the node's one
      open connection. */
  lemma RegisterTakesOver(s: State, c: nat, n: NodeId)
    requires Inv(s) && Enabled(s, Register(c, n))
    ensures var s' := Step(s, Register(c, n));
            && Inv(s') && Current(s', c) && NodeOf(s', c) == n
            && (forall d: nat | Registered(s', d) && NodeOf(s', d) == n && d != c :: !s'.conns[d].open)
            && (n in s.peers ==> s.peers[n] < |s.conns| && s.peers[n] != c)
            && s' == s.(conns := (if n in s.peers then Close(s.conns, s.peers[n]) else s.conns)
                                 [c := s.conns[c].(node := Some(n), stage := Announcing)],
                        peers := s.peers[n := c])
  {
    RegisterKeepsInv(s, c, n);
  }

  /** The life of a connection if nothing comes between: after registration and
      announcement the node is connected and shown online, after the connection
      has died, was taken out and reported, it is neither. */
  lemma ConnectionLife(s: State, n: NodeId)
    requires Inv(s)
    ensures var c := |s.conns|;
            var up := Step(Step(Step(s, Connect), Register(c, n)), Announce(c));
            var down := Step(Step(Step(up, Die(c)), Disconnect(c)), Report(c));
            && Current(up, c) && up.conns[c] == Conn(Some(n), true, Reading) && ShownOnline(up, n)
            && n !in down.peers && !ShownOnline(down, n) && |down.conns| == c + 1
            && down.conns[c] == Conn(Some(n), false, Ended)
            && forall m | m != n :: (m in down.peers <==> m in s.peers)
                                    && (m in s.peers ==> down.peers[m] == s.peers[m])
                                    && (ShownOnline(down, m) <==> ShownOnline(s, m))
  {
    var c := |s.conns|;
    var newcomer := Conn(None, true, Reading);
    var joined := Step(s, Connect);
    assert joined.conns[c] == newcomer;
    var registered := Step(joined, Register(c, n));
    assert registered.conns[c] == Conn(Some(n), true, Announcing) && |registered.conns| == c + 1;
    var up := Step(registered, Announce(c));
    assert up.conns[c] == Conn(Some(n), true, Reading);
    var dead := Step(up, Die(c));
    assert dead.conns[c] == Conn(Some(n), false, Reading);
    var out := Step(dead, Disconnect(c));
    assert out.conns[c] == Conn(Some(n), false, Reporting);
  }

  /** The three steps of an eviction, if nothing comes between them. */
  lemma EvictionIs(s: State, c: nat)
    requires Enabled(s, EvictClose(c))
    ensures Step(Step(Step(s, EvictClose(c)), EvictRemove), EvictReport)
         == s.(conns := Close(s.conns, c), batch := s.batch - {c},
               peers := WithoutCurrent(s, c), online := MarkedOffline(s, c))
  {
    var t := Step(s, EvictClose(c));
    assert WithoutCurrent(t, c) == WithoutCurrent(s, c) && MarkedOffline(t, c) == MarkedOffline(s, c);
  }

  // ---------- the server ----------

  class Hub {
    var conns: seq<Conn>
    var peers: map<NodeId, nat>
    var online: map<NodeId, bool>
    var batch: set<nat>
    var evicting: Evicting

    function View(): State
      reads this
    {
      State(conns, peers, online, batch, evicting)
    }

    constructor ()
      ensures View() == START
    {
      conns, peers, online, batch, evicting := [], map[], map[], {}, Idle;
    }

    /** The "register" branch: close the old connection, take its place. After
        it the newcomer is the node's one open connection. */
    method OnRegister(c: nat, n: NodeId)
      requires Enabled(View(), Register(c, n)) && Inv(View())
      modifies this
      ensures View() == Step(old(View()), Register(c, n)) && Inv(View())
      ensures Current(View(), c) && NodeOf(View(), c) == n
      ensures forall d: nat | Registered(View(), d) && NodeOf(View(), d) == n && d != c :: !conns[d].open
      ensures forall m | m in old(peers) && m != n :: m in peers && peers[m] == old(peers[m])
    {
      hide Inv, Step;
      RegisterTakesOver(View(), c, n);
      if n in peers && peers[n] != c {
        conns := conns[peers[n] := conns[peers[n]].(open := false)];
      }
      conns := conns[c := conns[c].(node := Some(n), stage := Announcing)];
      peers := peers[n := c];
    }

    /** The read error branch. */
    method OnDisconnect(c: nat) returns (report: bool)
      requires Enabled(View(), Disconnect(c))
      modifies this
      ensures View() == Step(old(View()), Disconnect(c)) && report == Current(old(View()), c)
    {
      report := false;
      if conns[c].node.Some? {
        var n := conns[c].node.value;
        if n in peers && peers[n] == c {
          peers := peers - {n};
          report := true;
        }
      }
      conns := conns[c := conns[c].(stage := if report then Reporting else Ended)];
    }

    /** One idle peer of maintenanceLoop, run without interruption. */
    method Evict(c: nat)
      requires Enabled(View(), EvictClose(c)) && Inv(View())
      modifies this
      ensures View() == Step(Step(Step(old(View()), EvictClose(c)), EvictRemove), EvictReport)
    {
      hide Inv, Step;
      EvictionIs(View(), c);
      var n := conns[c].node.value;
      conns := conns[c := conns[c].(open := false)];
      batch := batch - {c};
      if n in peers && peers[n] == c {
        peers := peers - {n};
      }
      if n in online {
        online := online[n := false];
      }
    }
  }
}
