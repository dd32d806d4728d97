/** speedtest.go, beginSpeedtest and release: one speed test per node and four
    in all. Sessions interleave; a step is one operation on the busy map or on
    the token channel. */
module SpeedGate {
  const GLOBAL_MAX := 4

  type NodeId = string

  datatype Phase =
    | Asking
    | Claimed       // the node is marked busy, no token yet
    | GivingBack    // no token was free, the mark is still there
    | Running
    | Unmarked      // release has removed the mark, its token still to return
    | Done
    | Refused(status: int)

  datatype Session = Session(node: NodeId, phase: Phase)

  datatype State = State(sessions: seq<Session>, busy: set<NodeId>, tokens: nat)

  const START := State([], {}, 0)

  datatype Event =
    | Ask(node: NodeId)
    | Claim(claiming: nat)
    | TakeToken(taking: nat)
    | GiveBack(giving: nat)
    | Unmark(ending: nat)
    | ReturnToken(returning: nat)

  function To(s: State, i: nat, p: Phase): State
    requires i < |s.sessions|
  {
    s.(sessions := s.sessions[i := s.sessions[i].(phase := p)])
  }

  predicate In(s: State, i: nat, p: Phase) {
    i < |s.sessions| && s.sessions[i].phase == p
  }

  function Step(s: State, e: Event): State {
    match e
    case Ask(n) => s.(sessions := s.sessions + [Session(n, Asking)])
    case Claim(i) =>
      if !In(s, i, Asking) then s
      else if s.sessions[i].node in s.busy then To(s, i, Refused(429))
      else To(s, i, Claimed).(busy := s.busy + {s.sessions[i].node})
    case TakeToken(i) =>
      if !In(s, i, Claimed) then s
      else if s.tokens < GLOBAL_MAX then To(s, i, Running).(tokens := s.tokens + 1)
      else To(s, i, GivingBack)
    case GiveBack(i) =>
      if !In(s, i, GivingBack) then s
      else To(s, i, Refused(503)).(busy := s.busy - {s.sessions[i].node})
    case Unmark(i) =>
      if !In(s, i, Running) then s else To(s, i, Unmarked).(busy := s.busy - {s.sessions[i].node})
    case ReturnToken(i) =>
      if !In(s, i, Unmarked) || s.tokens == 0 then s else To(s, i, Done).(tokens := s.tokens - 1)
  }

  function Run(s: State, es: seq<Event>): State {
    if es == [] then s else Step(Run(s, es[..|es| - 1]), es[|es| - 1])
  }

  predicate Marks(p: Phase) {
    p.Claimed? || p.GivingBack? || p.Running?
  }

  predicate HoldsToken(p: Phase) {
    p.Running? || p.Unmarked?
  }

  function Holders(sessions: seq<Session>): nat {
    if sessions == [] then 0
    else Holders(sessions[..|sessions| - 1]) + if HoldsToken(sessions[|sessions| - 1].phase) then 1 else 0
  }

  lemma {:induction false} HoldersUpdate(sessions: seq<Session>, i: nat, p: Phase)
    requires i < |sessions|
    ensures Holders(sessions[i := sessions[i].(phase := p)]) == Holders(sessions)
              - (if HoldsToken(sessions[i].phase) then 1 else 0) + (if HoldsToken(p) then 1 else 0)
  {
    var changed := sessions[i := sessions[i].(phase := p)];
    var head := sessions[..|sessions| - 1];
    if i < |sessions| - 1 {
      HoldersUpdate(head, i, p);
      assert changed[..|sessions| - 1] == head[i := head[i].(phase := p)];
    } else {
      assert changed[..|sessions| - 1] == head;
    }
  }

  /** Some session has marked the node. */
  predicate Marked(sessions: seq<Session>, n: NodeId) {
    exists i | 0 <= i < |sessions| :: sessions[i].node == n && Marks(sessions[i].phase)
  }

  ghost predicate Inv(s: State) {
    && (forall i | 0 <= i < |s.sessions| && Marks(s.sessions[i].phase) :: s.sessions[i].node in s.busy)
    && (forall i, j | 0 <= i < j < |s.sessions| && Marks(s.sessions[i].phase) && Marks(s.sessions[j].phase) ::
          s.sessions[i].node != s.sessions[j].node)
    && (forall n | n in s.busy :: Marked(s.sessions, n))
    && s.tokens == Holders(s.sessions) <= GLOBAL_MAX
  }

  lemma AskKeepsInv(s: State, n: NodeId)
    requires Inv(s)
    ensures Inv(Step(s, Ask(n)))
  {
    var s' := Step(s, Ask(n));
    assert s'.sessions[..|s.sessions|] == s.sessions;
    forall m | m in s'.busy
      ensures Marked(s'.sessions, m)
    {
      var j :| 0 <= j < |s.sessions| && s.sessions[j].node == m && Marks(s.sessions[j].phase);
      assert s'.sessions[j].node == m;
    }
  }

  /** The session an event is about. */
  function Who(e: Event): nat
    requires !e.Ask?
  {
    match e
    case Claim(i) => i
    case TakeToken(i) => i
    case GiveBack(i) => i
    case Unmark(i) => i
    case ReturnToken(i) => i
  }

  lemma StepKeepsInv(s: State, e: Event)
    requires Inv(s)
    ensures Inv(Step(s, e))
  {
    if e.Ask? {
      AskKeepsInv(s, e.node);
    } else if Step(s, e) != s {
      var s', i := Step(s, e), Who(e);
      HoldersUpdate(s.sessions, i, s'.sessions[i].phase);
      ClaimIsFree(s, i);
      hide Inv, Marked, Holders;
      assert s.tokens == Holders(s.sessions) <= GLOBAL_MAX by { TokensCount(s); }
      MoveKeepsMarks(s, s', i);
    }
  }

  lemma TokensCount(s: State)
    requires Inv(s)
    ensures s.tokens == Holders(s.sessions) <= GLOBAL_MAX
  {
  }

  lemma ClaimIsFree(s: State, i: nat)
    requires Inv(s) && i < |s.sessions|
    ensures Marks(s.sessions[i].phase) ==> s.sessions[i].node in s.busy
  {
  }

  /** One session moves on and keeps the busy map in step. */
  lemma MoveKeepsMarks(s: State, s': State, i: nat)
    requires Inv(s) && i < |s.sessions| == |s'.sessions|
    requires s'.sessions == s.sessions[i := s.sessions[i].(phase := s'.sessions[i].phase)]
    requires var n, was, now := s.sessions[i].node, Marks(s.sessions[i].phase), Marks(s'.sessions[i].phase);
             if was == now then s'.busy == s.busy
             else if now then n !in s.busy && s'.busy == s.busy + {n}
             else s'.busy == s.busy - {n}
    requires s'.tokens == Holders(s'.sessions) <= GLOBAL_MAX
    ensures Inv(s')
  {
    hide Holders;
    forall n | n in s'.busy
      ensures Marked(s'.sessions, n)
    {
      if n in s.busy {
        assert Marked(s.sessions, n);
        MarkElsewhere(s, s', i, n);
      } else {
        assert s'.sessions[i].node == n && Marks(s'.sessions[i].phase);
      }
    }
  }

  lemma MarkElsewhere(s: State, s': State, i: nat, n: NodeId)
    requires Marked(s.sessions, n) && i < |s.sessions| == |s'.sessions|
    requires s'.sessions == s.sessions[i := s.sessions[i].(phase := s'.sessions[i].phase)]
    requires n == s.sessions[i].node && Marks(s.sessions[i].phase) ==> Marks(s'.sessions[i].phase)
    ensures Marked(s'.sessions, n)
  {
    var j :| 0 <= j < |s.sessions| && s.sessions[j].node == n && Marks(s.sessions[j].phase);
    assert s'.sessions[j].node == n && Marks(s'.sessions[j].phase);
  }

  lemma {:induction false} RunKeepsInv(es: seq<Event>)
    ensures Inv(Run(START, es))
  {
    hide Inv, Step;
    if es == [] {
      StartInv();
    } else {
      RunKeepsInv(es[..|es| - 1]);
      StepKeepsInv(Run(START, es[..|es| - 1]), es[|es| - 1]);
    }
  }

  lemma StartInv()
    ensures Inv(START)
  {
  }

  /** Never two speed tests on a node and never more than four in all, and
      handing a token back never blocks; a node is marked busy exactly while a
      session that claimed it has not given it up. */
  lemma SpeedTestsAreLimited(es: seq<Event>)
    ensures var s := Run(START, es);
            && Holders(s.sessions) <= 4
            && (forall i, j | 0 <= i < j < |s.sessions| && In(s, i, Running) && In(s, j, Running) ::
                  s.sessions[i].node != s.sessions[j].node)
            && (forall i: nat | In(s, i, Unmarked) :: s.tokens > 0)
            && (forall n :: n in s.busy <==> Marked(s.sessions, n))
  {
    RunKeepsInv(es);
    var s := Run(START, es);
    hide Run, Step;
    forall i: nat | In(s, i, Unmarked)
      ensures s.tokens > 0
    {
      HolderCounts(s.sessions, i);
    }
  }

  /** Who gets in when nobody comes in between: a node that is busy is refused
      with 429, a fifth test with 503 and without leaving a mark, everybody else
      runs until it is released, and then node and token are free again. */
  lemma Admission(es: seq<Event>, n: NodeId)
    ensures var s := Run(START, es);
            var i := |s.sessions|;
            var asked := Step(Step(Step(Step(s, Ask(n)), Claim(i)), TakeToken(i)), GiveBack(i));
            var ended := Step(Step(asked, Unmark(i)), ReturnToken(i));
            && |asked.sessions| == |ended.sessions| == i + 1
            && asked.sessions[i].phase
               == (if n in s.busy then Refused(429) else if s.tokens >= 4 then Refused(503) else Running)
            && ended.busy == s.busy && ended.tokens == s.tokens
            && (!asked.sessions[i].phase.Running? ==> asked.busy == s.busy && asked.tokens == s.tokens)
  {
    RunKeepsInv(es);
    hide Run, Inv, Marked, Holders;
    var s := Run(START, es);
    var i := |s.sessions|;
    var asked := Step(Step(s, Ask(n)), Claim(i));
    assert asked.sessions == s.sessions + [Session(n, if n in s.busy then Refused(429) else Claimed)];
  }

  lemma {:induction false} HolderCounts(sessions: seq<Session>, i: nat)
    requires i < |sessions| && HoldsToken(sessions[i].phase)
    ensures Holders(sessions) > 0
  {
    if i < |sessions| - 1 {
      HolderCounts(sessions[..|sessions| - 1], i);
    }
  }
}
