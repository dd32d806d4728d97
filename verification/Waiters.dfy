/** ws.go and util.go: matching replies to requests. Requesters and read loops
    interleave freely; a step is one section under the mutex or one channel
    operation. The two maps probeWait and cmdWait are one map here, keyed by
    the kind of request as well. */
module Waiters {
  import opened Options
  import opened Text

  datatype Kind = Probe | Command

  datatype Reply = Reply(requestId: string, payload: string)

  datatype Phase =
    | New                              // has its id, not yet in the map
    | Registered
    | Waiting                          // the message was sent
    | Leaving(result: Option<Reply>)   // has its outcome, deferred delete to come
    | Gone(outcome: Option<Reply>)

  /** slot is the one-slot channel; sent and first are history: how many
      replies went into the channel, and the first one found for it. */
  datatype Request = Request(
    kind: Kind, prefix: char, stamp: string, number: nat,
    phase: Phase, slot: Option<Reply>, sent: nat, first: Option<Reply>)

  /** waiting maps to the request; hands is what each read loop has looked up
      and not yet delivered. */
  datatype State = State(
    counter: nat, requests: seq<Request>,
    waiting: map<(Kind, string), nat>, hands: map<nat, (nat, Reply)>)

  const START := State(0, [], map[], map[])

  const STAMP_LENGTH := 14

  /** The prefix letter and genRequestID. */
  function MakeId(prefix: char, stamp: string, number: nat): string {
    [prefix] + stamp + "-" + Dec(number)
  }

  function IdOf(r: Request): string {
    MakeId(r.prefix, r.stamp, r.number)
  }

  function KeyOf(r: Request): (Kind, string) {
    (r.kind, IdOf(r))
  }

  /** Ids made in one process differ whatever their prefix letter and second. */
  lemma IdsAreUnique(p: char, s: string, m: nat, q: char, t: string, n: nat)
    requires |s| == |t| == STAMP_LENGTH && MakeId(p, s, m) == MakeId(q, t, n)
    ensures p == q && s == t && m == n
  {
    var a, b := MakeId(p, s, m), MakeId(q, t, n);
    assert a[0] == p && b[0] == q;
    assert a[1..1 + STAMP_LENGTH] == s && b[1..1 + STAMP_LENGTH] == t;
    assert a[2 + STAMP_LENGTH..] == Dec(m) && b[2 + STAMP_LENGTH..] == Dec(n);
    DecInjective(m, n);
  }

  /** With a 64-bit counter an id fits the length byte of a binary frame. */
  lemma IdFitsFrame(p: char, s: string, n: nat)
    requires |s| == STAMP_LENGTH && n < Pow10(19)
    ensures 1 <= |MakeId(p, s, n)| <= 35
  {
    DecLength(n, 19);
  }

  datatype Event =
    | Number                                        // genRequestID for something else
    | Begin(kind: Kind, prefix: char, stamp: string)
    | Register(registering: nat)
    | SendOk(sending: nat)
    | SendFailed(failing: nat)
    | Receive(receiving: nat)
    | Timeout(expiring: nat)
    | Cleanup(cleaning: nat)
    | Lookup(reader: nat, of: Kind, reply: Reply)   // any message from any node
    | Deliver(delivering: nat)

  function With(s: State, i: nat, r: Request): State
    requires i < |s.requests|
  {
    s.(requests := s.requests[i := r])
  }

  predicate InPhase(s: State, i: nat, p: Phase) {
    i < |s.requests| && s.requests[i].phase == p
  }

  /** A read loop with a reply in its hand would block on a full channel. */
  predicate Blocked(s: State, reader: nat) {
    reader in s.hands && s.hands[reader].0 < |s.requests| && s.requests[s.hands[reader].0].slot.Some?
  }

  function Step(s: State, e: Event): State {
    match e
    case Number => s.(counter := s.counter + 1)
    case Begin(kind, prefix, stamp) =>
      if |stamp| != STAMP_LENGTH then s
      else s.(counter := s.counter + 1,
              requests := s.requests + [Request(kind, prefix, stamp, s.counter + 1, New, None, 0, None)])
    case Register(i) =>
      if !InPhase(s, i, New) then s
      else With(s, i, s.requests[i].(phase := Registered)).(waiting := s.waiting[KeyOf(s.requests[i]) := i])
    case SendOk(i) =>
      if !InPhase(s, i, Registered) then s else With(s, i, s.requests[i].(phase := Waiting))
    case SendFailed(i) =>
      if !InPhase(s, i, Registered) then s else With(s, i, s.requests[i].(phase := Leaving(None)))
    case Receive(i) =>
      if !InPhase(s, i, Waiting) || s.requests[i].slot.None? then s
      else With(s, i, s.requests[i].(phase := Leaving(s.requests[i].slot), slot := None))
    case Timeout(i) =>
      if !InPhase(s, i, Waiting) then s else With(s, i, s.requests[i].(phase := Leaving(None)))
    case Cleanup(i) =>
      if i >= |s.requests| || !s.requests[i].phase.Leaving? then s
      else With(s, i, s.requests[i].(phase := Gone(s.requests[i].phase.result)))
           .(waiting := s.waiting - {KeyOf(s.requests[i])})
    case Lookup(reader, kind, reply) =>
      var key := (kind, reply.requestId);
      if reader in s.hands || key !in s.waiting || s.waiting[key] >= |s.requests| then s
      else
        var i := s.waiting[key];
        With(s, i, s.requests[i].(first := if s.requests[i].first.None? then Some(reply) else s.requests[i].first))
        .(waiting := s.waiting - {key}, hands := s.hands[reader := (i, reply)])
    case Deliver(reader) =>
      if reader !in s.hands || s.hands[reader].0 >= |s.requests| || Blocked(s, reader) then s
      else
        var (i, reply) := s.hands[reader];
        With(s, i, s.requests[i].(slot := Some(reply), sent := s.requests[i].sent + 1)).(hands := s.hands - {reader})
  }

  function Run(s: State, es: seq<Event>): State {
    if es == [] then s else Step(Run(s, es[..|es| - 1]), es[|es| - 1])
  }

  // ---------- the invariant ----------

  ghost predicate NumbersOk(counter: nat, requests: seq<Request>) {
    && (forall i | 0 <= i < |requests| ::
          0 < requests[i].number <= counter && |requests[i].stamp| == STAMP_LENGTH)
    && (forall i, j | 0 <= i < j < |requests| :: requests[i].number < requests[j].number)
  }

  /** Nothing has been found for the request yet. */
  predicate Untouched(r: Request) {
    r.sent == 0 && r.slot.None? && r.first.None?
  }

  predicate MayWait(r: Request) {
    Untouched(r) && !r.phase.New? && !r.phase.Gone?
  }

  /** A waiter in the map belongs to a request under way. */
  ghost predicate WaitingOk(requests: seq<Request>, waiting: map<(Kind, string), nat>) {
    forall k | k in waiting ::
      var i := waiting[k];
      i < |requests| && k == KeyOf(requests[i]) && MayWait(requests[i])
  }

  predicate MayArrive(r: Request, reply: Reply) {
    r.first == Some(reply) && r.sent == 0 && r.slot.None? && !r.phase.New?
  }

  /** A reply in hand is the first for its request, which nobody else has. */
  ghost predicate HandsOk(requests: seq<Request>, waiting: map<(Kind, string), nat>, hands: map<nat, (nat, Reply)>) {
    && (forall h | h in hands ::
          var (i, reply) := hands[h];
          i < |requests| && MayArrive(requests[i], reply) && KeyOf(requests[i]) !in waiting)
    && (forall g, h | g in hands && h in hands && g != h :: hands[g].0 != hands[h].0)
  }

  predicate ResultOk(r: Request, result: Option<Reply>) {
    result.Some? ==> result == r.first && r.sent == 1 && r.slot.None?
  }

  predicate RequestOk(r: Request) {
    && r.sent <= 1
    && (r.slot.Some? ==> r.sent == 1 && r.slot == r.first)
    && (r.first.Some? ==> r.first.value.requestId == IdOf(r))
    && (r.phase.New? ==> Untouched(r))
    && (r.phase.Leaving? ==> ResultOk(r, r.phase.result))
    && (r.phase.Gone? ==> ResultOk(r, r.phase.outcome))
  }

  ghost predicate RequestsOk(requests: seq<Request>) {
    forall i | 0 <= i < |requests| :: RequestOk(requests[i])
  }

  ghost predicate Inv(s: State) {
    && NumbersOk(s.counter, s.requests) && RequestsOk(s.requests)
    && WaitingOk(s.requests, s.waiting) && HandsOk(s.requests, s.waiting, s.hands)
  }

  lemma KeysDiffer(counter: nat, requests: seq<Request>, i: nat, j: nat)
    requires NumbersOk(counter, requests) && i < |requests| && j < |requests|
    requires KeyOf(requests[i]) == KeyOf(requests[j])
    ensures i == j
  {
    var a, b := requests[i], requests[j];
    IdsAreUnique(a.prefix, a.stamp, a.number, b.prefix, b.stamp, b.number);
  }

  /** r and r' are one request in different standing. */
  predicate SameRequest(r: Request, r': Request) {
    r' == r.(phase := r'.phase, slot := r'.slot, sent := r'.sent, first := r'.first)
  }

  lemma NumbersUpdate(counter: nat, requests: seq<Request>, i: nat, r: Request)
    requires NumbersOk(counter, requests) && i < |requests| && SameRequest(requests[i], r)
    ensures NumbersOk(counter, requests[i := r])
  {
  }

  lemma RequestsUpdate(requests: seq<Request>, i: nat, r: Request)
    requires RequestsOk(requests) && i < |requests| && RequestOk(r)
    ensures RequestsOk(requests[i := r])
  {
    hide RequestOk;
  }

  lemma WaitingUpdate(requests: seq<Request>, waiting: map<(Kind, string), nat>, i: nat, r: Request)
    requires WaitingOk(requests, waiting) && i < |requests| && SameRequest(requests[i], r)
    requires forall k | k in waiting && waiting[k] == i :: MayWait(r)
    ensures WaitingOk(requests[i := r], waiting)
  {
    hide MakeId, MayWait;
  }

  lemma HandsUpdate(requests: seq<Request>, waiting: map<(Kind, string), nat>, hands: map<nat, (nat, Reply)>,
                    i: nat, r: Request)
    requires HandsOk(requests, waiting, hands) && i < |requests| && SameRequest(requests[i], r)
    requires forall h | h in hands && hands[h].0 == i :: MayArrive(r, hands[h].1)
    ensures HandsOk(requests[i := r], waiting, hands)
  {
    hide MakeId, MayArrive;
  }

  lemma HandsShrink(requests: seq<Request>, waiting: map<(Kind, string), nat>, hands: map<nat, (nat, Reply)>,
                    waiting': map<(Kind, string), nat>, hands': map<nat, (nat, Reply)>)
    requires HandsOk(requests, waiting, hands) && waiting'.Keys <= waiting.Keys
    requires forall h | h in hands' :: h in hands && hands'[h] == hands[h]
    ensures HandsOk(requests, waiting', hands')
  {
    hide KeyOf, MayArrive;
  }

  lemma BeginKeepsInv(s: State, r: Request)
    requires Inv(s) && r.number == s.counter + 1 && |r.stamp| == STAMP_LENGTH && RequestOk(r)
    ensures Inv(s.(counter := s.counter + 1, requests := s.requests + [r]))
  {
    hide KeyOf, RequestOk, MayWait, MayArrive;
    var requests := s.requests + [r];
    assert forall j | 0 <= j < |s.requests| :: requests[j] == s.requests[j];
  }

  /** The requester's own moves: the request leaves New and its channel is at
      most emptied; its entry and the read loops are left alone. */
  lemma MoveKeepsInv(s: State, i: nat, r: Request)
    requires Inv(s) && i < |s.requests| && SameRequest(s.requests[i], r) && RequestOk(r)
    requires r.sent == s.requests[i].sent && r.first == s.requests[i].first
    requires r.slot == s.requests[i].slot || s.requests[i].slot.Some?
    requires !r.phase.New? && !r.phase.Gone?
    ensures Inv(With(s, i, r))
  {
    hide KeyOf, RequestOk;
    NumbersUpdate(s.counter, s.requests, i, r);
    RequestsUpdate(s.requests, i, r);
    WaitingUpdate(s.requests, s.waiting, i, r);
    HandsUpdate(s.requests, s.waiting, s.hands, i, r);
  }

  /** An entry of the map leads to request i only under i's own key, and while
      a request is new there is none. */
  lemma EntryIsOwn(s: State, i: nat)
    requires Inv(s) && i < |s.requests|
    ensures forall k | k in s.waiting :: s.waiting[k] == i <==> k == KeyOf(s.requests[i])
    ensures s.requests[i].phase.New? ==> KeyOf(s.requests[i]) !in s.waiting
  {
    hide KeyOf, NumbersOk, RequestsOk, HandsOk;
    forall k | k in s.waiting && k == KeyOf(s.requests[i])
      ensures s.waiting[k] == i
    {
      KeysDiffer(s.counter, s.requests, i, s.waiting[k]);
    }
  }

  lemma NewIsInNoHand(s: State, i: nat)
    requires Inv(s) && InPhase(s, i, New)
    ensures forall h | h in s.hands :: KeyOf(s.requests[s.hands[h].0]) != KeyOf(s.requests[i])
  {
    hide KeyOf, NumbersOk, RequestsOk, WaitingOk;
    forall h | h in s.hands
      ensures KeyOf(s.requests[s.hands[h].0]) != KeyOf(s.requests[i])
    {
      if KeyOf(s.requests[s.hands[h].0]) == KeyOf(s.requests[i]) {
        KeysDiffer(s.counter, s.requests, i, s.hands[h].0);
      }
    }
  }

  lemma RegisterKeepsInv(s: State, i: nat)
    requires Inv(s) && InPhase(s, i, New)
    ensures var r := s.requests[i].(phase := Registered);
            Inv(With(s, i, r).(waiting := s.waiting[KeyOf(s.requests[i]) := i]))
  {
    var r := s.requests[i].(phase := Registered);
    EntryIsOwn(s, i);
    NewIsInNoHand(s, i);
    assert RequestOk(s.requests[i]) && KeyOf(r) == KeyOf(s.requests[i]);
    RequestsUpdate(s.requests, i, r);
    hide KeyOf, RequestOk, RequestsOk;
    NumbersUpdate(s.counter, s.requests, i, r);
    WaitingUpdate(s.requests, s.waiting, i, r);
    HandsUpdate(s.requests, s.waiting, s.hands, i, r);
    hide NumbersOk;
  }

  lemma CleanupKeepsInv(s: State, i: nat)
    requires Inv(s) && i < |s.requests| && s.requests[i].phase.Leaving?
    ensures var r := s.requests[i].(phase := Gone(s.requests[i].phase.result));
            Inv(With(s, i, r).(waiting := s.waiting - {KeyOf(s.requests[i])}))
  {
    var r := s.requests[i].(phase := Gone(s.requests[i].phase.result));
    var waiting := s.waiting - {KeyOf(s.requests[i])};
    EntryIsOwn(s, i);
    assert RequestOk(s.requests[i]);
    RequestsUpdate(s.requests, i, r);
    hide KeyOf, RequestOk, RequestsOk, NumbersOk;
    assert WaitingOk(s.requests, waiting);
    HandsShrink(s.requests, s.waiting, s.hands, waiting, s.hands);
    NumbersUpdate(s.counter, s.requests, i, r);
    WaitingUpdate(s.requests, waiting, i, r);
    HandsUpdate(s.requests, waiting, s.hands, i, r);
  }

  lemma LookupKeepsInv(s: State, reader: nat, kind: Kind, reply: Reply)
    requires Inv(s) && reader !in s.hands && (kind, reply.requestId) in s.waiting
    ensures var key := (kind, reply.requestId);
            var i := s.waiting[key];
            i < |s.requests| && Untouched(s.requests[i])
            && Inv(With(s, i, s.requests[i].(first := Some(reply)))
                   .(waiting := s.waiting - {key}, hands := s.hands[reader := (i, reply)]))
  {
    var key := (kind, reply.requestId);
    var i := s.waiting[key];
    var r := s.requests[i].(first := Some(reply));
    var waiting := s.waiting - {key};
    EntryIsOwn(s, i);
    assert RequestOk(s.requests[i]) && KeyOf(r) == KeyOf(s.requests[i]) == (kind, IdOf(r));
    RequestsUpdate(s.requests, i, r);
    hide KeyOf, IdOf, RequestOk, RequestsOk, NumbersOk;
    forall h | h in s.hands
      ensures s.hands[h].0 != i
    {
      assert MayArrive(s.requests[s.hands[h].0], s.hands[h].1);
    }
    NumbersUpdate(s.counter, s.requests, i, r);
    WaitingUpdate(s.requests, waiting, i, r);
    HandsShrink(s.requests, s.waiting, s.hands, waiting, s.hands);
    HandsUpdate(s.requests, waiting, s.hands, i, r);
  }

  lemma DeliverKeepsInv(s: State, reader: nat)
    requires Inv(s) && reader in s.hands
    ensures !Blocked(s, reader)
    ensures var (i, reply) := s.hands[reader];
            i < |s.requests| && s.requests[i].sent == 0
            && Inv(With(s, i, s.requests[i].(slot := Some(reply), sent := 1)).(hands := s.hands - {reader}))
  {
    var (i, reply) := s.hands[reader];
    var r := s.requests[i].(slot := Some(reply), sent := 1);
    var hands := s.hands - {reader};
    assert RequestOk(s.requests[i]) && MayArrive(s.requests[i], reply);
    RequestsUpdate(s.requests, i, r);
    hide RequestOk, RequestsOk, NumbersOk;
    forall k | k in s.waiting
      ensures s.waiting[k] != i
    {
      assert MayWait(s.requests[s.waiting[k]]);
    }
    hide KeyOf;
    NumbersUpdate(s.counter, s.requests, i, r);
    WaitingUpdate(s.requests, s.waiting, i, r);
    HandsShrink(s.requests, s.waiting, s.hands, s.waiting, hands);
    HandsUpdate(s.requests, s.waiting, hands, i, r);
  }

  lemma RequesterKeepsInv(s: State, e: Event)
    requires Inv(s) && (e.SendOk? || e.SendFailed? || e.Timeout? || e.Receive?)
    ensures Inv(Step(s, e))
  {
    hide MakeId, NumbersOk, WaitingOk, HandsOk, KeyOf;
    match e {
      case SendOk(i) =>
        if InPhase(s, i, Registered) { MoveKeepsInv(s, i, s.requests[i].(phase := Waiting)); }
      case SendFailed(i) =>
        if InPhase(s, i, Registered) { MoveKeepsInv(s, i, s.requests[i].(phase := Leaving(None))); }
      case Timeout(i) =>
        if InPhase(s, i, Waiting) { MoveKeepsInv(s, i, s.requests[i].(phase := Leaving(None))); }
      case Receive(i) =>
        if InPhase(s, i, Waiting) && s.requests[i].slot.Some? {
          MoveKeepsInv(s, i, s.requests[i].(phase := Leaving(s.requests[i].slot), slot := None));
        }
    }
  }

  lemma StepKeepsInv(s: State, e: Event)
    requires Inv(s)
    ensures Inv(Step(s, e))
  {
    hide Inv, KeyOf, Blocked;
    match e {
      case Number => NumberKeepsInv(s);
      case Begin(kind, prefix, stamp) =>
        if |stamp| == STAMP_LENGTH {
          BeginKeepsInv(s, Request(kind, prefix, stamp, s.counter + 1, New, None, 0, None));
        }
      case Register(i) => if InPhase(s, i, New) { RegisterKeepsInv(s, i); }
      case Cleanup(i) => if i < |s.requests| && s.requests[i].phase.Leaving? { CleanupKeepsInv(s, i); }
      case Lookup(reader, kind, reply) =>
        if reader !in s.hands && (kind, reply.requestId) in s.waiting { LookupKeepsInv(s, reader, kind, reply); }
      case Deliver(reader) => if reader in s.hands { DeliverKeepsInv(s, reader); }
      case _ => RequesterKeepsInv(s, e);
    }
  }

  lemma NumberKeepsInv(s: State)
    requires Inv(s)
    ensures Inv(s.(counter := s.counter + 1))
  {
    hide KeyOf, RequestOk, WaitingOk, HandsOk;
  }

  lemma {:induction false} RunKeepsInv(es: seq<Event>)
    ensures Inv(Run(START, es))
  {
    hide Inv, Step;
    if es == [] {
      StartInv();
    } else {
      RunKeepsInv(es[..|es| - 1]);
      StepKeepsInv(Run(START, es[..|es| - 1]), es[|es| - 1]);
    }
  }

  lemma StartInv()
    ensures Inv(START)
  {
  }

  // ---------- the results ----------

  /** In every interleaving: a channel receives at most one message, a read
      loop never blocks on delivering, a requester only ever gets the first
      reply that was found under its own id, and an entry of the map belongs
      to a request that has not ended. */
  lemma WaiterCorrelation(es: seq<Event>)
    ensures var s := Run(START, es);
            && (forall i | 0 <= i < |s.requests| :: s.requests[i].sent <= 1)
            && (forall h :: !Blocked(s, h))
            && (forall i | 0 <= i < |s.requests| ::
                  var p := s.requests[i].phase;
                  && (p.Leaving? && p.result.Some? ==>
                        p.result == s.requests[i].first && p.result.value.requestId == IdOf(s.requests[i]))
                  && (p.Gone? && p.outcome.Some? ==>
                        p.outcome == s.requests[i].first && p.outcome.value.requestId == IdOf(s.requests[i])))
            && (forall k | k in s.waiting ::
                  s.waiting[k] < |s.requests| && k == KeyOf(s.requests[s.waiting[k]])
                  && !s.requests[s.waiting[k]].phase.Gone?)
  {
    RunKeepsInv(es);
    var s := Run(START, es);
    forall i | 0 <= i < |s.requests|
      ensures RequestOk(s.requests[i])
    {
    }
    forall h | h in s.hands
      ensures !Blocked(s, h)
    {
      DeliverKeepsInv(s, h);
    }
  }

  /** A read loop that takes a reply all the way: if somebody waits for its id,
      that request's channel now holds the reply and its entry is gone, and
      nothing else has changed; otherwise nothing has. */
  lemma ReplyArrives(s: State, reader: nat, kind: Kind, reply: Reply)
    requires Inv(s) && reader !in s.hands
    ensures var s' := Step(Step(s, Lookup(reader, kind, reply)), Deliver(reader));
            var key := (kind, reply.requestId);
            Inv(s')
            && if key !in s.waiting then s' == s
               else var i := s.waiting[key];
                    i < |s.requests| && Untouched(s.requests[i])
                    && s' == With(s, i, s.requests[i].(first := Some(reply), slot := Some(reply), sent := 1))
                             .(waiting := s.waiting - {key})
  {
    hide Inv, KeyOf;
    var key := (kind, reply.requestId);
    if key in s.waiting {
      LookupKeepsInv(s, reader, kind, reply);
      var i := s.waiting[key];
      var r := s.requests[i].(first := Some(reply));
      var t := Step(s, Lookup(reader, kind, reply));
      assert t == With(s, i, r).(waiting := s.waiting - {key}, hands := s.hands[reader := (i, reply)]);
      DeliverKeepsInv(t, reader);
      assert t.hands - {reader} == s.hands;
      assert t.requests[i := r.(slot := Some(reply), sent := 1)] == s.requests[i := r.(slot := Some(reply), sent := 1)];
    }
  }

  /** The new request's id is no earlier request's id. */
  lemma BeginIsFresh(s: State, kind: Kind, prefix: char, stamp: string)
    requires Inv(s) && |stamp| == STAMP_LENGTH
    ensures forall j | 0 <= j < |s.requests| :: IdOf(s.requests[j]) != MakeId(prefix, stamp, s.counter + 1)
  {
    hide WaitingOk, HandsOk, RequestsOk, MakeId;
    forall j | 0 <= j < |s.requests|
      ensures IdOf(s.requests[j]) != MakeId(prefix, stamp, s.counter + 1)
    {
      var a := s.requests[j];
      if IdOf(a) == MakeId(prefix, stamp, s.counter + 1) {
        IdsAreUnique(a.prefix, a.stamp, a.number, prefix, stamp, s.counter + 1);
      }
    }
  }

  /** A request whose reply arrives while it waits gets that reply, whoever
      reads it. */
  lemma RequestIsAnswered(s: State, i: nat, reader: nat, payload: string)
    requires Inv(s) && InPhase(s, i, Waiting) && reader !in s.hands && KeyOf(s.requests[i]) in s.waiting
    ensures var r := s.requests[i];
            var reply := Reply(IdOf(r), payload);
            var arrived := Step(Step(s, Lookup(reader, r.kind, reply)), Deliver(reader));
            var done := Step(Step(arrived, Receive(i)), Cleanup(i));
            && i < |done.requests| && done.requests[i].phase == Gone(Some(reply))
            && IdOf(done.requests[i]) == IdOf(r) && KeyOf(r) !in done.waiting
  {
    var r := s.requests[i];
    var reply := Reply(IdOf(r), payload);
    EntryIsOwn(s, i);
    ReplyArrives(s, reader, r.kind, reply);
    hide Inv, MakeId;
    assert KeyOf(r) == (r.kind, reply.requestId);
  }

  /** One that waits in vain ends empty. */
  lemma RequestTimesOut(s: State, i: nat)
    requires InPhase(s, i, Waiting)
    ensures var gone := Step(Step(s, Timeout(i)), Cleanup(i));
            && i < |gone.requests| && gone.requests[i].phase == Gone(None)
            && KeyOf(s.requests[i]) !in gone.waiting
  {
    hide MakeId;
  }

  /** A request that registers and is sent waits under its own key. */
  lemma RequestWaits(s: State, kind: Kind, prefix: char, stamp: string)
    requires Inv(s) && |stamp| == STAMP_LENGTH
    ensures var i := |s.requests|;
            var begun := Step(s, Begin(kind, prefix, stamp));
            var sent := Step(Step(begun, Register(i)), SendOk(i));
            var failed := Step(Step(begun, Register(i)), SendFailed(i));
            && InPhase(sent, i, Waiting) && KeyOf(sent.requests[i]) in sent.waiting
            && sent.waiting[KeyOf(sent.requests[i])] == i
            && IdOf(sent.requests[i]) == [prefix] + stamp + "-" + Dec(s.counter + 1)
            && InPhase(Step(failed, Cleanup(i)), i, Gone(None))
            && Step(failed, Cleanup(i)).waiting == s.waiting - {KeyOf(sent.requests[i])}
  {
    hide Inv, Dec;
    var i := |s.requests|;
    var r := Request(kind, prefix, stamp, s.counter + 1, New, None, 0, None);
    var begun := Step(s, Begin(kind, prefix, stamp));
    assert begun.requests == s.requests + [r] && begun.requests[i] == r;
    var registered := Step(begun, Register(i));
    assert registered.requests[i] == r.(phase := Registered) && registered.waiting == s.waiting[KeyOf(r) := i];
    assert KeyOf(r.(phase := Registered)) == KeyOf(r) == KeyOf(r.(phase := Waiting));
  }

  // ---------- the maps of the server ----------

  class Server {
    var counter: nat
    var requests: seq<Request>
    var waiting: map<(Kind, string), nat>
    var hands: map<nat, (nat, Reply)>

    function View(): State
      reads this
    {
      State(counter, requests, waiting, hands)
    }

    constructor ()
      ensures View() == START
    {
      counter, requests, waiting, hands := 0, [], map[], map[];
    }

    /** A new request gets an id that no earlier one has. */
    method BeginRequest(kind: Kind, prefix: char, stamp: string) returns (i: nat)
      requires Inv(View()) && |stamp| == STAMP_LENGTH
      modifies this
      ensures View() == Step(old(View()), Begin(kind, prefix, stamp)) && Inv(View())
      ensures i == |old(requests)| && requests[..i] == old(requests) && requests[i..] == [requests[i]]
      ensures forall j | 0 <= j < i :: IdOf(requests[j]) != IdOf(requests[i])
    {
      BeginIsFresh(View(), kind, prefix, stamp);
      StepKeepsInv(View(), Begin(kind, prefix, stamp));
      hide Inv, MakeId;
      counter := counter + 1;
      i := |requests|;
      requests := requests + [Request(kind, prefix, stamp, counter, New, None, 0, None)];
    }

    /** The new entry displaces nobody's. */
    method RegisterWaiter(i: nat)
      requires Inv(View()) && InPhase(View(), i, New)
      modifies this
      ensures View() == Step(old(View()), Register(i)) && Inv(View())
      ensures KeyOf(requests[i]) !in old(waiting) && waiting == old(waiting)[KeyOf(requests[i]) := i]
      ensures forall k | k in waiting :: waiting[k] == i <==> k == KeyOf(requests[i])
    {
      EntryIsOwn(View(), i);
      RegisterKeepsInv(View(), i);
      hide Inv, MakeId;
      waiting := waiting[KeyOf(requests[i]) := i];
      requests := requests[i := requests[i].(phase := Registered)];
    }

    /** The deferred delete of requestProbe and RequestCommand: no entry leads
        to the request any more, and all other entries stay. */
    method Leave(i: nat)
      requires Inv(View()) && i < |requests| && requests[i].phase.Leaving?
      modifies this
      ensures View() == Step(old(View()), Cleanup(i)) && Inv(View())
      ensures forall k :: k in waiting <==> k in old(waiting) && old(waiting)[k] != i
      ensures forall k | k in waiting :: waiting[k] == old(waiting)[k]
    {
      EntryIsOwn(View(), i);
      CleanupKeepsInv(View(), i);
      hide Inv, KeyOf;
      waiting := waiting - {KeyOf(requests[i])};
      requests := requests[i := requests[i].(phase := Gone(requests[i].phase.result))];
    }

    /** A probe_result, config_result or ota_result has arrived: look the
        waiter up and delete it, then send into its channel, which is empty. */
    method OnReply(reader: nat, kind: Kind, reply: Reply)
      requires Inv(View()) && reader !in hands
      modifies this
      ensures View() == Step(Step(old(View()), Lookup(reader, kind, reply)), Deliver(reader)) && Inv(View())
      ensures var key, s := (kind, reply.requestId), old(View());
              if key !in s.waiting then View() == s
              else var i := s.waiting[key];
                   i < |s.requests|
                   && View() == With(s, i, s.requests[i].(first := Some(reply), slot := Some(reply), sent := 1))
                                .(waiting := s.waiting - {key})
    {
      hide KeyOf, Step, Inv;
      ReplyArrives(View(), reader, kind, reply);
      var key := (kind, reply.requestId);
      if key !in waiting {
        return;
      }
      var i := waiting[key];
      waiting := waiting - {key};
      hands := hands[reader := (i, reply)];
      if requests[i].first.None? {
        requests := requests[i := requests[i].(first := Some(reply))];
      }
      requests := requests[i := requests[i].(slot := Some(reply), sent := requests[i].sent + 1)];
      hands := hands - {reader};
    }
  }
}
