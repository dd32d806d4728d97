/** speedtest.go and ws.go, a download: the read loop of the node's connection
    passes chunks through a queue of 16 to the HTTP handler, and the result of
    the probe through a one-slot channel. Steps of the two goroutines
    interleave freely; each step is one channel or map operation. */
module Pipe {
  import opened Frames
  import opened Options

  const QUEUE_SLOTS := 16

  datatype Result = Result(status: int, body: Bytes)

  /** What the node sends on the connection for this request, in order. */
  datatype Message = Chunk(data: Bytes) | Reply(result: Result)

  /** speedtestOnFrame drops empty payloads. */
  predicate Carries(m: Message) {
    m.Chunk? && m.data != []
  }

  datatype Handler =
    | Waiting
    | Draining(result: Result)
    | Streamed               // 200 with the chunks as body
    | Relayed(code: int, body: Bytes)
    | TimedOut

  datatype State = State(
    read: seq<Message>,      // already taken from the connection
    input: seq<Message>,     // still to come
    pushing: Option<Bytes>,  // the chunk the reader is about to put into the queue
    queue: seq<Bytes>,
    waited: bool,            // is the request still in probeWait?
    slot: Option<Result>,
    handler: Handler,
    written: seq<Bytes>,
    cancelled: bool)

  function Start(messages: seq<Message>): State {
    State([], messages, None, [], true, None, Waiting, [], false)
  }

  datatype Event = Read | Push | Drop | Take | TakeResult | Finish | Cancel | GiveUp

  predicate Over(h: Handler) {
    h.Streamed? || h.Relayed? || h.TimedOut?
  }

  predicate Enabled(s: State, e: Event) {
    match e
    case Read => s.input != [] && s.pushing.None?
    case Push => s.pushing.Some? && |s.queue| < QUEUE_SLOTS
    case Drop => s.pushing.Some? && s.cancelled
    case Take => (s.handler.Waiting? || s.handler.Draining?) && s.queue != []
    case TakeResult => s.handler.Waiting? && s.slot.Some?
    case Finish => s.handler.Draining? && s.queue == []
    case Cancel => !s.cancelled
    case GiveUp => s.handler.Waiting? && s.cancelled
  }

  /** The response when nothing was written: the node's own status, except that
      a success without data is a bad gateway. */
  function RelayCode(status: int): int {
    if status == 0 || status == 200 then 502 else status
  }

  function Ending(s: State): Handler
    requires s.handler.Draining?
  {
    if s.written == [] then Relayed(RelayCode(s.handler.result.status), s.handler.result.body) else Streamed
  }

  function Step(s: State, e: Event): State {
    if !Enabled(s, e) then s
    else match e
      case Read =>
        var m := s.input[0];
        var t := s.(read := s.read + [m], input := s.input[1..]);
        if Carries(m) then (if Over(s.handler) then t else t.(pushing := Some(m.data)))
        else if m.Reply? && s.waited then t.(waited := false, slot := Some(m.result))
        else t
      case Push => s.(queue := s.queue + [s.pushing.value], pushing := None)
      case Drop => s.(pushing := None)
      case Take => s.(queue := s.queue[1..], written := s.written + [s.queue[0]])
      case TakeResult => s.(handler := Draining(s.slot.value), slot := None)
      case Finish => s.(handler := Ending(s))
      case Cancel => s.(cancelled := true)
      case GiveUp => s.(handler := TimedOut)
  }

  function Run(s: State, es: seq<Event>): State {
    if es == [] then s else Step(Run(s, es[..|es| - 1]), es[|es| - 1])
  }

  // ---------- chunks before and after the result ----------

  predicate HasReply(ms: seq<Message>) {
    exists i | 0 <= i < |ms| :: ms[i].Reply?
  }

  function Before(ms: seq<Message>): seq<Bytes> {
    if ms == [] then []
    else
      var last := ms[|ms| - 1];
      Before(ms[..|ms| - 1]) + if Carries(last) && !HasReply(ms[..|ms| - 1]) then [last.data] else []
  }

  function After(ms: seq<Message>): seq<Bytes> {
    if ms == [] then []
    else
      var last := ms[|ms| - 1];
      After(ms[..|ms| - 1]) + if Carries(last) && HasReply(ms[..|ms| - 1]) then [last.data] else []
  }

  function FirstReply(ms: seq<Message>): Option<Result> {
    if ms == [] then None
    else
      var r, last := FirstReply(ms[..|ms| - 1]), ms[|ms| - 1];
      if r.None? && last.Reply? then Some(last.result) else r
  }

  lemma {:induction false} HasReplyAppend(ms: seq<Message>, m: Message)
    ensures HasReply(ms + [m]) <==> HasReply(ms) || m.Reply?
  {
    var all := ms + [m];
    assert all[|ms|] == m;
    if HasReply(ms) {
      var i :| 0 <= i < |ms| && ms[i].Reply?;
      assert all[i].Reply?;
    }
  }

  lemma {:induction false} ReadOne(ms: seq<Message>, m: Message)
    ensures HasReply(ms + [m]) <==> HasReply(ms) || m.Reply?
    ensures Before(ms + [m]) == Before(ms) + if Carries(m) && !HasReply(ms) then [m.data] else []
    ensures After(ms + [m]) == After(ms) + if Carries(m) && HasReply(ms) then [m.data] else []
    ensures FirstReply(ms + [m]) == if FirstReply(ms).None? && m.Reply? then Some(m.result) else FirstReply(ms)
  {
    HasReplyAppend(ms, m);
    assert (ms + [m])[..|ms|] == ms;
  }

  lemma {:induction false} ReadMore(ms: seq<Message>, more: seq<Message>)
    ensures Before(ms) <= Before(ms + more) && After(ms) <= After(ms + more)
    ensures HasReply(ms) ==> Before(ms + more) == Before(ms) && FirstReply(ms + more) == FirstReply(ms)
    ensures FirstReply(ms).Some? <==> HasReply(ms)
    ensures HasReply(ms) ==> HasReply(ms + more)
    decreases |more|
  {
    if more == [] {
      assert ms + more == ms;
      ReplyFound(ms);
    } else {
      var head, m := more[..|more| - 1], more[|more| - 1];
      ReadMore(ms, head);
      ReadOne(ms + head, m);
      assert ms + more == (ms + head) + [m];
    }
  }

  lemma {:induction false} ReplyFound(ms: seq<Message>)
    ensures FirstReply(ms).Some? <==> HasReply(ms)
  {
    if ms != [] {
      ReplyFound(ms[..|ms| - 1]);
      HasReplyAppend(ms[..|ms| - 1], ms[|ms| - 1]);
      assert ms == ms[..|ms| - 1] + [ms[|ms| - 1]];
    }
  }

  // ---------- clean runs ----------

  function Held(s: State): seq<Bytes> {
    s.queue + if s.pushing.Some? then [s.pushing.value] else []
  }

  /** Where the result is. */
  ghost predicate ResultOk(s: State) {
    && !s.cancelled && !s.handler.TimedOut?
    && (s.waited <==> !HasReply(s.read))
    && (s.waited ==> s.handler.Waiting? && s.slot.None?)
    && (!s.waited && s.handler.Waiting? ==> s.slot.Some? && s.slot == FirstReply(s.read))
    && (s.handler.Draining? ==> FirstReply(s.read) == Some(s.handler.result))
    && (Over(s.handler) ==> FirstReply(s.read).Some?
                            && s.handler == Ending(s.(handler := Draining(FirstReply(s.read).value))))
  }

  /** Until the handler ends, what was read is written, queued or about to be
      queued, in order; afterwards all chunks before the result are written. */
  ghost predicate ChunksOk(s: State) {
    if Over(s.handler) then
      Before(s.read) <= s.written <= Before(s.read) + After(s.read)
    else
      && s.written + Held(s) == Before(s.read) + After(s.read)
      && (s.pushing.Some? && HasReply(s.read) ==> After(s.read) != [])
  }

  /** What holds while nothing has been cancelled. */
  ghost predicate Clean(s: State) {
    ResultOk(s) && ChunksOk(s)
  }

  lemma ReadKeepsResult(s: State)
    requires ResultOk(s) && Enabled(s, Read)
    ensures ResultOk(Step(s, Read))
  {
    hide Before, After, FirstReply, HasReply, RelayCode;
    ReadOne(s.read, s.input[0]);
    assert FirstReply(s.read).Some? <==> HasReply(s.read) by { ReplyFound(s.read); }
  }

  lemma Joined(w: seq<Bytes>, q: seq<Bytes>, b: seq<Bytes>, a: seq<Bytes>, x: Bytes)
    requires w + q == b + a
    ensures w + (q + [x]) == b + (a + [x])
    ensures a == [] ==> w + (q + [x]) == (b + [x]) + a
  {
    assert w + (q + [x]) == (w + q) + [x];
    assert b + (a + [x]) == (b + a) + [x];
  }

  lemma ReadKeepsChunks(s: State)
    requires ChunksOk(s) && Enabled(s, Read) && (Over(s.handler) ==> HasReply(s.read))
    ensures ChunksOk(Step(s, Read))
  {
    hide Before, After, HasReply;
    var m, s' := s.input[0], Step(s, Read);
    var b, a := Before(s.read), After(s.read);
    ReadOne(s.read, m);
    if !Carries(m) {
      assert b + [] == b && a + [] == a;
    } else if Over(s.handler) {
      assert b + a <= b + (a + [m.data]);
    } else {
      assert a == [] || HasReply(s.read) by { NoneAfter(s.read); }
      assert Held(s') == Held(s) + [m.data];
      Joined(s.written, Held(s), b, a, m.data);
      assert b + [] == b && a + [] == a;
    }
  }

  lemma ReadKeepsClean(s: State)
    requires Clean(s) && Enabled(s, Read)
    ensures Clean(Step(s, Read))
  {
    assert Over(s.handler) ==> HasReply(s.read);
    hide ResultOk, ChunksOk, Step;
    ReadKeepsResult(s);
    ReadKeepsChunks(s);
  }

  lemma {:induction false} NoneAfter(ms: seq<Message>)
    ensures !HasReply(ms) ==> After(ms) == []
  {
    if ms != [] {
      NoneAfter(ms[..|ms| - 1]);
      HasReplyAppend(ms[..|ms| - 1], ms[|ms| - 1]);
      assert ms == ms[..|ms| - 1] + [ms[|ms| - 1]];
    }
  }

  lemma FinishKeepsClean(s: State)
    requires Clean(s) && Enabled(s, Finish)
    ensures Clean(Step(s, Finish))
  {
    hide Before, After, FirstReply, HasReply;
    var b, a := Before(s.read), After(s.read);
    if s.pushing.Some? {
      assert s.written + [s.pushing.value] == b + a;
      assert s.written == (b + a)[..|s.written|];
      assert |b| <= |s.written|;
      assert b == (b + a)[..|b|] == s.written[..|b|];
    } else {
      assert s.written == b + a;
    }
  }

  lemma MoveKeepsClean(s: State, e: Event)
    requires Clean(s) && Enabled(s, e) && (e == Push || e == Take || e == TakeResult)
    ensures Clean(Step(s, e))
  {
    hide Before, After, FirstReply, HasReply;
    var s' := Step(s, e);
    if e == Take {
      assert s.queue == [s.queue[0]] + s.queue[1..];
      assert s'.written + Held(s') == s.written + Held(s);
    } else if e == Push {
      assert s'.written + Held(s') == s.written + Held(s);
    }
  }

  lemma {:induction false} RunKeepsClean(ms: seq<Message>, es: seq<Event>)
    requires forall i | 0 <= i < |es| :: es[i] != Cancel
    ensures Clean(Run(Start(ms), es))
    ensures Run(Start(ms), es).read + Run(Start(ms), es).input == ms
  {
    hide Clean;
    if es == [] {
      StartClean(ms);
    } else {
      var s, e := Run(Start(ms), es[..|es| - 1]), es[|es| - 1];
      RunKeepsClean(ms, es[..|es| - 1]);
      NotCancelled(s);
      if Enabled(s, e) {
        match e {
          case Read => ReadKeepsClean(s);
          case Finish => FinishKeepsClean(s);
          case _ => MoveKeepsClean(s, e);
        }
      }
    }
  }

  lemma NotCancelled(s: State)
    requires Clean(s)
    ensures !s.cancelled
  {
  }

  lemma StartClean(ms: seq<Message>)
    ensures Clean(Start(ms))
  {
  }

  /** No tail loss: in every interleaving without cancellation that ends, the
      body is all chunks that preceded the result, in order, followed by some
      prefix of the chunks the node sent after it; with no chunk at all the
      result itself is relayed. */
  lemma {:induction false} NoTailLoss(ms: seq<Message>, es: seq<Event>)
    requires (forall i | 0 <= i < |es| :: es[i] != Cancel) && Over(Run(Start(ms), es).handler)
    ensures var s := Run(Start(ms), es);
            && Before(ms) <= s.written <= Before(ms) + After(ms)
            && FirstReply(ms).Some?
            && (if s.written == [] then
                  var status := FirstReply(ms).value.status;
                  s.handler == Relayed(if status == 0 || status == 200 then 502 else status, FirstReply(ms).value.body)
                else s.handler.Streamed?)
  {
    hide Before, After, FirstReply, HasReply;
    RunKeepsClean(ms, es);
    var s := Run(Start(ms), es);
    ReadMore(s.read, s.input);
    assert Before(s.read) + After(s.read) <= Before(ms) + After(ms);
  }

  // ---------- when the body is exact ----------

  lemma {:induction false} RunAppend(s: State, es: seq<Event>, e: Event)
    ensures Run(s, es + [e]) == Step(Run(s, es), e)
  {
    assert (es + [e])[..|es|] == es;
  }

  /** Reading and passing on one chunk. */
  lemma PassOne(s: State)
    requires Enabled(s, Read) && Carries(s.input[0]) && s.handler.Waiting? && s.queue == []
    ensures Step(Step(Step(s, Read), Push), Take)
         == s.(read := s.read + [s.input[0]], input := s.input[1..], written := s.written + [s.input[0].data])
  {
    var d := s.input[0].data;
    assert [] + [d] == [d];
  }

  lemma ReadEmpty(s: State)
    requires Enabled(s, Read) && s.input[0].Chunk? && s.input[0].data == []
    ensures Step(s, Read) == s.(read := s.read + [s.input[0]], input := s.input[1..])
  {
  }

  /** Reading and passing on one message at a time. */
  lemma {:induction false} EagerRun(ms: seq<Message>, k: nat) returns (es: seq<Event>)
    requires k <= |ms| && !HasReply(ms[..k])
    ensures forall i | 0 <= i < |es| :: es[i] != Cancel
    ensures Run(Start(ms), es) == Start(ms).(read := ms[..k], input := ms[k..], written := Before(ms[..k]))
  {
    if k == 0 {
      es := [];
      assert ms[..0] == [] && ms[0..] == ms;
    } else {
      assert ms[..k] == ms[..k - 1] + [ms[k - 1]];
      ReadOne(ms[..k - 1], ms[k - 1]);
      assert ms[k - 1].Chunk?;
      es := EagerRun(ms, k - 1);
      hide Run, Step, Before, HasReply;
      var s := Run(Start(ms), es);
      assert s.input[0] == ms[k - 1] && s.input[1..] == ms[k..];
      RunAppend(Start(ms), es, Read);
      if !Carries(ms[k - 1]) {
        ReadEmpty(s);
        es := es + [Read];
        return;
      }
      PassOne(s);
      RunAppend(Start(ms), es + [Read], Push);
      RunAppend(Start(ms), es + [Read] + [Push], Take);
      es := es + [Read] + [Push] + [Take];
    }
  }

  lemma {:induction false} FirstReplyAt(ms: seq<Message>) returns (i: nat)
    requires HasReply(ms)
    ensures i < |ms| && ms[i].Reply? && !HasReply(ms[..i])
  {
    var head := ms[..|ms| - 1];
    if HasReply(head) {
      i := FirstReplyAt(head);
      assert ms[..i] == head[..i];
    } else {
      i := |ms| - 1;
      assert ms == head + [ms[i]];
      HasReplyAppend(head, ms[i]);
    }
  }

  ghost predicate CleanEnd(ms: seq<Message>, es: seq<Event>) {
    (forall i | 0 <= i < |es| :: es[i] != Cancel) && Over(Run(Start(ms), es).handler)
  }

  /** The handler may end before the reader looks at the next message. */
  lemma {:induction false} PromptRun(ms: seq<Message>, i: nat) returns (es: seq<Event>)
    requires i < |ms| && ms[i].Reply? && !HasReply(ms[..i])
    ensures CleanEnd(ms, es) && Run(Start(ms), es).written == Before(ms[..i])
  {
    es := EagerRun(ms, i);
    var s := Run(Start(ms), es);
    assert s.input[0] == ms[i];
    RunAppend(Start(ms), es, Read);
    RunAppend(Start(ms), es + [Read], TakeResult);
    RunAppend(Start(ms), es + [Read] + [TakeResult], Finish);
    es := es + [Read] + [TakeResult] + [Finish];
  }

  /** Or the reader may go on up to message c first; repeated results and empty
      payloads are dropped. */
  lemma {:induction false} ReadOn(ms: seq<Message>, i: nat, c: nat) returns (es: seq<Event>)
    requires i < c <= |ms| && ms[i].Reply? && !HasReply(ms[..i]) && forall j | i < j < c :: !Carries(ms[j])
    ensures forall j | 0 <= j < |es| :: es[j] != Cancel
    ensures Run(Start(ms), es) == Start(ms).(read := ms[..c], input := ms[c..], written := Before(ms[..i]),
                                             waited := false, slot := Some(ms[i].result))
    decreases c
  {
    if c == i + 1 {
      es := EagerRun(ms, i);
    } else {
      es := ReadOn(ms, i, c - 1);
    }
    var s := Run(Start(ms), es);
    assert s.input[0] == ms[c - 1] && s.input[1..] == ms[c..] && s.read + [ms[c - 1]] == ms[..c];
    RunAppend(Start(ms), es, Read);
    es := es + [Read];
  }

  /** The first chunk after the result slips into the body when it is queued
      before the handler finishes draining. */
  lemma {:induction false} LeakyRun(ms: seq<Message>, i: nat, c: nat) returns (es: seq<Event>)
    requires i < c < |ms| && ms[i].Reply? && !HasReply(ms[..i])
    requires Carries(ms[c]) && forall j | i < j < c :: !Carries(ms[j])
    ensures CleanEnd(ms, es) && Run(Start(ms), es).written == Before(ms[..i]) + [ms[c].data]
  {
    es := ReadOn(ms, i, c);
    var s := Run(Start(ms), es);
    assert s.input[0] == ms[c];
    RunAppend(Start(ms), es, Read);
    RunAppend(Start(ms), es + [Read], Push);
    RunAppend(Start(ms), es + [Read] + [Push], TakeResult);
    RunAppend(Start(ms), es + [Read] + [Push] + [TakeResult], Take);
    RunAppend(Start(ms), es + [Read] + [Push] + [TakeResult] + [Take], Finish);
    es := es + [Read] + [Push] + [TakeResult] + [Take] + [Finish];
  }

  lemma {:induction false} FirstChunkAfter(ms: seq<Message>, i: nat) returns (c: nat)
    requires i < |ms| && ms[i].Reply? && !HasReply(ms[..i]) && After(ms) != []
    ensures i < c < |ms| && Carries(ms[c]) && ms[c].data == After(ms)[0]
    ensures forall j | i < j < c :: !Carries(ms[j])
    decreases |ms|
  {
    var head := ms[..|ms| - 1];
    assert ms == head + [ms[|ms| - 1]];
    ReadOne(head, ms[|ms| - 1]);
    NoneAfter(head);
    if After(head) != [] {
      ReplyWithin(head, ms, i);
      assert head[..i] == ms[..i];
      c := FirstChunkAfter(head, i);
    } else {
      c := |ms| - 1;
      forall j | i < j < c
        ensures !Carries(ms[j])
      {
        if Carries(ms[j]) {
          ChunkAfterReply(head, i, j);
        }
      }
    }
  }

  lemma ReplyWithin(head: seq<Message>, ms: seq<Message>, i: nat)
    requires HasReply(head) && head <= ms && i < |ms| && !HasReply(ms[..i])
    ensures i < |head|
  {
    if |head| <= i {
      assert ms[..i] == head + ms[|head|..i];
      ReadMore(head, ms[|head|..i]);
    }
  }

  lemma {:induction false} ChunkAfterReply(ms: seq<Message>, i: nat, j: nat)
    requires i < j < |ms| && ms[i].Reply? && Carries(ms[j])
    ensures After(ms) != []
  {
    var head := ms[..|ms| - 1];
    if j < |ms| - 1 {
      ChunkAfterReply(head, i, j);
    } else {
      assert head[i].Reply?;
    }
  }

  /** Two ways a download can end. If the handler is prompt the body is exactly
      what preceded the result; if the reader is, the first chunk sent after
      the result is in the body as well. */
  lemma {:induction false} EitherWay(ms: seq<Message>) returns (prompt: seq<Event>, leaky: seq<Event>)
    requires HasReply(ms)
    ensures CleanEnd(ms, prompt) && Run(Start(ms), prompt).written == Before(ms)
    ensures After(ms) != [] ==>
              CleanEnd(ms, leaky) && Run(Start(ms), leaky).written == Before(ms) + [After(ms)[0]]
  {
    hide Run, Before, After, HasReply, CleanEnd;
    var i := FirstReplyAt(ms);
    BeforeIsPrefix(ms, i);
    prompt := PromptRun(ms, i);
    leaky := [];
    if After(ms) != [] {
      var c := FirstChunkAfter(ms, i);
      leaky := LeakyRun(ms, i, c);
    }
  }

  /** The body is exactly the chunks that preceded the result, however the
      goroutines interleave, if and only if the node sends no chunk after the
      result. */
  lemma {:induction false} BodyIsExact(ms: seq<Message>)
    requires HasReply(ms)
    ensures (forall es | CleanEnd(ms, es) :: Run(Start(ms), es).written == Before(ms)) <==> After(ms) == []
  {
    if After(ms) == [] {
      forall es | CleanEnd(ms, es)
        ensures Run(Start(ms), es).written == Before(ms)
      {
        NoTailLoss(ms, es);
      }
    } else {
      var _, leaky := EitherWay(ms);
      assert CleanEnd(ms, leaky) && Run(Start(ms), leaky).written != Before(ms);
    }
  }

  lemma {:induction false} BeforeIsPrefix(ms: seq<Message>, i: nat)
    requires i < |ms| && ms[i].Reply? && !HasReply(ms[..i])
    ensures Before(ms) == Before(ms[..i])
  {
    ReadOne(ms[..i], ms[i]);
    assert ms[..i + 1] == ms[..i] + [ms[i]];
    ReadMore(ms[..i + 1], ms[i + 1..]);
    assert ms == ms[..i + 1] + ms[i + 1..];
  }

  // ---------- progress ----------

  function Work(s: State): nat {
    4 * |s.input| + 2 * |s.queue| + (if s.pushing.Some? then 3 else 0)
    + (if s.handler.Waiting? then 2 else if s.handler.Draining? then 1 else 0)
  }

  /** Every step uses up work, so no run goes on forever ... */
  lemma StepsAreFinite(s: State, e: Event)
    requires Enabled(s, e) && e != Cancel
    ensures Work(Step(s, e)) < Work(s)
  {
  }

  /** ... and before the handler has ended a step is always possible: the full
      queue never blocks reader and handler against each other. */
  lemma {:induction false} NeverStuck(ms: seq<Message>, es: seq<Event>) returns (e: Event)
    requires HasReply(ms) && (forall i | 0 <= i < |es| :: es[i] != Cancel) && !Over(Run(Start(ms), es).handler)
    ensures e != Cancel && Enabled(Run(Start(ms), es), e)
  {
    RunKeepsClean(ms, es);
    var s := Run(Start(ms), es);
    if s.pushing.Some? {
      e := if |s.queue| < QUEUE_SLOTS then Push else Take;
    } else if s.input != [] {
      e := Read;
    } else {
      assert s.read == ms;
      e := if s.handler.Waiting? then TakeResult else if s.queue == [] then Finish else Take;
    }
  }

  /** The queue never holds more than 16 chunks, and the reader waits exactly
      when it is full. */
  lemma {:induction false} QueueIsBounded(ms: seq<Message>, es: seq<Event>)
    ensures |Run(Start(ms), es).queue| <= 16
    ensures var s := Run(Start(ms), es); s.pushing.Some? ==> (Enabled(s, Push) <==> |s.queue| != 16)
  {
    hide Over;
    if es != [] {
      QueueIsBounded(ms, es[..|es| - 1]);
    }
  }

  // ---------- with cancellation ----------

  /** a is b with some elements left out. */
  predicate Sub(a: seq<Bytes>, b: seq<Bytes>) {
    a == [] ||
    (b != [] && ((a[|a| - 1] == b[|b| - 1] && Sub(a[..|a| - 1], b[..|b| - 1])) || Sub(a, b[..|b| - 1])))
  }

  lemma {:induction false} SubSkip(a: seq<Bytes>, b: seq<Bytes>, x: Bytes)
    requires Sub(a, b)
    ensures Sub(a, b + [x])
  {
    assert (b + [x])[..|b|] == b;
  }

  lemma {:induction false} SubKeep(a: seq<Bytes>, b: seq<Bytes>, x: Bytes)
    requires Sub(a, b)
    ensures Sub(a + [x], b + [x])
  {
    assert (a + [x])[..|a|] == a && (b + [x])[..|b|] == b;
  }

  lemma {:induction false} SubLess(a: seq<Bytes>, b: seq<Bytes>)
    requires a != [] && Sub(a, b)
    ensures Sub(a[..|a| - 1], b)
    decreases |b|
  {
    var b' := b[..|b| - 1];
    if !Sub(a, b') {
      SubSkip(a[..|a| - 1], b', b[|b| - 1]);
      assert b' + [b[|b| - 1]] == b;
    } else {
      SubLess(a, b');
      SubSkip(a[..|a| - 1], b', b[|b| - 1]);
      assert b' + [b[|b| - 1]] == b;
    }
  }

  function Chunks(ms: seq<Message>): seq<Bytes> {
    if ms == [] then []
    else Chunks(ms[..|ms| - 1]) + if Carries(ms[|ms| - 1]) then [ms[|ms| - 1].data] else []
  }

  lemma ChunksAppend(ms: seq<Message>, m: Message)
    ensures Chunks(ms + [m]) == Chunks(ms) + if Carries(m) then [m.data] else []
  {
    assert (ms + [m])[..|ms|] == ms;
  }

  lemma {:induction false} ReadKeepsSub(s: State)
    requires Enabled(s, Read) && Sub(s.written + Held(s), Chunks(s.read))
    ensures var s' := Step(s, Read);
            Sub(s'.written + Held(s'), Chunks(s'.read)) && s'.read + s'.input == s.read + s.input
  {
    hide Sub, Chunks;
    var s', m := Step(s, Read), s.input[0];
    var all := s.written + Held(s);
    ChunksAppend(s.read, m);
    assert Chunks(s.read) + [] == Chunks(s.read);
    if Carries(m) {
      SubSkip(all, Chunks(s.read), m.data);
      SubKeep(all, Chunks(s.read), m.data);
      if Over(s.handler) {
        assert s'.written + Held(s') == all;
      } else {
        assert s'.written + Held(s') == all + [m.data];
      }
    } else {
      assert s'.written + Held(s') == all && Chunks(s'.read) == Chunks(s.read);
    }
  }

  /** The other steps move chunks on or drop the one in the reader's hand. */
  lemma {:induction false} StepKeepsSub(s: State, e: Event)
    requires Sub(s.written + Held(s), Chunks(s.read))
    ensures var s' := Step(s, e); Sub(s'.written + Held(s'), Chunks(s'.read)) && s'.read + s'.input == s.read + s.input
  {
    hide Sub, Chunks;
    var s' := Step(s, e);
    var all := s.written + Held(s);
    if Enabled(s, e) {
      match e {
        case Read => ReadKeepsSub(s);
        case Drop =>
          SubLess(all, Chunks(s.read));
          assert s'.written + Held(s') == all[..|all| - 1];
        case Push => assert s'.written + Held(s') == all;
        case Take =>
          assert s.queue == [s.queue[0]] + s.queue[1..];
          assert s'.written + Held(s') == all;
        case _ =>
      }
    }
  }

  lemma {:induction false} SubPrefix(a: seq<Bytes>, k: nat, b: seq<Bytes>)
    requires k <= |a| && Sub(a, b)
    ensures Sub(a[..k], b)
    decreases |a| - k
  {
    if k < |a| {
      SubPrefix(a, k + 1, b);
      SubLess(a[..k + 1], b);
      assert a[..k + 1][..k] == a[..k];
    } else {
      assert a[..k] == a;
    }
  }

  lemma {:induction false} RunKeepsSub(ms: seq<Message>, es: seq<Event>)
    ensures var s := Run(Start(ms), es);
            Sub(s.written + Held(s), Chunks(s.read)) && s.read + s.input == ms
  {
    hide Sub, Chunks, Held, Step;
    if es == [] {
      assert Sub(Start(ms).written + Held(Start(ms)), Chunks([])) by { StartSub(ms); }
    } else {
      RunKeepsSub(ms, es[..|es| - 1]);
      StepKeepsSub(Run(Start(ms), es[..|es| - 1]), es[|es| - 1]);
    }
  }

  lemma StartSub(ms: seq<Message>)
    ensures Sub(Start(ms).written + Held(Start(ms)), Chunks([]))
  {
  }

  /** Whatever is cancelled when, nothing is written twice, out of order or out
      of thin air: the body is made of the node's chunks in the order in which
      they were sent, with some left out. */
  lemma {:induction false} NothingInvented(ms: seq<Message>, es: seq<Event>)
    ensures var s := Run(Start(ms), es); Sub(s.written, Chunks(s.read)) && s.read <= ms
  {
    hide Sub, Chunks, Held;
    RunKeepsSub(ms, es);
    var s := Run(Start(ms), es);
    SubPrefix(s.written + Held(s), |s.written|, Chunks(s.read));
    assert (s.written + Held(s))[..|s.written|] == s.written;
  }

  // ---------- the handler ----------

  /** n chunks taken from the queue. */
  function Takes(n: nat): seq<Event> {
    if n == 0 then [] else Takes(n - 1) + [Take]
  }

  /** The download's side of the channels, as speedtestDownload uses them. */
  class Download {
    var read: seq<Message>
    var input: seq<Message>
    var pushing: Option<Bytes>
    var queue: seq<Bytes>
    var waited: bool
    var slot: Option<Result>
    var handler: Handler
    var written: seq<Bytes>
    var cancelled: bool

    function View(): State
      reads this
    {
      State(read, input, pushing, queue, waited, slot, handler, written, cancelled)
    }

    constructor (messages: seq<Message>)
      ensures View() == Start(messages)
    {
      read, input, pushing, queue := [], messages, None, [];
      waited, slot, handler, written, cancelled := true, None, Waiting, [], false;
    }

    /** case chunk := <-st.ch, the write succeeding. */
    method WriteChunk()
      requires Enabled(View(), Take)
      modifies this
      ensures View() == Step(old(View()), Take)
    {
      var chunk := queue[0];
      queue := queue[1..];
      written := written + [chunk];
    }

    /** case res := <-ss.result: write what is still queued, then answer. */
    method WriteRest()
      requires Enabled(View(), TakeResult)
      modifies this
      ensures View() == Run(Step(old(View()), TakeResult), Takes(|old(queue)|) + [Finish])
      ensures written == old(written) + old(queue) && queue == []
    {
      hide Run;
      handler, slot := Draining(slot.value), None;
      ghost var start := View();
      ghost var k: nat := 0;
      RunNothing(start);
      while queue != []
        invariant k + |queue| == |start.queue| && handler == start.handler
        invariant View() == Run(start, Takes(k))
        invariant written + queue == start.written + start.queue
        decreases |queue|
      {
        assert queue == [queue[0]] + queue[1..];
        WriteChunk();
        RunAppend(start, Takes(k), Take);
        k := k + 1;
      }
      RunAppend(start, Takes(k), Finish);
      if written == [] {
        var res := handler.result;
        handler := Relayed(if res.status == 0 || res.status == 200 then 502 else res.status, res.body);
      } else {
        handler := Streamed;
      }
    }
  }

  lemma RunNothing(s: State)
    ensures Run(s, Takes(0)) == s
  {
  }
}
