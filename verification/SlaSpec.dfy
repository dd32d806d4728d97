/** What the evaluators of sla_eval.go decide, stated without their order of
    checks, and what the aggregates count. */
module SlaSpec {
  import opened Calendar
  import opened Options
  import opened Sla

  // ---------- one sample ----------

  /** The code is one the task expects: any 2xx, or one of a list. */
  ghost predicate Meets(code: int, e: Expect) {
    if e.Any2xx? then 200 <= code <= 299 else exists i | 0 <= i < |e.codes| :: e.codes[i] == code
  }

  /** The stack reports this code, and the task looks at it. */
  predicate Reports(t: Task, s: Stack, code: int) {
    s.httpsCode == Some(code) || (t.apiType == Detail && s.httpCode == Some(code))
  }

  predicate HasCode(t: Task, s: Stack) {
    s.httpsCode.Some? || (t.apiType == Detail && s.httpCode.Some?)
  }

  ghost predicate StackIsGood(t: Task, s: Stack) {
    && !(t.certExpiredDown && s.isExpired == Some(true))
    && HasCode(t, s)
    && if t.bothProtocols then forall code | Reports(t, s, code) :: Meets(code, t.expected)
       else exists code :: Reports(t, s, code) && Meets(code, t.expected)
  }

  predicate HasStack(body: Body, s: Stack) {
    body.Parsed? && (body.ipv4 == Some(s) || body.ipv6 == Some(s))
  }

  predicate NoStack(body: Body) {
    body.NoBody? || (body.ipv4.None? && body.ipv6.None?)
  }

  /** Up and down alike presuppose that the sample says something; this is when
      it says "up". */
  ghost predicate IsUp(t: Task, r: Row) {
    match t.apiType
    case Dns =>
      if r.body.Parsed? && r.body.records.Some? then r.body.records.value != 0
      else !(r.body.Parsed? && r.body.error) && r.status != 0 && 200 <= r.status <= 299
    case Other =>
      if r.body.Parsed? && r.body.isReachable.Some? then
        r.body.isReachable.value
        && (r.body.httpCode.Some? && r.body.httpCode.value > 0 ==> Meets(r.body.httpCode.value, t.expected))
      else if r.body.Parsed? && r.body.ipv4.Some? then
        r.body.ipv4.value.success.Some? && r.body.ipv4.value.success.value > 0
      else r.status != 0 && Meets(r.status, t.expected)
    case _ =>
      !NoStack(r.body)
      && if t.requireAllStacks then forall s | HasStack(r.body, s) :: StackIsGood(t, s)
         else exists s :: HasStack(r.body, s) && StackIsGood(t, s)
  }

  /** The sample says nothing: no stack in a dual-stack body, or neither a
      usable body nor a link status. */
  predicate SaysNothing(t: Task, r: Row) {
    match t.apiType
    case Dns => r.status == 0 && (r.body.NoBody? || (r.body.records.None? && !r.body.error))
    case Other => r.status == 0 && (r.body.NoBody? || (r.body.isReachable.None? && r.body.ipv4.None?))
    case _ => NoStack(r.body)
  }

  lemma MeetsIs(code: int, e: Expect)
    ensures StatusIsExpected(code, e) <==> Meets(code, e)
  {
  }

  lemma StackIs(t: Task, s: Stack)
    ensures StackUp(t, s) <==> StackIsGood(t, s)
  {
    hide StatusIsExpected, Meets;
    var codes := CodesOf(t, s);
    forall code
      ensures Reports(t, s, code) <==> code in codes
      ensures StatusIsExpected(code, t.expected) <==> Meets(code, t.expected)
    {
      MeetsIs(code, t.expected);
    }
    if exists i | 0 <= i < |codes| :: StatusIsExpected(codes[i], t.expected) {
      var i :| 0 <= i < |codes| && StatusIsExpected(codes[i], t.expected);
      assert Reports(t, s, codes[i]);
    }
  }

  lemma StacksAre(body: Body, s: Stack)
    ensures HasStack(body, s) <==> s in StacksOf(body)
  {
  }

  lemma SomeStackIs(t: Task, body: Body)
    ensures var stacks := StacksOf(body);
            (exists i | 0 <= i < |stacks| :: StackUp(t, stacks[i]))
            <==> exists s :: HasStack(body, s) && StackIsGood(t, s)
  {
    hide StackUp, StackIsGood, StacksOf, HasStack;
    var stacks := StacksOf(body);
    if i :| 0 <= i < |stacks| && StackUp(t, stacks[i]) {
      StacksAre(body, stacks[i]);
      StackIs(t, stacks[i]);
    }
    if s :| HasStack(body, s) && StackIsGood(t, s) {
      StacksAre(body, s);
      StackIs(t, s);
    }
  }

  lemma AllStacksAre(t: Task, body: Body)
    ensures var stacks := StacksOf(body);
            (forall i | 0 <= i < |stacks| :: StackUp(t, stacks[i]))
            <==> forall s | HasStack(body, s) :: StackIsGood(t, s)
  {
    hide StackUp, StackIsGood, StacksOf, HasStack;
    var stacks := StacksOf(body);
    if i :| 0 <= i < |stacks| && !StackUp(t, stacks[i]) {
      StacksAre(body, stacks[i]);
      StackIs(t, stacks[i]);
    }
    if s :| HasStack(body, s) && !StackIsGood(t, s) {
      StacksAre(body, s);
      StackIs(t, s);
    }
  }

  lemma DualStackIs(t: Task, r: Row)
    requires t.apiType == Detail || t.apiType == Ssl
    ensures EvalSample(t, r).up <==> IsUp(t, r)
    ensures EvalSample(t, r).invalid <==> NoStack(r.body)
  {
    hide StackUp, StackIsGood, HasStack;
    SomeStackIs(t, r.body);
    AllStacksAre(t, r.body);
    assert StacksOf(r.body) == [] <==> NoStack(r.body);
    hide StacksOf;
  }

  /** The evaluators decide exactly this. A sample is slow when it took longer
      than the task's threshold, if there is one. */
  lemma EvalMeetsSpec(t: Task, r: Row)
    ensures var ev := EvalSample(t, r);
            && (ev.up <==> IsUp(t, r)) && (ev.invalid <==> SaysNothing(t, r))
            && (ev.slow <==> t.slowMs > 0 && r.latencyMs > t.slowMs)
  {
    if t.apiType == Detail || t.apiType == Ssl {
      DualStackIs(t, r);
    } else {
      hide StackUp, StackIsGood;
      MeetsIs(r.status, t.expected);
      if r.body.Parsed? && r.body.httpCode.Some? {
        MeetsIs(r.body.httpCode.value, t.expected);
      }
    }
  }

  // ---------- the aggregates ----------

  /** The rows of a node whose sample has a property. */
  ghost function Those(t: Task, rows: seq<Row>, n: string, p: Eval -> bool): set<int> {
    set i | 0 <= i < |rows| && rows[i].node == n && p(EvalSample(t, rows[i]))
  }

  lemma ThoseStep(t: Task, rows: seq<Row>, n: string, p: Eval -> bool)
    requires rows != []
    ensures var head, r := rows[..|rows| - 1], rows[|rows| - 1];
            |Those(t, rows, n, p)|
            == |Those(t, head, n, p)| + if r.node == n && p(EvalSample(t, r)) then 1 else 0
  {
    hide EvalSample;
    var last := |rows| - 1;
    var head, r := rows[..last], rows[last];
    assert forall i | 0 <= i < last :: head[i] == rows[i];
    var before := Those(t, head, n, p);
    if r.node == n && p(EvalSample(t, r)) {
      assert Those(t, rows, n, p) == before + {last} && last !in before;
    } else {
      assert Those(t, rows, n, p) == before;
    }
  }

  /** A node's figures are the numbers of its samples, of the up, down and
      invalid ones, and of the valid ones that were slow. */
  lemma {:induction false} NodeFigures(t: Task, rows: seq<Row>, n: string)
    ensures var a := AggOf(t, rows, n);
            && a.samples == |Those(t, rows, n, ev => true)|
            && a.up == |Those(t, rows, n, (ev: Eval) => ev.up)|
            && a.down == |Those(t, rows, n, (ev: Eval) => !ev.up && !ev.invalid)|
            && a.invalid == |Those(t, rows, n, (ev: Eval) => ev.invalid)|
            && a.slow == |Those(t, rows, n, (ev: Eval) => ev.slow && !ev.invalid)|
  {
    hide EvalSample, Those;
    if rows == [] {
      NoneOfThose(t, n);
    } else {
      NodeFigures(t, rows[..|rows| - 1], n);
      ThoseStep(t, rows, n, ev => true);
      ThoseStep(t, rows, n, (ev: Eval) => ev.up);
      ThoseStep(t, rows, n, (ev: Eval) => !ev.up && !ev.invalid);
      ThoseStep(t, rows, n, (ev: Eval) => ev.invalid);
      ThoseStep(t, rows, n, (ev: Eval) => ev.slow && !ev.invalid);
      NeverUpAndInvalid(t, rows[|rows| - 1]);
    }
  }

  lemma NoneOfThose(t: Task, n: string)
    ensures forall p: Eval -> bool :: Those(t, [], n, p) == {}
  {
  }

  /** Latencies of the up samples, summed. */
  ghost function UpMs(t: Task, rows: seq<Row>): int {
    if rows == [] then 0
    else UpMs(t, rows[..|rows| - 1]) + if IsUp(t, rows[|rows| - 1]) then rows[|rows| - 1].latencyMs else 0
  }

  /** The totals' latency is that of the up samples alone. */
  lemma {:induction false} TotalsLatency(t: Task, rows: seq<Row>)
    ensures TallyAll(t, rows).sumMs == UpMs(t, rows)
  {
    hide EvalSample, IsUp;
    if rows != [] {
      TotalsLatency(t, rows[..|rows| - 1]);
      EvalMeetsSpec(t, rows[|rows| - 1]);
    }
  }

  /** Rounds are named by the nearest second, halves rounded up. */
  lemma RoundIsNearest(at: int)
    ensures 2 * (RoundSecond(at) * SECOND - at) <= SECOND
    ensures 2 * (at - RoundSecond(at) * SECOND) < SECOND
  {
    var k, r := (at + SECOND / 2) / SECOND, (at + SECOND / 2) % SECOND;
    assert at + SECOND / 2 == k * SECOND + r;
  }
}
