/** sla_eval.go: judging stored samples and the two aggregations of them.
    Bodies are already parsed; float ratios and averages are left out. */
module Sla {
  import opened Calendar
  import opened Options

  /** One of the ipv4 / ipv6 objects of a body. */
  datatype Stack = Stack(isExpired: Option<bool>, httpsCode: Option<int>, httpCode: Option<int>, success: Option<int>)

  /** The fields the evaluators read; NoBody is an empty or unreadable body. */
  datatype Body =
    | NoBody
    | Parsed(isReachable: Option<bool>, httpCode: Option<int>, ipv4: Option<Stack>, ipv6: Option<Stack>,
             records: Option<nat>, error: bool)

  datatype ApiType = Detail | Ssl | Dns | Other

  datatype Expect = Any2xx | Codes(codes: seq<int>)

  datatype Task = Task(
    apiType: ApiType, expected: Expect, requireAllStacks: bool, bothProtocols: bool, certExpiredDown: bool, slowMs: int)

  datatype Row = Row(node: string, at: int, status: int, body: Body, latencyMs: int)

  datatype Eval = Eval(up: bool, invalid: bool, slow: bool)

  const UP := (true, false)
  const DOWN := (false, false)
  const INVALID := (false, true)

  // ---------- judging one sample ----------

  predicate StatusIsExpected(code: int, e: Expect) {
    match e
    case Any2xx => 200 <= code < 300
    case Codes(codes) => code in codes
  }

  function UpIf(b: bool): (bool, bool) {
    if b then UP else DOWN
  }

  function EvalLink(linkStatus: int, e: Expect): (bool, bool) {
    if linkStatus == 0 then INVALID else UpIf(StatusIsExpected(linkStatus, e))
  }

  function EvalFlatBody(t: Task, body: Body, linkStatus: int): (bool, bool) {
    if body.Parsed? && body.isReachable.Some? then
      if !body.isReachable.value then DOWN
      else if body.httpCode.Some? && body.httpCode.value > 0 then
        UpIf(StatusIsExpected(body.httpCode.value, t.expected))
      else UP
    else if body.Parsed? && body.ipv4.Some? then
      UpIf(body.ipv4.value.success.Some? && body.ipv4.value.success.value > 0)
    else EvalLink(linkStatus, t.expected)
  }

  function EvalDns(body: Body, linkStatus: int): (bool, bool) {
    if body.Parsed? && body.records.Some? then UpIf(body.records.value > 0)
    else if body.Parsed? && body.error then DOWN
    else EvalLink(linkStatus, Any2xx)
  }

  function CodesOf(t: Task, s: Stack): seq<int> {
    (if s.httpsCode.Some? then [s.httpsCode.value] else [])
    + (if t.apiType.Detail? && s.httpCode.Some? then [s.httpCode.value] else [])
  }

  predicate StackUp(t: Task, s: Stack) {
    var codes := CodesOf(t, s);
    if t.certExpiredDown && s.isExpired == Some(true) then false
    else if codes == [] then false
    else if t.bothProtocols then forall i | 0 <= i < |codes| :: StatusIsExpected(codes[i], t.expected)
    else exists i | 0 <= i < |codes| :: StatusIsExpected(codes[i], t.expected)
  }

  function StacksOf(body: Body): seq<Stack> {
    if body.NoBody? then []
    else (if body.ipv4.Some? then [body.ipv4.value] else []) + (if body.ipv6.Some? then [body.ipv6.value] else [])
  }

  function EvalDualStack(t: Task, body: Body): (bool, bool) {
    var stacks := StacksOf(body);
    if stacks == [] then INVALID
    else if t.requireAllStacks then UpIf(forall i | 0 <= i < |stacks| :: StackUp(t, stacks[i]))
    else UpIf(exists i | 0 <= i < |stacks| :: StackUp(t, stacks[i]))
  }

  function EvalSample(t: Task, r: Row): Eval {
    var v := match t.apiType
      case Detail => EvalDualStack(t, r.body)
      case Ssl => EvalDualStack(t, r.body)
      case Dns => EvalDns(r.body, r.status)
      case Other => EvalFlatBody(t, r.body, r.status);
    Eval(v.0, v.1, t.slowMs > 0 && r.latencyMs > t.slowMs)
  }

  /** A sample is up, down or invalid, never two of them. */
  lemma NeverUpAndInvalid(t: Task, r: Row)
    ensures !(EvalSample(t, r).up && EvalSample(t, r).invalid)
  {
  }

  lemma StricterStack(strict: Task, lax: Task, st: Stack)
    requires strict.apiType == lax.apiType && strict.expected == lax.expected
    requires lax.bothProtocols ==> strict.bothProtocols
    requires lax.certExpiredDown ==> strict.certExpiredDown
    ensures StackUp(strict, st) ==> StackUp(lax, st)
  {
    hide StatusIsExpected;
    var codes := CodesOf(strict, st);
    if StackUp(strict, st) && strict.bothProtocols {
      assert StatusIsExpected(codes[0], strict.expected);
    }
  }

  /** A task that is stricter than another in any of the three options - all
      stacks, both protocols, unexpired certificate - never judges a sample up
      that the other does not. */
  lemma StricterTask(strict: Task, lax: Task, r: Row)
    requires strict.apiType == lax.apiType && strict.expected == lax.expected
    requires lax.bothProtocols ==> strict.bothProtocols
    requires lax.certExpiredDown ==> strict.certExpiredDown
    requires lax.requireAllStacks ==> strict.requireAllStacks
    ensures EvalSample(strict, r).up ==> EvalSample(lax, r).up
  {
    hide StackUp, StatusIsExpected;
    var stacks := StacksOf(r.body);
    forall i | 0 <= i < |stacks|
      ensures StackUp(strict, stacks[i]) ==> StackUp(lax, stacks[i])
    {
      StricterStack(strict, lax, stacks[i]);
    }
    hide StacksOf;
    if stacks != [] && strict.requireAllStacks && EvalDualStack(strict, r.body).0 {
      assert StackUp(strict, stacks[0]);
    }
  }

  lemma InvalidOfRow(a: Task, b: Task, r: Row)
    requires a.apiType == b.apiType
    ensures EvalSample(a, r).invalid == EvalSample(b, r).invalid
  {
    hide StackUp, StatusIsExpected;
  }

  /** Whether a sample counts at all does not depend on the criteria, so
      changing them re-judges the history without changing its size. */
  lemma {:induction false} InvalidIgnoresCriteria(a: Task, b: Task, rows: seq<Row>)
    requires a.apiType == b.apiType
    ensures TallyAll(a, rows).valid == TallyAll(b, rows).valid
  {
    hide EvalSample;
    if rows != [] {
      InvalidIgnoresCriteria(a, b, rows[..|rows| - 1]);
      InvalidOfRow(a, b, rows[|rows| - 1]);
    }
  }

  // ---------- tallies ----------

  datatype Tally = Tally(samples: int, valid: int, up: int, down: int, sumMs: int, nLat: int)

  const ZERO := Tally(0, 0, 0, 0, 0, 0)

  function Plus(a: Tally, b: Tally): Tally {
    Tally(a.samples + b.samples, a.valid + b.valid, a.up + b.up, a.down + b.down, a.sumMs + b.sumMs, a.nLat + b.nLat)
  }

  function One(t: Task, r: Row): Tally {
    var ev := EvalSample(t, r);
    Tally(1, if ev.invalid then 0 else 1, if ev.up then 1 else 0, if !ev.up && !ev.invalid then 1 else 0,
          if ev.up then r.latencyMs else 0, if ev.up then 1 else 0)
  }

  /** r.CreatedAt.Round(time.Second).Unix(). */
  function RoundSecond(at: int): int {
    (at + SECOND / 2) / SECOND
  }

  /** Everything that was sampled in the seconds [lo, hi). */
  function TallyIn(t: Task, rows: seq<Row>, lo: int, hi: int): Tally {
    if rows == [] then ZERO
    else
      var r := rows[|rows| - 1];
      var before := TallyIn(t, rows[..|rows| - 1], lo, hi);
      if lo <= RoundSecond(r.at) < hi then Plus(before, One(t, r)) else before
  }

  function TallyAll(t: Task, rows: seq<Row>): Tally {
    if rows == [] then ZERO else Plus(TallyAll(t, rows[..|rows| - 1]), One(t, rows[|rows| - 1]))
  }

  /** In every aggregate the valid samples are the up and the down ones, and
      each row is one sample. */
  lemma {:induction false} ValidIsUpPlusDown(t: Task, rows: seq<Row>)
    ensures var a := TallyAll(t, rows); a.valid == a.up + a.down && a.samples == |rows| && a.nLat == a.up
  {
    hide EvalSample;
    if rows != [] {
      ValidIsUpPlusDown(t, rows[..|rows| - 1]);
      NeverUpAndInvalid(t, rows[|rows| - 1]);
    }
  }

  lemma {:induction false} TallySplit(t: Task, rows: seq<Row>, lo: int, m: int, hi: int)
    requires lo <= m <= hi
    ensures TallyIn(t, rows, lo, hi) == Plus(TallyIn(t, rows, lo, m), TallyIn(t, rows, m, hi))
  {
    hide One, RoundSecond;
    if rows != [] {
      TallySplit(t, rows[..|rows| - 1], lo, m, hi);
    }
  }

  lemma {:induction false} TallyNone(t: Task, rows: seq<Row>, lo: int, hi: int)
    requires forall i | 0 <= i < |rows| :: !(lo <= RoundSecond(rows[i].at) < hi)
    ensures TallyIn(t, rows, lo, hi) == ZERO
  {
    if rows != [] {
      TallyNone(t, rows[..|rows| - 1], lo, hi);
    }
  }

  lemma {:induction false} TallyEvery(t: Task, rows: seq<Row>, lo: int, hi: int)
    requires forall i | 0 <= i < |rows| :: lo <= RoundSecond(rows[i].at) < hi
    ensures TallyIn(t, rows, lo, hi) == TallyAll(t, rows)
  {
    if rows != [] {
      TallyEvery(t, rows[..|rows| - 1], lo, hi);
    }
  }

  // ---------- per node ----------

  datatype Latest = Latest(at: int, up: bool, ms: int)

  datatype NodeAgg = NodeAgg(samples: int, up: int, down: int, invalid: int, slow: int, latest: Option<Latest>)

  const NEW_NODE := NodeAgg(0, 0, 0, 0, 0, None)

  /** One more sample of a node. */
  function Added(t: Task, a: NodeAgg, r: Row): NodeAgg {
    var ev := EvalSample(t, r);
    if ev.invalid then a.(samples := a.samples + 1, invalid := a.invalid + 1)
    else
      a.(samples := a.samples + 1,
         up := a.up + if ev.up then 1 else 0,
         down := a.down + if ev.up then 0 else 1,
         slow := a.slow + if ev.slow then 1 else 0,
         latest := if a.latest.None? || r.at >= a.latest.value.at then Some(Latest(r.at, ev.up, r.latencyMs))
                   else a.latest)
  }

  function AggOf(t: Task, rows: seq<Row>, n: string): NodeAgg {
    if rows == [] then NEW_NODE
    else
      var r := rows[|rows| - 1];
      var a := AggOf(t, rows[..|rows| - 1], n);
      if r.node == n then Added(t, a, r) else a
  }

  /** The newest valid sample of a node, the later row among equals. */
  lemma {:induction false} LatestIsNewest(t: Task, rows: seq<Row>, n: string)
    ensures var l := AggOf(t, rows, n).latest;
            && (forall i | 0 <= i < |rows| && rows[i].node == n && !EvalSample(t, rows[i]).invalid ::
                  l.Some? && rows[i].at <= l.value.at)
            && (l.Some? ==> exists i | 0 <= i < |rows| ::
                  && rows[i].node == n && !EvalSample(t, rows[i]).invalid
                  && l.value == Latest(rows[i].at, EvalSample(t, rows[i]).up, rows[i].latencyMs)
                  && forall j | i < j < |rows| && rows[j].node == n && !EvalSample(t, rows[j]).invalid ::
                       rows[j].at < l.value.at)
  {
    hide EvalSample;
    if rows != [] {
      var head, r := rows[..|rows| - 1], rows[|rows| - 1];
      LatestIsNewest(t, head, n);
      var l := AggOf(t, rows, n).latest;
      if l.Some? && l == AggOf(t, head, n).latest && !(r.node == n && !EvalSample(t, r).invalid && r.at >= l.value.at) {
        var i :| 0 <= i < |head|
                 && head[i].node == n && !EvalSample(t, head[i]).invalid
                 && l.value == Latest(head[i].at, EvalSample(t, head[i]).up, head[i].latencyMs)
                 && forall j | i < j < |head| && head[j].node == n && !EvalSample(t, head[j]).invalid ::
                      head[j].at < l.value.at;
        assert rows[i] == head[i];
        forall j | i < j < |rows| && rows[j].node == n && !EvalSample(t, rows[j]).invalid
          ensures rows[j].at < l.value.at
        {
          assert j < |head| ==> rows[j] == head[j];
        }
      } else if l.Some? {
        assert rows[|rows| - 1] == r;
      }
    }
  }

  /** Sum over the nodes of a report. */
  function SumNodes(t: Task, rows: seq<Row>, order: seq<string>): NodeAgg {
    if order == [] then NEW_NODE
    else
      var s, a := SumNodes(t, rows, order[..|order| - 1]), AggOf(t, rows, order[|order| - 1]);
      NodeAgg(s.samples + a.samples, s.up + a.up, s.down + a.down, s.invalid + a.invalid, s.slow + a.slow, None)
  }

  ghost predicate Distinct<T>(s: seq<T>) {
    forall i, j | 0 <= i < j < |s| :: s[i] != s[j]
  }

  lemma {:induction false} SumNodesStep(t: Task, rows: seq<Row>, r: Row, order: seq<string>)
    requires Distinct(order)
    ensures var s, s' := SumNodes(t, rows, order), SumNodes(t, rows + [r], order);
            var a := Added(t, NEW_NODE, r);
            if r.node in order then
              s' == NodeAgg(s.samples + 1, s.up + a.up, s.down + a.down, s.invalid + a.invalid, s.slow + a.slow, None)
            else s' == s
    decreases |order|
  {
    hide EvalSample;
    if order != [] {
      assert (rows + [r])[..|rows|] == rows;
      var head, last := order[..|order| - 1], order[|order| - 1];
      SumNodesStep(t, rows, r, head);
      assert order == head + [last];
      assert r.node in order <==> r.node in head || r.node == last;
    }
  }

  lemma {:induction false} SumNodesEmpty(t: Task, order: seq<string>)
    ensures SumNodes(t, [], order) == NEW_NODE
  {
    if order != [] {
      SumNodesEmpty(t, order[..|order| - 1]);
    }
  }

  /** The per-node totals add up to the totals of the rows. */
  lemma {:induction false} NodesAddUp(t: Task, rows: seq<Row>, order: seq<string>)
    requires Distinct(order) && forall i | 0 <= i < |rows| :: rows[i].node in order
    ensures var s, a := SumNodes(t, rows, order), TallyAll(t, rows);
            s.samples == a.samples && s.up == a.up && s.down == a.down && s.samples - s.invalid == a.valid
    decreases |rows|
  {
    hide SumNodes, Added, One;
    if rows == [] {
      SumNodesEmpty(t, order);
    } else {
      var head, r := rows[..|rows| - 1], rows[|rows| - 1];
      NodesAddUp(t, head, order);
      SumNodesStep(t, head, r, order);
      OneIsAdded(t, r);
      assert head + [r] == rows;
    }
  }

  /** The two aggregations judge a row alike. */
  lemma OneIsAdded(t: Task, r: Row)
    ensures var a, o := Added(t, NEW_NODE, r), One(t, r);
            o.samples == 1 && a.up == o.up && a.down == o.down && 1 - a.invalid == o.valid
  {
    hide EvalSample;
    NeverUpAndInvalid(t, r);
  }

  /** agg holds the figures of exactly the nodes that have rows. */
  ghost predicate AggsOk(t: Task, rows: seq<Row>, agg: map<string, NodeAgg>) {
    && (forall n :: n in agg <==> exists i | 0 <= i < |rows| :: rows[i].node == n)
    && (forall n | n in agg :: agg[n] == AggOf(t, rows, n))
  }

  /** order lists the nodes of agg. */
  ghost predicate Lists(order: seq<string>, agg: map<string, NodeAgg>) {
    Distinct(order) && forall n :: n in order <==> n in agg
  }

  lemma ListsStep(order: seq<string>, agg: map<string, NodeAgg>, n: string, a: NodeAgg)
    requires Lists(order, agg)
    ensures Lists(if n in agg then order else order + [n], agg[n := a])
  {
    forall x
      ensures x in order + [n] <==> x in order || x == n
    {
    }
  }

  lemma NoAggs(t: Task, rows: seq<Row>)
    requires rows == []
    ensures AggsOk(t, rows, map[]) && Lists([], map[])
  {
  }

  lemma AggsSay(t: Task, rows: seq<Row>, order: seq<string>, agg: map<string, NodeAgg>)
    requires AggsOk(t, rows, agg) && Lists(order, agg)
    ensures forall n :: n in agg <==> exists i | 0 <= i < |rows| :: rows[i].node == n
    ensures forall n | n in agg :: agg[n] == AggOf(t, rows, n)
    ensures Distinct(order) && forall n :: n in order <==> n in agg
    ensures forall i | 0 <= i < |rows| :: rows[i].node in order
  {
    hide AggOf;
    forall i | 0 <= i < |rows|
      ensures rows[i].node in order
    {
      assert rows[i].node in agg;
    }
  }

  lemma AggsStep(t: Task, rows: seq<Row>, i: nat, agg: map<string, NodeAgg>)
    requires i < |rows| && AggsOk(t, rows[..i], agg)
    ensures var r := rows[i];
            AggsOk(t, rows[..i + 1], agg[r.node := Added(t, if r.node in agg then agg[r.node] else NEW_NODE, r)])
  {
    hide Added;
    var r, head, next := rows[i], rows[..i], rows[..i + 1];
    assert next[..i] == head && next[i] == r;
    if r.node !in agg {
      NotSeen(t, head, r.node);
    }
    var agg' := agg[r.node := Added(t, if r.node in agg then agg[r.node] else NEW_NODE, r)];
    forall n
      ensures n in agg' <==> exists j | 0 <= j < |next| :: next[j].node == n
    {
      if n in agg {
        var j :| 0 <= j < |head| && head[j].node == n;
        assert next[j].node == n;
      }
    }
  }

  /** One pass of the loop in computeTaskSlaRange. */
  method AddSample(t: Task, before: NodeAgg, r: Row) returns (a: NodeAgg)
    ensures a == Added(t, before, r)
  {
    hide EvalSample;
    var ev := EvalSample(t, r);
    a := before.(samples := before.samples + 1);
    if ev.invalid {
      a := a.(invalid := a.invalid + 1);
    } else {
      if ev.up {
        a := a.(up := a.up + 1);
      } else {
        a := a.(down := a.down + 1);
      }
      if ev.slow {
        a := a.(slow := a.slow + 1);
      }
      if a.latest.None? || r.at >= a.latest.value.at {
        a := a.(latest := Some(Latest(r.at, ev.up, r.latencyMs)));
      }
    }
  }

  /** computeTaskSlaRange: order lists the nodes, agg their figures. */
  method ComputeTaskSla(t: Task, rows: seq<Row>) returns (order: seq<string>, agg: map<string, NodeAgg>, total: nat)
    ensures total == |rows| && Distinct(order)
    ensures forall n :: n in order <==> n in agg
    ensures forall n :: n in agg <==> exists i | 0 <= i < |rows| :: rows[i].node == n
    ensures forall n | n in agg :: agg[n] == AggOf(t, rows, n)
    ensures var s, a := SumNodes(t, rows, order), TallyAll(t, rows);
            s.samples == a.samples && s.up == a.up && s.down == a.down && s.samples - s.invalid == a.valid
  {
    order, agg, total := [], map[], 0;
    hide Added, SumNodes, TallyAll, AggOf, AggsOk, Lists;
    NoAggs(t, rows[..0]);
    while total < |rows|
      invariant 0 <= total <= |rows|
      invariant Lists(order, agg) && AggsOk(t, rows[..total], agg)
    {
      var r := rows[total];
      AggsStep(t, rows, total, agg);
      ghost var listed := order;
      var a := NEW_NODE;
      if r.node in agg {
        a := agg[r.node];
      } else {
        order := order + [r.node];
      }
      a := AddSample(t, a, r);
      total := total + 1;
      ListsStep(listed, agg, r.node, a);
      agg := agg[r.node := a];
    }
    assert rows[..total] == rows;
    AggsSay(t, rows, order, agg);
    NodesAddUp(t, rows, order);
  }

  lemma {:induction false} NotSeen(t: Task, rows: seq<Row>, n: string)
    requires forall i | 0 <= i < |rows| :: rows[i].node != n
    ensures AggOf(t, rows, n) == NEW_NODE
  {
    if rows != [] {
      NotSeen(t, rows[..|rows| - 1], n);
    }
  }

  // ---------- the series ----------

  const MAX_POINTS := 1500

  /** A point of the curve: at is in seconds, rounds counts the merged rounds. */
  datatype Point = Point(at: int, tally: Tally, rounds: nat)

  ghost predicate Increasing(s: seq<int>) {
    forall i, j | 0 <= i < j < |s| :: s[i] < s[j]
  }

  function Insert(s: seq<int>, k: int): (r: seq<int>)
    ensures forall x :: x in r <==> x in s || x == k
    ensures |r| == |s| + 1
  {
    if s == [] then [k]
    else if k <= s[0] then [k] + s
    else [s[0]] + Insert(s[1..], k)
  }

  /** sort.Slice on the keys. */
  function Sort(s: seq<int>): (r: seq<int>)
    ensures forall x :: x in r <==> x in s
    ensures |r| == |s|
  {
    if s == [] then [] else Insert(Sort(s[1..]), s[0])
  }

  lemma {:induction false} InsertIncreasing(s: seq<int>, k: int)
    requires Increasing(s) && k !in s
    ensures Increasing(Insert(s, k))
  {
    if s != [] && k > s[0] {
      InsertIncreasing(s[1..], k);
      var r := Insert(s[1..], k);
      forall i | 0 <= i < |r|
        ensures s[0] < r[i]
      {
        assert r[i] in r;
      }
    }
  }

  lemma {:induction false} SortIncreasing(s: seq<int>)
    requires Distinct(s)
    ensures Increasing(Sort(s))
  {
    if s != [] {
      SortIncreasing(s[1..]);
      InsertIncreasing(Sort(s[1..]), s[0]);
    }
  }

  /** The rounds of the rows: one tally per second in which rows fall. */
  ghost predicate RoundsOf(t: Task, rows: seq<Row>, keys: seq<int>, agg: map<int, Tally>) {
    && Distinct(keys)
    && (forall k :: k in keys <==> k in agg)
    && (forall i | 0 <= i < |rows| :: RoundSecond(rows[i].at) in agg)
    && (forall k | k in agg :: agg[k] == TallyIn(t, rows, k, k + 1) && agg[k].samples > 0)
  }

  method CollectRounds(t: Task, rows: seq<Row>) returns (keys: seq<int>, agg: map<int, Tally>)
    ensures RoundsOf(t, rows, keys, agg)
  {
    hide One, RoundSecond;
    keys, agg := [], map[];
    var i := 0;
    while i < |rows|
      invariant 0 <= i <= |rows|
      invariant RoundsOf(t, rows[..i], keys, agg)
    {
      var r, k := rows[i], RoundSecond(rows[i].at);
      ghost var next := rows[..i + 1];
      assert next[..i] == rows[..i] && next[i] == r;
      if k !in agg {
        TallyNone(t, rows[..i], k, k + 1);
        agg := agg[k := ZERO];
        keys := keys + [k];
      }
      assert One(t, r).samples == 1 by { OneIsAdded(t, r); }
      agg := agg[k := Plus(agg[k], One(t, r))];
      i := i + 1;
    }
    assert rows[..i] == rows;
  }

  /** Where point i ends: at the next point, or nowhere. */
  ghost function UpTo(keys: seq<int>, e: nat): int
    requires e <= |keys| && keys != []
  {
    if e < |keys| then keys[e] else keys[|keys| - 1] + 1
  }

  /** No row falls between two neighbouring rounds. */
  lemma NothingBetween(t: Task, rows: seq<Row>, keys: seq<int>, agg: map<int, Tally>, j: nat)
    requires Increasing(keys) && RoundsOf(t, rows, keys, agg) && j < |keys|
    ensures TallyIn(t, rows, keys[j] + 1, UpTo(keys, j + 1)) == ZERO
  {
    hide TallyIn, RoundSecond, Distinct;
    forall i | 0 <= i < |rows|
      ensures !(keys[j] + 1 <= RoundSecond(rows[i].at) < UpTo(keys, j + 1))
    {
      var k := RoundSecond(rows[i].at);
      assert k in agg;
      var m :| 0 <= m < |keys| && keys[m] == k;
      assert m <= j || m >= j + 1;
    }
    TallyNone(t, rows, keys[j] + 1, UpTo(keys, j + 1));
  }

  /** Adding one more round to a merged point. */
  lemma RoundMerged(t: Task, rows: seq<Row>, keys: seq<int>, agg: map<int, Tally>, lo: int, j: nat)
    requires Increasing(keys) && RoundsOf(t, rows, keys, agg) && j < |keys| && lo <= keys[j]
    ensures keys[j] in agg
    ensures TallyIn(t, rows, lo, UpTo(keys, j + 1)) == Plus(TallyIn(t, rows, lo, keys[j]), agg[keys[j]])
  {
    NothingBetween(t, rows, keys, agg, j);
    RoundAt(t, rows, keys, agg, j);
    var e := UpTo(keys, j + 1);
    hide TallyIn, RoundsOf;
    TallySplit(t, rows, lo, keys[j], e);
    TallySplit(t, rows, keys[j], keys[j] + 1, e);
  }

  lemma RoundAt(t: Task, rows: seq<Row>, keys: seq<int>, agg: map<int, Tally>, j: nat)
    requires RoundsOf(t, rows, keys, agg) && j < |keys|
    ensures keys[j] in agg && agg[keys[j]] == TallyIn(t, rows, keys[j], keys[j] + 1) && agg[keys[j]].samples > 0
  {
    hide TallyIn, RoundSecond, Distinct;
    var k := keys[j];
    assert k in keys;
  }

  lemma FewPoints(points: nat, merge: nat, n: nat)
    requires merge >= 1 && points * merge < n <= MAX_POINTS * merge
    ensures points < MAX_POINTS
  {
    if points >= MAX_POINTS {
      AtLeastTimes(points, MAX_POINTS, merge);
    }
  }

  lemma AtLeastTimes(a: nat, b: nat, c: nat)
    requires a >= b
    ensures a * c >= b * c
  {
  }

  function EndOf(points: seq<Point>, i: nat, end: int): int
    requires i < |points|
  {
    if i + 1 < |points| then points[i + 1].at else end
  }

  /** A point tallies exactly the rows from its second up to the next point's. */
  ghost predicate PointsOk(t: Task, rows: seq<Row>, points: seq<Point>, end: int) {
    && (forall i, j | 0 <= i < j < |points| :: points[i].at < points[j].at)
    && (forall i | 0 <= i < |points| ::
          && points[i].at < EndOf(points, i, end)
          && points[i].tally == TallyIn(t, rows, points[i].at, EndOf(points, i, end)))
  }

  function SumPoints(points: seq<Point>): Tally {
    if points == [] then ZERO else Plus(SumPoints(points[..|points| - 1]), points[|points| - 1].tally)
  }

  lemma {:induction false} PointsAddUp(t: Task, rows: seq<Row>, points: seq<Point>, end: int)
    requires PointsOk(t, rows, points, end) && points != []
    ensures SumPoints(points) == TallyIn(t, rows, points[0].at, end)
    decreases |points|
  {
    hide TallyIn, PointsOk;
    var head, last := points[..|points| - 1], points[|points| - 1];
    PointsHead(t, rows, points, end);
    if head != [] {
      PointsAddUp(t, rows, head, last.at);
      TallySplit(t, rows, points[0].at, last.at, end);
    }
  }

  /** The last point tallies the rows from its second on, the others are a
      series that ends there. */
  lemma PointsHead(t: Task, rows: seq<Row>, points: seq<Point>, end: int)
    requires PointsOk(t, rows, points, end) && points != []
    ensures var head, last := points[..|points| - 1], points[|points| - 1];
            && PointsOk(t, rows, head, last.at) && last.tally == TallyIn(t, rows, last.at, end)
            && points[0].at <= last.at < end
  {
    hide TallyIn;
    var head, last := points[..|points| - 1], points[|points| - 1];
    assert last.tally == TallyIn(t, rows, last.at, EndOf(points, |points| - 1, end));
    forall i | 0 <= i < |head|
      ensures head[i].at < EndOf(head, i, last.at)
      ensures head[i].tally == TallyIn(t, rows, head[i].at, EndOf(head, i, last.at))
    {
      assert head[i] == points[i] && EndOf(head, i, last.at) == EndOf(points, i, end);
    }
  }

  lemma PointAppended(t: Task, rows: seq<Row>, points: seq<Point>, p: Point, end: int)
    requires PointsOk(t, rows, points, p.at) && p.at < end && p.tally == TallyIn(t, rows, p.at, end)
    ensures PointsOk(t, rows, points + [p], end)
  {
    hide TallyIn;
    var all := points + [p];
    forall i | 0 <= i < |all|
      ensures all[i].at < EndOf(all, i, end) && all[i].tally == TallyIn(t, rows, all[i].at, EndOf(all, i, end))
    {
      if i < |points| {
        assert all[i] == points[i] && EndOf(all, i, end) == EndOf(points, i, p.at);
      }
    }
    forall i | 0 <= i < |points|
      ensures points[i].at < p.at
    {
      assert points[|points| - 1].at < EndOf(points, |points| - 1, p.at);
    }
  }

  /** Merges the rounds i..e into one point. */
  method MergeRounds(t: Task, rows: seq<Row>, keys: seq<int>, agg: map<int, Tally>, i: nat, e: nat) returns (acc: Tally)
    requires Increasing(keys) && RoundsOf(t, rows, keys, agg) && i < e <= |keys|
    ensures acc == TallyIn(t, rows, keys[i], UpTo(keys, e))
  {
    hide RoundsOf, TallyIn;
    acc := ZERO;
    var j := i;
    assert TallyIn(t, rows, keys[i], UpTo(keys, i)) == ZERO by { TallyNone(t, rows, keys[i], keys[i]); }
    while j < e
      invariant i <= j <= e
      invariant acc == TallyIn(t, rows, keys[i], UpTo(keys, j))
    {
      RoundMerged(t, rows, keys, agg, keys[i], j);
      acc := Plus(acc, agg[keys[j]]);
      j := j + 1;
    }
  }

  // ---------- the whole series ----------

  /** keys lists the seconds in which rows fall, in order. */
  ghost predicate SecondsAre(rows: seq<Row>, keys: seq<int>) {
    Increasing(keys) && forall k :: k in keys <==> exists i | 0 <= i < |rows| :: RoundSecond(rows[i].at) == k
  }

  /** How many adjacent rounds one point stands for. */
  function MergeOf(n: nat): (m: nat)
    ensures m >= 1 && n <= 1500 * m && (m > 1 ==> 1500 * (m - 1) < n)
  {
    if n > MAX_POINTS then (n + MAX_POINTS - 1) / MAX_POINTS else 1
  }

  ghost predicate Groups(keys: seq<int>, m: nat, p: nat, pt: Point) {
    && 0 <= p * m < |keys|
    && pt.at == keys[p * m] && pt.rounds == if m < |keys| - p * m then m else |keys| - p * m
  }

  /** The points stand for the rounds in groups of m, the last one possibly
      smaller. */
  ghost predicate Grouped(keys: seq<int>, m: nat, points: seq<Point>) {
    forall p: nat | p < |points| :: Groups(keys, m, p, points[p])
  }

  ghost predicate EvenlyMerged(rows: seq<Row>, points: seq<Point>) {
    exists keys :: SecondsAre(rows, keys) && Grouped(keys, MergeOf(|keys|), points)
                   && (|points| - 1) * MergeOf(|keys|) < |keys| <= |points| * MergeOf(|keys|)
  }

  lemma MergedAll(rows: seq<Row>, keys: seq<int>, m: nat, points: seq<Point>, i: nat)
    requires SecondsAre(rows, keys) && Grouped(keys, m, points) && m == MergeOf(|keys|)
    requires i == |points| * m && |keys| <= i < |keys| + m
    ensures EvenlyMerged(rows, points)
  {
    hide SecondsAre, Grouped;
    assert (|points| - 1) * m == i - m;
  }

  lemma NextGroup(p: nat, m: nat)
    ensures (p + 1) * m == p * m + m
  {
  }

  lemma GroupAppended(keys: seq<int>, m: nat, points: seq<Point>, pt: Point)
    requires Grouped(keys, m, points) && Groups(keys, m, |points|, pt)
    ensures Grouped(keys, m, points + [pt])
  {
    hide Groups;
  }

  /** rowsToRoundSeries: at most 1500 points in time order, each standing for
      the same number of rounds; each tallies the rows from its second up to
      the next point's, so together they tally every row exactly once. */
  method RowsToRoundSeries(t: Task, rows: seq<Row>) returns (out: seq<Point>)
    ensures |out| <= 1500
    ensures exists end :: PointsOk(t, rows, out, end)
    ensures SumPoints(out) == TallyAll(t, rows)
    ensures EvenlyMerged(rows, out)
  {
    hide RoundsOf, TallyIn, PointsOk, Sort, SecondsAre, Grouped, Groups, EvenlyMerged, Increasing, SumPoints, TallyAll;
    var unsorted, agg := CollectRounds(t, rows);
    var keys := Sort(unsorted);
    SortIncreasing(unsorted) by { RoundsDistinct(t, rows, unsorted, agg); }
    SortedRounds(t, rows, unsorted, agg);
    KeysAreSeconds(t, rows, keys, agg);
    var merge := 1;
    if |keys| > MAX_POINTS {
      merge := (|keys| + MAX_POINTS - 1) / MAX_POINTS;
    }
    out := [];
    var i := 0;
    NoGroups(keys, merge);
    if |keys| == 0 {
      NoRounds(t, rows, agg);
      MergedAll(rows, keys, merge, out, 0);
      NothingTallied(t);
      return;
    }
    EveryRow(t, rows, keys, agg);
    NoPoints(t, rows, keys[0]);
    ghost var end := keys[0];
    while i < |keys|
      invariant i == |out| * merge && |out| <= MAX_POINTS && i < |keys| + merge
      invariant end == UpTo(keys, if i < |keys| then i else |keys|)
      invariant PointsOk(t, rows, out, end) && (out == [] <==> i == 0) && (out != [] ==> out[0].at == keys[0])
      invariant Grouped(keys, merge, out)
      decreases |keys| - i
    {
      var e := i + merge;
      if e > |keys| {
        e := |keys|;
      }
      FewPoints(|out|, merge, |keys|);
      var acc := MergeRounds(t, rows, keys, agg, i, e);
      end := UpTo(keys, e);
      PointAppended(t, rows, out, Point(keys[i], acc, e - i), end);
      assert Groups(keys, merge, |out|, Point(keys[i], acc, e - i)) by { GroupHolds(keys, merge, |out|, i, e, acc); }
      GroupAppended(keys, merge, out, Point(keys[i], acc, e - i));
      NextGroup(|out|, merge);
      out := out + [Point(keys[i], acc, e - i)];
      i := i + merge;
    }
    PointsAddUp(t, rows, out, end);
    TallyEvery(t, rows, keys[0], end);
    MergedAll(rows, keys, merge, out, i);
  }

  lemma GroupHolds(keys: seq<int>, m: nat, p: nat, i: nat, e: nat, acc: Tally)
    requires i == p * m && i < |keys| && e == if i + m > |keys| then |keys| else i + m
    ensures i < e && Groups(keys, m, p, Point(keys[i], acc, e - i))
    requires m >= 1
  {
  }

  lemma NothingTallied(t: Task)
    ensures SumPoints([]) == TallyAll(t, [])
  {
  }

  lemma NoGroups(keys: seq<int>, m: nat)
    ensures Grouped(keys, m, [])
  {
  }

  lemma KeysAreSeconds(t: Task, rows: seq<Row>, keys: seq<int>, agg: map<int, Tally>)
    requires RoundsOf(t, rows, keys, agg) && Increasing(keys)
    ensures SecondsAre(rows, keys)
  {
    forall k
      ensures k in keys <==> exists i | 0 <= i < |rows| :: RoundSecond(rows[i].at) == k
    {
      if k in keys && forall i | 0 <= i < |rows| :: RoundSecond(rows[i].at) != k {
        TallyNone(t, rows, k, k + 1);
        assert false;
      }
    }
  }

  lemma RoundsDistinct(t: Task, rows: seq<Row>, keys: seq<int>, agg: map<int, Tally>)
    requires RoundsOf(t, rows, keys, agg)
    ensures Distinct(keys)
  {
  }

  lemma SortedRounds(t: Task, rows: seq<Row>, keys: seq<int>, agg: map<int, Tally>)
    requires RoundsOf(t, rows, keys, agg)
    ensures RoundsOf(t, rows, Sort(keys), agg)
  {
    SortIncreasing(keys);
  }

  lemma NoPoints(t: Task, rows: seq<Row>, end: int)
    ensures PointsOk(t, rows, [], end)
  {
  }

  lemma NoRounds(t: Task, rows: seq<Row>, agg: map<int, Tally>)
    requires RoundsOf(t, rows, [], agg)
    ensures rows == [] && PointsOk(t, rows, [], 0)
  {
    hide RoundsOf;
    if rows != [] {
      RowHasRound(t, rows, [], agg, 0);
    }
  }

  lemma RowHasRound(t: Task, rows: seq<Row>, keys: seq<int>, agg: map<int, Tally>, i: nat)
    requires RoundsOf(t, rows, keys, agg) && i < |rows|
    ensures RoundSecond(rows[i].at) in keys
  {
    var k := RoundSecond(rows[i].at);
    assert k in agg;
  }

  lemma EveryRow(t: Task, rows: seq<Row>, keys: seq<int>, agg: map<int, Tally>)
    requires RoundsOf(t, rows, keys, agg) && Increasing(keys) && keys != []
    ensures rows != []
    ensures forall i | 0 <= i < |rows| :: keys[0] <= RoundSecond(rows[i].at) < keys[|keys| - 1] + 1
  {
    hide RoundsOf, RoundSecond, TallyIn;
    RoundAt(t, rows, keys, agg, 0);
    if rows == [] {
      TallyNone(t, rows, keys[0], keys[0] + 1);
    }
    forall i | 0 <= i < |rows|
      ensures keys[0] <= RoundSecond(rows[i].at) <= keys[|keys| - 1]
    {
      RowHasRound(t, rows, keys, agg, i);
      var m :| 0 <= m < |keys| && keys[m] == RoundSecond(rows[i].at);
    }
  }
}
