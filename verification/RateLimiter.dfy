/** util.go, the fixed-window rate limiter and its garbage collector. */
module RateLimiter {
  import opened Arith
  import opened Calendar

  const WINDOW: int := 60 * SECOND
  const STALE: int := 2 * WINDOW

  datatype Bucket = Bucket(count: int, start: int)

  /** One answer of the limiter; start names the bucket window it was counted in. */
  datatype Decision = Decision(key: string, now: int, start: int, ok: bool)

  datatype Event = Call(key: string, now: int) | Sweep(now: int)

  /** allow, for a positive limit. */
  function Counted(m: map<string, Bucket>, key: string, now: int): Bucket {
    if key !in m || now - m[key].start >= WINDOW then Bucket(1, now)
    else Bucket(m[key].count + 1, m[key].start)
  }

  function Decide(m: map<string, Bucket>, max: int, key: string, now: int): Decision {
    var b := Counted(m, key, now);
    Decision(key, now, b.start, max <= 0 || b.count <= max)
  }

  function After(m: map<string, Bucket>, max: int, e: Event): map<string, Bucket> {
    match e
    case Call(key, now) => if max <= 0 then m else m[key := Counted(m, key, now)]
    case Sweep(now) => map k | k in m && now - m[k].start <= STALE :: m[k]
  }

  function Run(m: map<string, Bucket>, max: int, es: seq<Event>): map<string, Bucket> {
    if es == [] then m else After(Run(m, max, es[..|es| - 1]), max, es[|es| - 1])
  }

  /** The answers given during a run that starts with no buckets. */
  function Decisions(max: int, es: seq<Event>): seq<Decision> {
    if es == [] then []
    else
      var head, last := es[..|es| - 1], es[|es| - 1];
      Decisions(max, head) + if last.Call? then [Decide(Run(map[], max, head), max, last.key, last.now)] else []
  }

  /** The clock never goes back. */
  ghost predicate Ordered(es: seq<Event>) {
    forall i, j | 0 <= i < j < |es| :: es[i].now <= es[j].now
  }

  function Calls(es: seq<Event>): seq<Event> {
    if es == [] then []
    else Calls(es[..|es| - 1]) + if es[|es| - 1].Call? then [es[|es| - 1]] else []
  }

  // ---------- the garbage collector ----------

  /** swept is full without some entries that can no longer matter. */
  ghost predicate OnlyStaleMissing(swept: map<string, Bucket>, full: map<string, Bucket>, clock: int) {
    && (forall k | k in swept :: k in full && swept[k] == full[k])
    && (forall k | k in full && k !in swept :: clock - full[k].start > STALE)
  }

  lemma {:induction false} CallsAreCalls(es: seq<Event>)
    ensures forall i | 0 <= i < |Calls(es)| :: Calls(es)[i].Call? && Calls(es)[i] in es
  {
    if es != [] {
      CallsAreCalls(es[..|es| - 1]);
    }
  }

  lemma CallAgrees(swept: map<string, Bucket>, full: map<string, Bucket>, max: int, key: string, now: int, clock: int)
    requires OnlyStaleMissing(swept, full, now) && now <= clock
    ensures Decide(swept, max, key, now) == Decide(full, max, key, now)
    ensures OnlyStaleMissing(After(swept, max, Call(key, now)), After(full, max, Call(key, now)), clock)
  {
  }

  lemma SweepAgrees(swept: map<string, Bucket>, full: map<string, Bucket>, max: int, now: int, clock: int)
    requires OnlyStaleMissing(swept, full, now) && now <= clock
    ensures OnlyStaleMissing(After(swept, max, Sweep(now)), full, clock)
  {
  }

  /** The same calls without the sweeps get the same answers. */
  lemma {:induction false} SweepingIsUnobservable(max: int, es: seq<Event>, clock: int)
    requires Ordered(es) && forall i | 0 <= i < |es| :: es[i].now <= clock
    ensures Decisions(max, es) == Decisions(max, Calls(es))
    ensures OnlyStaleMissing(Run(map[], max, es), Run(map[], max, Calls(es)), clock)
    decreases |es|
  {
    hide OnlyStaleMissing, After, Decide;
    if es == [] {
      assert OnlyStaleMissing(map[], map[], clock) by { NothingMissing(clock); }
    } else {
      var head, last := es[..|es| - 1], es[|es| - 1];
      SweepingIsUnobservable(max, head, last.now);
      var calls := Calls(head);
      var swept, full := Run(map[], max, head), Run(map[], max, calls);
      if last.Call? {
        CallAgrees(swept, full, max, last.key, last.now, clock);
        assert (calls + [last])[..|calls|] == calls;
      } else {
        SweepAgrees(swept, full, max, last.now, clock);
        assert Calls(es) == calls && Decisions(max, es) == Decisions(max, head);
      }
    }
  }

  lemma NothingMissing(clock: int)
    ensures OnlyStaleMissing(map[], map[], clock)
  {
  }

  // ---------- what a window grants ----------

  /** Answers given to a key in the window that began at start. */
  function CallsIn(ds: seq<Decision>, key: string, start: int): nat {
    if ds == [] then 0
    else
      var d := ds[|ds| - 1];
      CallsIn(ds[..|ds| - 1], key, start) + if d.key == key && d.start == start then 1 else 0
  }

  function GrantsIn(ds: seq<Decision>, key: string, start: int): nat {
    if ds == [] then 0
    else
      var d := ds[|ds| - 1];
      GrantsIn(ds[..|ds| - 1], key, start) + if d.key == key && d.start == start && d.ok then 1 else 0
  }

  /** Calls let through for a key at times in the 60 seconds from t on. */
  function GrantsDuring(ds: seq<Decision>, key: string, t: int): nat {
    if ds == [] then 0
    else
      var d := ds[|ds| - 1];
      GrantsDuring(ds[..|ds| - 1], key, t) + if d.key == key && t <= d.now < t + 60 * SECOND && d.ok then 1 else 0
  }

  /** The bucket holds the number of calls in its window, windows of a key are
      at least a minute apart, and every answer falls into its own window. */
  ghost predicate BucketsOk(m: map<string, Bucket>, ds: seq<Decision>) {
    && (forall k | k in m :: m[k].count == CallsIn(ds, k, m[k].start))
    && (forall i | 0 <= i < |ds| ::
          && ds[i].key in m && ds[i].start <= ds[i].now < ds[i].start + WINDOW
          && (ds[i].start == m[ds[i].key].start || ds[i].start + WINDOW <= m[ds[i].key].start))
    && (forall i, j | 0 <= i < j < |ds| && ds[i].key == ds[j].key ::
          ds[i].start == ds[j].start || ds[i].start + WINDOW <= ds[j].start)
  }

  predicate Opens(d: Decision, key: string, start: int) {
    d.key == key && d.now == d.start == start && d.ok
  }

  predicate HasOpener(ds: seq<Decision>, key: string, start: int) {
    exists f | 0 <= f < |ds| :: Opens(ds[f], key, start)
  }

  /** Every window was opened by a call that was let through. */
  ghost predicate Opened(m: map<string, Bucket>, ds: seq<Decision>) {
    && (forall k | k in m :: m[k].count >= 1 && HasOpener(ds, k, m[k].start))
    && (forall i | 0 <= i < |ds| :: HasOpener(ds, ds[i].key, ds[i].start))
  }

  lemma OpenerStays(ds: seq<Decision>, d: Decision, key: string, start: int)
    ensures HasOpener(ds, key, start) ==> HasOpener(ds + [d], key, start)
    ensures Opens(d, key, start) ==> HasOpener(ds + [d], key, start)
  {
    var ds' := ds + [d];
    assert ds'[|ds|] == d;
    if HasOpener(ds, key, start) {
      var f :| 0 <= f < |ds| && Opens(ds[f], key, start);
      assert Opens(ds'[f], key, start);
    }
  }

  lemma CallKeepsOpened(m: map<string, Bucket>, ds: seq<Decision>, max: int, key: string, now: int)
    requires Opened(m, ds) && max > 0
    ensures Opened(After(m, max, Call(key, now)), ds + [Decide(m, max, key, now)])
  {
    hide HasOpener;
    var d := Decide(m, max, key, now);
    var m', ds' := After(m, max, Call(key, now)), ds + [d];
    forall k | k in m'
      ensures m'[k].count >= 1 && HasOpener(ds', k, m'[k].start)
    {
      OpenerStays(ds, d, k, m'[k].start);
    }
    forall i | 0 <= i < |ds'|
      ensures HasOpener(ds', ds'[i].key, ds'[i].start)
    {
      OpenerStays(ds, d, ds'[i].key, ds'[i].start);
    }
  }

  lemma {:induction false} NoCallsYet(ds: seq<Decision>, key: string, start: int)
    requires forall i | 0 <= i < |ds| :: !(ds[i].key == key && ds[i].start == start)
    ensures CallsIn(ds, key, start) == 0
  {
    if ds != [] {
      NoCallsYet(ds[..|ds| - 1], key, start);
    }
  }

  lemma FreshWindow(m: map<string, Bucket>, ds: seq<Decision>, key: string, now: int)
    requires BucketsOk(m, ds) && (key !in m || now - m[key].start >= WINDOW)
    ensures CallsIn(ds, key, now) == 0
  {
    NoCallsYet(ds, key, now);
  }

  lemma CallKeepsBuckets(m: map<string, Bucket>, ds: seq<Decision>, max: int, key: string, now: int)
    requires BucketsOk(m, ds) && max > 0 && forall k | k in m :: m[k].start <= now
    ensures BucketsOk(After(m, max, Call(key, now)), ds + [Decide(m, max, key, now)])
  {
    var d := Decide(m, max, key, now);
    assert (ds + [d])[..|ds|] == ds && (ds + [d])[|ds|] == d;
    if key !in m || now - m[key].start >= WINDOW {
      FreshWindow(m, ds, key, now);
    }
  }

  lemma StartsBefore(m: map<string, Bucket>, max: int, key: string, now: int)
    requires forall k | k in m :: m[k].start <= now
    ensures forall k | k in After(m, max, Call(key, now)) :: After(m, max, Call(key, now))[k].start <= now
  {
  }

  lemma NoBuckets()
    ensures BucketsOk(map[], []) && Opened(map[], [])
  {
  }

  lemma {:induction false} RunKeepsBuckets(max: int, es: seq<Event>, clock: int)
    requires max > 0 && Ordered(es) && forall i | 0 <= i < |es| :: es[i].Call? && es[i].now <= clock
    ensures BucketsOk(Run(map[], max, es), Decisions(max, es))
    ensures Opened(Run(map[], max, es), Decisions(max, es))
    ensures forall k | k in Run(map[], max, es) :: Run(map[], max, es)[k].start <= clock
    decreases |es|
  {
    hide BucketsOk, Opened, Decide, Counted;
    if es == [] {
      NoBuckets();
    } else {
      var head, last := es[..|es| - 1], es[|es| - 1];
      RunKeepsBuckets(max, head, last.now);
      CallKeepsOpened(Run(map[], max, head), Decisions(max, head), max, last.key, last.now);
      CallKeepsBuckets(Run(map[], max, head), Decisions(max, head), max, last.key, last.now);
      StartsBefore(Run(map[], max, head), max, last.key, last.now);
    }
  }

  /** One more answer keeps the count of a window's grants. */
  lemma GrantsStep(m: map<string, Bucket>, ds: seq<Decision>, max: int, last: Event, key: string, start: int)
    requires max > 0 && last.Call? && BucketsOk(m, ds)
    requires GrantsIn(ds, key, start) == Min(CallsIn(ds, key, start), max)
    ensures var ds' := ds + [Decide(m, max, last.key, last.now)];
            GrantsIn(ds', key, start) == Min(CallsIn(ds', key, start), max)
  {
    var d := Decide(m, max, last.key, last.now);
    assert (ds + [d])[..|ds|] == ds;
    if last.key !in m || last.now - m[last.key].start >= WINDOW {
      FreshWindow(m, ds, last.key, last.now);
    } else {
      assert m[last.key].count == CallsIn(ds, last.key, d.start);
    }
  }

  lemma {:induction false} GrantsOfCalls(max: int, es: seq<Event>, clock: int, key: string, start: int)
    requires max > 0 && Ordered(es) && forall i | 0 <= i < |es| :: es[i].Call? && es[i].now <= clock
    ensures GrantsIn(Decisions(max, es), key, start) == Min(CallsIn(Decisions(max, es), key, start), max)
    decreases |es|
  {
    hide BucketsOk, Opened, Decide, Run;
    if es != [] {
      var head, last := es[..|es| - 1], es[|es| - 1];
      GrantsOfCalls(max, head, clock, key, start);
      RunKeepsBuckets(max, head, last.now);
      GrantsStep(Run(map[], max, head), Decisions(max, head), max, last, key, start);
    }
  }

  lemma {:induction false} CallsOrdered(es: seq<Event>)
    requires Ordered(es)
    ensures Ordered(Calls(es))
  {
    CallsAreCalls(es);
    if es != [] {
      CallsOrdered(es[..|es| - 1]);
      CallsAreCalls(es[..|es| - 1]);
    }
  }

  /** A window grants exactly the first max of its calls, sweeps or not. */
  lemma WindowGrants(max: int, es: seq<Event>, key: string, start: int)
    requires max > 0 && Ordered(es)
    ensures GrantsIn(Decisions(max, es), key, start) == Min(CallsIn(Decisions(max, es), key, start), max)
  {
    var clock := if es == [] then 0 else es[|es| - 1].now;
    SweepingIsUnobservable(max, es, clock);
    CallsAreCalls(es);
    CallsOrdered(es);
    GrantsOfCalls(max, Calls(es), clock, key, start);
  }

  // ---------- any minute ----------

  ghost predicate During(d: Decision, key: string, t: int) {
    d.key == key && t <= d.now < t + WINDOW
  }

  /** The answers of a minute come from one window, or from two the earlier of
      which was opened before the minute began. */
  lemma TwoWindows(ds: seq<Decision>, m: map<string, Bucket>, key: string, t: int) returns (a: int, b: int, f: int)
    requires BucketsOk(m, ds) && Opened(m, ds)
    ensures f < 0 ==> forall i | 0 <= i < |ds| && During(ds[i], key, t) :: ds[i].start == a
    ensures f >= 0 ==>
              && f < |ds| && Opens(ds[f], key, a) && !During(ds[f], key, t) && a != b
              && forall i | 0 <= i < |ds| && During(ds[i], key, t) :: ds[i].start == a || ds[i].start == b
  {
    hide BucketsOk, Opened;
    a, b, f := 0, 0, -1;
    if i :| 0 <= i < |ds| && During(ds[i], key, t) {
      a := ds[i].start;
      if j :| 0 <= j < |ds| && During(ds[j], key, t) && ds[j].start != a {
        b := ds[j].start;
        Apart(ds, m, i, j);
        forall k | 0 <= k < |ds| && During(ds[k], key, t)
          ensures ds[k].start == a || ds[k].start == b
        {
          Apart(ds, m, i, k);
          Apart(ds, m, j, k);
        }
        if a > b {
          a, b := b, a;
        }
        HasOpenerAt(ds, m, i);
        HasOpenerAt(ds, m, j);
        f :| 0 <= f < |ds| && Opens(ds[f], key, a);
      }
    }
  }

  lemma Apart(ds: seq<Decision>, m: map<string, Bucket>, i: nat, j: nat)
    requires BucketsOk(m, ds) && i < |ds| && j < |ds| && ds[i].key == ds[j].key
    ensures ds[i].start <= ds[i].now < ds[i].start + WINDOW && ds[j].start <= ds[j].now < ds[j].start + WINDOW
    ensures ds[i].start == ds[j].start || ds[i].start + WINDOW <= ds[j].start || ds[j].start + WINDOW <= ds[i].start
  {
  }

  lemma HasOpenerAt(ds: seq<Decision>, m: map<string, Bucket>, i: nat)
    requires Opened(m, ds) && i < |ds|
    ensures HasOpener(ds, ds[i].key, ds[i].start)
  {
  }

  lemma {:induction false} DuringOne(ds: seq<Decision>, key: string, t: int, a: int)
    requires forall i | 0 <= i < |ds| && During(ds[i], key, t) :: ds[i].start == a
    ensures GrantsDuring(ds, key, t) <= GrantsIn(ds, key, a)
  {
    if ds != [] {
      var d := ds[|ds| - 1];
      assert During(d, key, t) ==> d.start == a;
      DuringOne(ds[..|ds| - 1], key, t, a);
    }
  }

  lemma {:induction false} DuringTwo(ds: seq<Decision>, key: string, t: int, a: int, b: int, f: nat)
    requires a != b && forall i | 0 <= i < |ds| && During(ds[i], key, t) :: ds[i].start == a || ds[i].start == b
    requires f < |ds| ==> Opens(ds[f], key, a) && !During(ds[f], key, t)
    ensures GrantsDuring(ds, key, t) + (if f < |ds| then 1 else 0) <= GrantsIn(ds, key, a) + GrantsIn(ds, key, b)
  {
    if ds != [] {
      var d := ds[|ds| - 1];
      assert During(d, key, t) ==> d.start == a || d.start == b;
      DuringTwo(ds[..|ds| - 1], key, t, a, b, f);
    }
  }

  /** Any 60 seconds let less than twice the limit through: the call that
      opened the earlier of two windows came before the minute began. */
  lemma MinuteGrants(max: int, es: seq<Event>, key: string, t: int)
    requires max > 0 && Ordered(es)
    ensures GrantsDuring(Decisions(max, es), key, t) <= 2 * max - 1
  {
    hide Decisions, Run, Calls, BucketsOk, Opened, GrantsIn, GrantsDuring;
    var clock := if es == [] then 0 else es[|es| - 1].now;
    SweepingIsUnobservable(max, es, clock);
    CallsAreCalls(es);
    CallsOrdered(es);
    RunKeepsBuckets(max, Calls(es), clock);
    var ds := Decisions(max, es);
    var a, b, f := TwoWindows(ds, Run(map[], max, Calls(es)), key, t);
    WindowGrants(max, es, key, a);
    WindowGrants(max, es, key, b);
    if f < 0 {
      DuringOne(ds, key, t, a);
    } else {
      DuringTwo(ds, key, t, a, b, f);
    }
  }

  lemma {:induction false} NoLimit(max: int, es: seq<Event>)
    requires max <= 0
    ensures forall i | 0 <= i < |Decisions(max, es)| :: Decisions(max, es)[i].ok
    ensures Run(map[], max, es) == map[]
  {
    if es != [] {
      NoLimit(max, es[..|es| - 1]);
    }
  }

  /** es and then n calls at the same instant. */
  function Burst(es: seq<Event>, k: string, now: int, n: nat): seq<Event> {
    if n == 0 then es else Burst(es, k, now, n - 1) + [Call(k, now)]
  }

  /** One call at 0, max - 1 calls after 59 seconds, max calls after 60. */
  function TwoBursts(k: string, max: nat): seq<Event>
    requires max > 0
  {
    Burst(Burst([Call(k, 0)], k, 59 * SECOND, max - 1), k, 60 * SECOND, max)
  }

  lemma {:induction false} BurstOrdered(es: seq<Event>, k: string, now: int, n: nat)
    requires Ordered(es) && forall i | 0 <= i < |es| :: es[i].now <= now
    ensures Ordered(Burst(es, k, now, n))
    ensures forall i | 0 <= i < |Burst(es, k, now, n)| :: Burst(es, k, now, n)[i].now <= now
  {
    if n > 0 {
      BurstOrdered(es, k, now, n - 1);
    }
  }

  lemma {:induction false} BurstFromFirst(es: seq<Event>, k: string, now: int, n: nat)
    ensures Burst(es, k, now, n + 1) == Burst(es + [Call(k, now)], k, now, n)
  {
    if n > 0 {
      BurstFromFirst(es, k, now, n - 1);
    }
  }

  /** One call after head, and whether it counts in the minute from t on. */
  lemma CallAppended(max: int, head: seq<Event>, k: string, now: int, t: int)
    requires max > 0
    ensures var m, es := Run(map[], max, head), head + [Call(k, now)];
            && Run(map[], max, es) == m[k := Counted(m, k, now)]
            && GrantsDuring(Decisions(max, es), k, t) == GrantsDuring(Decisions(max, head), k, t)
               + if t <= now < t + WINDOW && Counted(m, k, now).count <= max then 1 else 0
  {
    var es := head + [Call(k, now)];
    assert es[..|head|] == head;
    var ds, d := Decisions(max, head), Decide(Run(map[], max, head), max, k, now);
    assert (ds + [d])[..|ds|] == ds;
  }

  predicate Holds(m: map<string, Bucket>, k: string, b: Bucket) {
    k in m && m[k] == b
  }

  /** While the limit is not reached every call of a burst is let through. */
  lemma {:induction false} BurstGrants(max: int, head: seq<Event>, k: string, now: int, n: nat, b: Bucket, t: int)
    requires Holds(Run(map[], max, head), k, b)
    requires now - b.start < WINDOW && b.count + n <= max && max > 0 && t <= now < t + WINDOW
    ensures Holds(Run(map[], max, Burst(head, k, now, n)), k, Bucket(b.count + n, b.start))
    ensures GrantsDuring(Decisions(max, Burst(head, k, now, n)), k, t) == GrantsDuring(Decisions(max, head), k, t) + n
    decreases n
  {
    hide Run, Decisions, GrantsDuring;
    if n > 0 {
      BurstGrants(max, head, k, now, n - 1, b, t);
      CallAppended(max, Burst(head, k, now, n - 1), k, now, t);
    }
  }

  /** The bound of MinuteGrants is reached for every limit: within two seconds
      twice the limit minus one calls get through. */
  lemma MinuteBoundIsReached(k: string, max: nat)
    requires max > 0
    ensures Ordered(TwoBursts(k, max))
    ensures GrantsDuring(Decisions(max, TwoBursts(k, max)), k, 59 * SECOND) == 2 * max - 1
  {
    hide Decisions, Run, GrantsDuring, Burst;
    var t, u := 59 * SECOND, 60 * SECOND;
    var first := [Call(k, 0)];
    assert [] + first == first;
    var es := Burst(first, k, t, max - 1);
    BurstOrdered(first, k, t, max - 1);
    BurstOrdered(es, k, u, max);
    NoEvents(max, k, t);
    CallAppended(max, [], k, 0, t);
    BurstGrants(max, first, k, t, max - 1, Bucket(1, 0), t);
    CallAppended(max, es, k, u, t);
    BurstGrants(max, es + [Call(k, u)], k, u, max - 1, Bucket(1, u), t);
    BurstFromFirst(es, k, u, max - 1);
  }

  lemma NoEvents(max: int, k: string, t: int)
    ensures Run(map[], max, []) == map[] && GrantsDuring(Decisions(max, []), k, t) == 0
  {
  }

  // ---------- the limiter itself ----------

  /** The answer to the latest call, by the calls its window has had so far. */
  lemma AnswerIsCount(max: int, head: seq<Event>, key: string, now: int)
    requires max > 0 && Ordered(head + [Call(key, now)])
    ensures var ds := Decisions(max, head + [Call(key, now)]);
            |ds| > 0
            && var d := ds[|ds| - 1];
            d == Decide(Run(map[], max, head), max, key, now) && (d.ok <==> CallsIn(ds, key, d.start) <= max)
  {
    hide Ordered;
    var es, calls := head + [Call(key, now)], Calls(head);
    assert es[..|head|] == head;
    LastClock(es);
    SweepingIsUnobservable(max, es, now);
    CallsOrdered(es);
    CallsAreCalls(es);
    assert Calls(es) == calls + [Call(key, now)] && Calls(es)[..|calls|] == calls;
    RunKeepsBuckets(max, Calls(es), now);
  }

  lemma LastClock(es: seq<Event>)
    requires Ordered(es) && es != []
    ensures forall i | 0 <= i < |es| :: es[i].now <= es[|es| - 1].now
  {
  }

  class Limiter {
    const max: int
    var buckets: map<string, Bucket>
    ghost var history: seq<Event>

    ghost predicate Valid()
      reads this
    {
      buckets == Run(map[], max, history)
    }

    constructor (max: int)
      ensures this.max == max && history == [] && Valid()
    {
      this.max := max;
      buckets, history := map[], [];
    }

    /** A call is let through exactly when it is among the first max of its
        window. */
    method Allow(key: string, now: int) returns (ok: bool)
      requires Valid()
      modifies this
      ensures Valid() && history == old(history) + [Call(key, now)]
      ensures max <= 0 ==> ok
      ensures max > 0 && Ordered(history) ==>
                var ds := Decisions(max, history);
                ds != [] && var d := ds[|ds| - 1];
                d.key == key && d.now == now && d.ok == ok && (ok <==> CallsIn(ds, key, d.start) <= max)
    {
      ghost var before := buckets;
      history := history + [Call(key, now)];
      assert history[..|history| - 1] == old(history);
      if max > 0 && Ordered(history) {
        AnswerIsCount(max, old(history), key, now);
      }
      hide Decisions, CallsIn, Ordered;
      if max <= 0 {
        return true;
      }
      if key !in buckets || now - buckets[key].start >= WINDOW {
        buckets := buckets[key := Bucket(1, now)];
        return true;
      }
      buckets := buckets[key := buckets[key].(count := buckets[key].count + 1)];
      return buckets[key].count <= max;
    }

    method Cleanup(now: int)
      requires Valid()
      modifies this
      ensures Valid() && history == old(history) + [Sweep(now)]
      ensures buckets == After(old(buckets), max, Sweep(now))
      ensures buckets == map k | k in old(buckets) && now - old(buckets)[k].start <= 120 * SECOND :: old(buckets)[k]
    {
      var rest := buckets.Keys;
      while rest != {}
        invariant rest <= old(buckets).Keys && history == old(history)
        invariant forall k | k in buckets :: k in old(buckets) && buckets[k] == old(buckets)[k]
        invariant forall k | k in old(buckets) ::
                    k in buckets <==> k in rest || now - old(buckets)[k].start <= STALE
      {
        var k :| k in rest;
        if now - buckets[k].start > STALE {
          buckets := buckets - {k};
        }
        rest := rest - {k};
      }
      history := history + [Sweep(now)];
      assert history[..|history| - 1] == old(history);
    }
  }
}
