/** donate.go, maintenanceCredit: maintenance downtime is credited as online
    time, measured by looking at every fifth minute of the day. */
module Credit {
  import opened Calendar
  import opened History
  import opened Maintenance
  import opened Measure
  import opened Presence
  import opened Uptime
  import opened UptimeProofs

  const STEP: int := 5 * MINUTE
  const STEP_SECONDS: int := 300

  /** Instants at which p holds and the sampling looks. */
  ghost function Samples(p: int -> bool, start: int, from: int, to: int): nat {
    Count(t => p(t) && (t - start) % STEP == 0, from, to)
  }

  /** Maximal stretches of p in [a, b), counted by their first instants. */
  ghost function Segments(p: int -> bool, a: int, b: int): nat
    decreases b - a
  {
    if a >= b then 0
    else Segments(p, a, b - 1) + if p(b - 1) && (b - 1 == a || !p(b - 2)) then 1 else 0
  }

  /** Time from t to the next look, if t itself is not one. */
  function ToNext(start: int, t: int): (d: int)
    ensures 0 <= d < STEP
  {
    (start - t) % STEP
  }

  lemma ToNextStep(start: int, t: int)
    ensures ToNext(start, t + 1) == ToNext(start, t) - 1 + if (t - start) % STEP == 0 then STEP else 0
  {
    var k, r := (t - start) / STEP, (t - start) % STEP;
    assert start - t == -k * STEP - r;
  }

  /** Inside a stretch the error changes exactly as the time to the next look
      does, so each stretch contributes less than one step either way. */
  lemma {:induction false} ErrorSoFar(p: int -> bool, a: int, b: int)
    requires a <= b
    ensures var d, n := STEP * Samples(p, a, a, b) - Count(p, a, b), Segments(p, a, b);
            if a < b && p(b - 1) then
              n >= 1 && -(STEP - 1) * n <= d - ToNext(a, b) <= (STEP - 1) * (n - 1)
            else
              -(STEP - 1) * n <= d <= (STEP - 1) * n
    decreases b - a
  {
    hide ToNext;
    if a < b {
      ErrorSoFar(p, a, b - 1);
      ToNextStep(a, b - 1);
    }
  }

  lemma {:induction false} NoSegments(p: int -> bool, a: int, b: int)
    requires a <= b
    ensures Segments(p, a, b) == 0 <==> forall t | a <= t < b :: !p(t)
    decreases b - a
  {
    if a < b {
      NoSegments(p, a, b - 1);
    }
  }

  // ---------- the sampling loop ----------

  /** What is credited: the node is under maintenance and rebuilt as offline. */
  ghost predicate Creditable(rows: seq<Window>, z: Zone, n: NodeId, iv: seq<Interval>, t: int) {
    InMaintenance(rows, z, n, t) && Covered(iv, t)
  }

  method InSome(iv: seq<Interval>, t: int) returns (hit: bool)
    ensures hit == Covered(iv, t)
  {
    hit := false;
    for i := 0 to |iv|
      invariant forall k | 0 <= k < i :: !In(iv[k], t)
    {
      if iv[i].start <= t < iv[i].end {
        assert In(iv[i], t);
        return true;
      }
    }
  }

  /** One look at t stands for all of [t, t + STEP). */
  lemma OneLook(p: int -> bool, start: int, t: int, to: int)
    requires start <= t < to && (t - start) % STEP == 0
    ensures var next := if t + STEP < to then t + STEP else to;
            Samples(p, start, start, next) == Samples(p, start, start, t) + if p(t) then 1 else 0
  {
    var next := if t + STEP < to then t + STEP else to;
    var q := u => p(u) && (u - start) % STEP == 0;
    CountSplit(q, start, t, next);
    CountSplit(q, t, t + 1, next);
    forall u | t + 1 <= u < next
      ensures !q(u)
    {
      BetweenLooks(u - start, t - start);
    }
    CountConst(q, t + 1, next, false);
    CountConst(q, t, t + 1, p(t));
  }

  lemma BetweenLooks(u: int, t: int)
    requires t % STEP == 0 && t < u < t + STEP
    ensures u % STEP != 0
  {
  }

  method MaintenanceCredit(rows: seq<Window>, z: Zone, n: NodeId, log: seq<NodeEvent>, start: int, end: int)
    returns (credit: int)
    requires start <= end
    ensures credit == STEP_SECONDS
                      * Samples(t => Creditable(rows, z, n, IntervalsOf(log, n, start, end), t), start, start, end)
  {
    hide Samples, Rebuild, Covers, ByTime, Inside;
    var ws := ScopeOf(rows, n);
    ghost var iv0 := IntervalsOf(log, n, start, end);
    ghost var p := t => Creditable(rows, z, n, iv0, t);
    if |ws| == 0 {
      NeverCreditable(rows, z, n, iv0, start, end);
      return 0;
    }
    var iv, exists_ := UptimeForNode(start, end, Prior(log, n, start), ByTime(Inside(log, n, start, end)));
    credit := 0;
    var t := start;
    SamplesNone(p, start);
    while t < end
      invariant start <= t && (t - start) % STEP == 0
      invariant credit == STEP_SECONDS * Samples(p, start, start, if t < end then t else end)
      decreases end - t
    {
      OneLook(p, start, t, end);
      ScopeIsMaintenance(rows, z, n, t);
      var inMaint := FirstCovering(ws, z, t);
      if inMaint {
        var down := InSome(iv, t);
        if down {
          credit := credit + STEP_SECONDS;
        }
      }
      t := t + STEP;
    }
  }

  lemma SamplesNone(p: int -> bool, start: int)
    ensures Samples(p, start, start, start) == 0
  {
  }

  lemma NeverCreditable(rows: seq<Window>, z: Zone, n: NodeId, iv: seq<Interval>, start: int, end: int)
    requires ScopeOf(rows, n) == [] && start <= end
    ensures Samples(t => Creditable(rows, z, n, iv, t), start, start, end) == 0
  {
    hide Covers;
    var p := t => Creditable(rows, z, n, iv, t);
    forall t | start <= t < end
      ensures !(p(t) && (t - start) % STEP == 0)
    {
      ScopeIsMaintenance(rows, z, n, t);
    }
    CountConst(t => p(t) && (t - start) % STEP == 0, start, end, false);
  }

  /** The credit of a day, in nanoseconds, against the exact length of the
      downtime under maintenance: off by less than five minutes per maximal
      stretch of such downtime, and nothing when there is none. */
  lemma SampledCreditBound(p: int -> bool, start: int, end: int)
    requires start <= end
    ensures var credit, n := STEP_SECONDS * Samples(p, start, start, end), Segments(p, start, end);
            && -(300 * SECOND - 1) * n <= credit * SECOND - Count(p, start, end) <= (300 * SECOND - 1) * n
            && ((forall t | start <= t < end :: !p(t)) ==> credit == 0)
  {
    ErrorSoFar(p, start, end);
    NoSegments(p, start, end);
    if forall t | start <= t < end :: !p(t) {
      CountConst(p, start, end, false);
    }
  }

  /** The same for a run of the server: the credit measures the time the nodes
      table had the node offline while it was under maintenance. */
  lemma CreditOfARun(es: seq<Event>, rows: seq<Window>, z: Zone, n: NodeId, start: int, end: int)
    requires Ordered(es) && start <= end
    ensures var iv := IntervalsOf(Run(START, es).events, n, start, end);
            var credit := STEP_SECONDS * Samples(t => Creditable(rows, z, n, iv, t), start, start, end);
            var planned := t => InMaintenance(rows, z, n, t) && OfflineAt(es, n, t);
            var k := Segments(planned, start, end);
            && -(300 * SECOND - 1) * k <= credit * SECOND - Count(planned, start, end) <= (300 * SECOND - 1) * k
            && (k == 0 ==> credit == 0)
  {
    hide Run, IntervalsOf, InMaintenance, Covered, OfflineAt;
    var iv := IntervalsOf(Run(START, es).events, n, start, end);
    var p := t => Creditable(rows, z, n, iv, t);
    var planned := t => InMaintenance(rows, z, n, t) && OfflineAt(es, n, t);
    forall t | start <= t < end
      ensures p(t) <==> planned(t)
    {
      FaithfulHistory(es, n, start, end, t);
    }
    SampledCreditBound(planned, start, end);
    NoSegments(planned, start, end);
    CountSame(t => p(t) && (t - start) % STEP == 0, t => planned(t) && (t - start) % STEP == 0, start, end);
  }
}
