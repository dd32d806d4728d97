/** Settling is idempotent, its result depends only on the set of days, and the
    counters of a donation agree with the ledger. */
module Settlement {
  import opened Arith
  import opened Calendar
  import opened Credit
  import opened Donations
  import opened History
  import opened Keys
  import opened Maintenance
  import opened Measure
  import opened Points
  import opened Text
  import P = Presence
  import opened Uptime
  import UP = UptimeProofs

  /** Donations have distinct 64-bit ids; dates have ten bytes. */
  ghost predicate IdsOk(donations: seq<Donation>) {
    && (forall i | 0 <= i < |donations| :: 0 < donations[i].terms.id < Pow10(20))
    && (forall i, j | 0 <= i < j < |donations| :: donations[i].terms.id != donations[j].terms.id)
  }

  ghost predicate CalendarOk(cal: Calendar) {
    Regular(cal) && forall k | 0 <= k < |cal.dates| :: |cal.dates[k]| == 10
  }

  /** Donation j earns a reward for day k that had not been booked in s0. */
  ghost predicate NewDay(s0: State, w: World, j: nat, k: int) {
    && j < |s0.donations| && InCalendar(w.cal, k)
    && Due(w, s0.donations[j].terms, k) && s0.donations[j].terms.user != 0
    && !HasKey(s0.bank.ledger, DayOp(w, s0.donations[j].terms, k).key)
  }

  /** The settled (donation, day) pairs that paid donation j. */
  ghost function NewPairs(s0: State, w: World, j: nat, done: set<(nat, int)>): set<(nat, int)> {
    set p | p in done && p.0 == j && NewDay(s0, w, j, p.1)
  }

  /** What a user earns from the first m donations. */
  ghost function Income(s0: State, w: World, user: nat, done: set<(nat, int)>, m: nat): int
    requires m <= |s0.donations|
  {
    if m == 0 then 0
    else
      var t := s0.donations[m - 1].terms;
      Income(s0, w, user, done, m - 1)
      + if t.user == user then Daily(w.cfg, t.home) * |NewPairs(s0, w, m - 1, done)| else 0
  }

  ghost predicate TermsMatch(s0: State, s: State) {
    && |s.donations| == |s0.donations|
    && forall j | 0 <= j < |s.donations| ::
         s.donations[j].terms == s0.donations[j].terms && s.donations[j].bonusPaid == s0.donations[j].bonusPaid
  }

  ghost predicate CountersMatch(s0: State, s: State, w: World, done: set<(nat, int)>)
    requires TermsMatch(s0, s)
  {
    forall j | 0 <= j < |s.donations| ::
      var n := |NewPairs(s0, w, j, done)|;
      && s.donations[j].rewardDays == s0.donations[j].rewardDays + n
      && s.donations[j].dailyEarned == s0.donations[j].dailyEarned + Daily(w.cfg, s0.donations[j].terms.home) * n
  }

  ghost predicate KeysMatch(s0: State, s: State, w: World, done: set<(nat, int)>) {
    forall j: nat, k: int | j < |s0.donations| && InCalendar(w.cal, k) ::
      var key := DayOp(w, s0.donations[j].terms, k).key;
      HasKey(s.bank.ledger, key) <==> HasKey(s0.bank.ledger, key) || ((j, k) in done && NewDay(s0, w, j, k))
  }

  ghost predicate BalancesMatch(s0: State, s: State, w: World, done: set<(nat, int)>) {
    forall u: nat :: BalanceOf(s.bank, u) == BalanceOf(s0.bank, u) + Income(s0, w, u, done, |s0.donations|)
  }

  /** s is s0 after the pairs in done have been settled. */
  ghost predicate Matches(s0: State, s: State, w: World, done: set<(nat, int)>) {
    && TermsMatch(s0, s) && CountersMatch(s0, s, w, done) && KeysMatch(s0, s, w, done)
    && BalancesMatch(s0, s, w, done) && s.pool == s0.pool
  }

  lemma {:induction false} NoIncome(s0: State, w: World, user: nat, m: nat)
    requires m <= |s0.donations|
    ensures Income(s0, w, user, {}, m) == 0
  {
    if m > 0 {
      NoIncome(s0, w, user, m - 1);
      assert NewPairs(s0, w, m - 1, {}) == {};
    }
  }

  lemma NothingSettled(s: State, w: World)
    ensures Matches(s, s, w, {})
  {
    forall j | 0 <= j < |s.donations|
      ensures NewPairs(s, w, j, {}) == {}
    {
    }
    forall u: nat
      ensures Income(s, w, u, {}, |s.donations|) == 0
    {
      NoIncome(s, w, u, |s.donations|);
    }
  }

  /** How one more pair changes the pairs that paid donation j. */
  lemma PairsStep(s0: State, w: World, j: nat, done: set<(nat, int)>, i: nat, k: int)
    ensures var now, before := NewPairs(s0, w, j, done + {(i, k)}), NewPairs(s0, w, j, done);
            if i == j && NewDay(s0, w, j, k) && (i, k) !in done then |now| == |before| + 1 else now == before
  {
    var now, before := NewPairs(s0, w, j, done + {(i, k)}), NewPairs(s0, w, j, done);
    hide NewDay;
    if i == j && NewDay(s0, w, j, k) && (i, k) !in done {
      assert now == before + {(i, k)};
    } else {
      assert now == before;
    }
  }

  lemma {:induction false} IncomeStep(s0: State, w: World, u: nat, done: set<(nat, int)>, i: nat, k: int, m: nat)
    requires m <= |s0.donations| && i < |s0.donations|
    ensures var t := s0.donations[i].terms;
            Income(s0, w, u, done + {(i, k)}, m) == Income(s0, w, u, done, m)
              + if i < m && NewDay(s0, w, i, k) && (i, k) !in done && t.user == u then Daily(w.cfg, t.home) else 0
  {
    hide NewDay, NewPairs;
    if m > 0 {
      IncomeStep(s0, w, u, done, i, k, m - 1);
      PairsStep(s0, w, m - 1, done, i, k);
      var rate, n := Daily(w.cfg, s0.donations[m - 1].terms.home), |NewPairs(s0, w, m - 1, done)|;
      assert rate * (n + 1) == rate * n + rate;
    }
  }

  /** Keys of different donations or days differ, and they fit their column. */
  lemma DayKeys(w: World, a: Terms, j: int, b: Terms, k: int)
    requires CalendarOk(w.cal) && InCalendar(w.cal, j) && InCalendar(w.cal, k)
    requires a.id < Pow10(20)
    ensures DayOp(w, a, j).key != "" && Truncate(DayOp(w, a, j).key, KEY_LIMIT) == DayOp(w, a, j).key
    ensures DayOp(w, a, j).key == DayOp(w, b, k).key ==> a.id == b.id && j == k
  {
    var x, y := DonateDay(a.id, w.cal.dates[j]), DonateDay(b.id, w.cal.dates[k]);
    InternalKeysFit(x);
    KeyHasFamily(x);
    hide KeyOf;
    if KeyOf(x) == KeyOf(y) {
      KeysInjective(x, y);
    }
  }

  lemma KeyHasFamily(x: Source)
    ensures KeyOf(x) != ""
  {
  }

  /** A settlement of one donation and day either books its row or finds
      nothing to do. */
  lemma SettleOneOutcome(s0: State, s: State, w: World, done: set<(nat, int)>, i: nat, k: int)
    requires Matches(s0, s, w, done) && IdsOk(s0.donations) && CalendarOk(w.cal)
    requires i < |s0.donations| && InCalendar(w.cal, k)
    ensures var t := s0.donations[i].terms;
            var fresh_ := NewDay(s0, w, i, k) && (i, k) !in done;
            && SettleOne(s, w, i, k) == (if fresh_ then PayDay(s, w, i, k) else s)
            && (fresh_ ==> Judge(s.bank, DayOp(w, t, k)) == Applied)
  {
    hide Due, KeyOf, CountersMatch, BalancesMatch, IdsOk;
    assert s.donations[i].terms == s0.donations[i].terms;
    var t := s0.donations[i].terms;
    assert t.id < Pow10(20) by { Ids(s0.donations, i); }
    DayKeys(w, t, k, t, k);
    assert Due(w, t, k) ==> Daily(w.cfg, t.home) > 0 by { DuePays(w, t, k); }
  }

  lemma Ids(donations: seq<Donation>, i: nat)
    requires IdsOk(donations) && i < |donations|
    ensures 0 < donations[i].terms.id < Pow10(20)
  {
  }

  lemma DuePays(w: World, t: Terms, k: int)
    ensures Due(w, t, k) ==> Daily(w.cfg, t.home) > 0
  {
    hide OnlineOn, Need;
  }

  /** Which day keys are booked after a payment. */
  lemma PaidKey(s: State, w: World, i: nat, k: int, key: string)
    requires i < |s.donations| && InCalendar(w.cal, k) && CalendarOk(w.cal) && s.donations[i].terms.id < Pow10(20)
    requires Judge(s.bank, DayOp(w, s.donations[i].terms, k)) == Applied
    ensures HasKey(PayDay(s, w, i, k).bank.ledger, key)
       <==> HasKey(s.bank.ledger, key) || key == DayOp(w, s.donations[i].terms, k).key
  {
    var t := s.donations[i].terms;
    DayKeys(w, t, k, t, k);
    hide Judge, HasKey, CalendarOk, DayOp;
    HasKeyAppend(s.bank.ledger, RowFor(s.bank, DayOp(w, t, k)), key);
  }

  lemma DistinctIds(donations: seq<Donation>, i: nat, j: nat)
    requires IdsOk(donations) && i < |donations| && j < |donations| && donations[i].terms.id == donations[j].terms.id
    ensures i == j
  {
  }

  lemma KeysStepAt(s0: State, s: State, w: World, done: set<(nat, int)>, i: nat, k: int, j: nat, d: int)
    requires KeysMatch(s0, s, w, done) && IdsOk(s0.donations) && CalendarOk(w.cal)
    requires i < |s0.donations| == |s.donations| && InCalendar(w.cal, k)
    requires s.donations[i].terms == s0.donations[i].terms
    requires j < |s0.donations| && InCalendar(w.cal, d)
    requires NewDay(s0, w, i, k) && Judge(s.bank, DayOp(w, s0.donations[i].terms, k)) == Applied
    ensures var key := DayOp(w, s0.donations[j].terms, d).key;
            var booked := HasKey(PayDay(s, w, i, k).bank.ledger, key);
            booked <==> HasKey(s0.bank.ledger, key) || ((j, d) in done + {(i, k)} && NewDay(s0, w, j, d))
  {
    hide Judge, KeyOf, PayDay, DayOp, HasKey, NewDay, CalendarOk, IdsOk, InCalendar;
    var t, u := s0.donations[i].terms, s0.donations[j].terms;
    Ids(s0.donations, i);
    PaidKey(s, w, i, k, DayOp(w, u, d).key);
    DayKeys(w, t, k, u, d);
    if t.id == u.id {
      DistinctIds(s0.donations, i, j);
    }
  }

  lemma KeysStep(s0: State, s: State, w: World, done: set<(nat, int)>, i: nat, k: int)
    requires KeysMatch(s0, s, w, done) && IdsOk(s0.donations) && CalendarOk(w.cal)
    requires i < |s0.donations| == |s.donations| && InCalendar(w.cal, k)
    requires s.donations[i].terms == s0.donations[i].terms
    requires NewDay(s0, w, i, k) && Judge(s.bank, DayOp(w, s0.donations[i].terms, k)) == Applied
    ensures KeysMatch(s0, PayDay(s, w, i, k), w, done + {(i, k)})
  {
    hide Judge, KeyOf, PayDay, DayOp, HasKey, NewDay, CalendarOk, IdsOk;
    forall j: nat, d: int | j < |s0.donations| && InCalendar(w.cal, d)
      ensures var key := DayOp(w, s0.donations[j].terms, d).key;
              var booked := HasKey(PayDay(s, w, i, k).bank.ledger, key);
              booked <==> HasKey(s0.bank.ledger, key) || ((j, d) in done + {(i, k)} && NewDay(s0, w, j, d))
    {
      KeysStepAt(s0, s, w, done, i, k, j, d);
    }
  }

  lemma PaidDonations(s: State, w: World, i: nat, k: int)
    requires i < |s.donations| && InCalendar(w.cal, k) && Judge(s.bank, DayOp(w, s.donations[i].terms, k)) == Applied
    ensures PayDay(s, w, i, k).donations
         == s.donations[i := Rewarded(s.donations[i], Daily(w.cfg, s.donations[i].terms.home))]
  {
  }

  lemma CountersStep(s0: State, s: State, w: World, done: set<(nat, int)>, i: nat, k: int)
    requires TermsMatch(s0, s) && CountersMatch(s0, s, w, done) && i < |s0.donations| && InCalendar(w.cal, k)
    requires NewDay(s0, w, i, k) && (i, k) !in done && Judge(s.bank, DayOp(w, s0.donations[i].terms, k)) == Applied
    ensures TermsMatch(s0, PayDay(s, w, i, k)) && CountersMatch(s0, PayDay(s, w, i, k), w, done + {(i, k)})
  {
    hide Judge, DayOp, PayDay, NewDay, NewPairs, Daily;
    PaidDonations(s, w, i, k);
    var s' := PayDay(s, w, i, k);
    var rate := Daily(w.cfg, s0.donations[i].terms.home);
    forall j | 0 <= j < |s'.donations|
      ensures var n := |NewPairs(s0, w, j, done + {(i, k)})|;
              && s'.donations[j].rewardDays == s0.donations[j].rewardDays + n
              && s'.donations[j].dailyEarned
                 == s0.donations[j].dailyEarned + Daily(w.cfg, s0.donations[j].terms.home) * n
    {
      PairsStep(s0, w, j, done, i, k);
      var n := |NewPairs(s0, w, j, done)|;
      assert s.donations[j].rewardDays == s0.donations[j].rewardDays + n;
      assert rate * (n + 1) == rate * n + rate;
    }
  }

  lemma BalancesStep(s0: State, s: State, w: World, done: set<(nat, int)>, i: nat, k: int)
    requires TermsMatch(s0, s) && BalancesMatch(s0, s, w, done) && i < |s0.donations| && InCalendar(w.cal, k)
    requires NewDay(s0, w, i, k) && (i, k) !in done && Judge(s.bank, DayOp(w, s0.donations[i].terms, k)) == Applied
    ensures BalancesMatch(s0, PayDay(s, w, i, k), w, done + {(i, k)})
  {
    var s' := PayDay(s, w, i, k);
    var t := s0.donations[i].terms;
    hide Due, KeyOf, NewDay, NewPairs, Income;
    forall u: nat
      ensures BalanceOf(s'.bank, u) == BalanceOf(s0.bank, u) + Income(s0, w, u, done + {(i, k)}, |s0.donations|)
    {
      IncomeStep(s0, w, u, done, i, k, |s0.donations|);
      assert BalanceOf(s.bank, u) == BalanceOf(s0.bank, u) + Income(s0, w, u, done, |s0.donations|);
    }
  }

  /** A pair that pays nothing new changes nothing. */
  lemma IdleStep(s0: State, s: State, w: World, done: set<(nat, int)>, i: nat, k: int)
    requires Matches(s0, s, w, done) && i < |s0.donations| && !(NewDay(s0, w, i, k) && (i, k) !in done)
    ensures Matches(s0, s, w, done + {(i, k)})
  {
    hide NewDay, NewPairs, DayOp, Income;
    forall j: nat | j < |s0.donations|
      ensures NewPairs(s0, w, j, done + {(i, k)}) == NewPairs(s0, w, j, done)
    {
      PairsStep(s0, w, j, done, i, k);
    }
    forall u: nat
      ensures Income(s0, w, u, done + {(i, k)}, |s0.donations|) == Income(s0, w, u, done, |s0.donations|)
    {
      IncomeStep(s0, w, u, done, i, k, |s0.donations|);
    }
  }

  lemma OneMatches(s0: State, s: State, w: World, done: set<(nat, int)>, i: nat, k: int)
    requires Matches(s0, s, w, done) && IdsOk(s0.donations) && CalendarOk(w.cal)
    requires i < |s0.donations| && InCalendar(w.cal, k)
    ensures Matches(s0, SettleOne(s, w, i, k), w, done + {(i, k)})
  {
    SettleOneOutcome(s0, s, w, done, i, k);
    hide SettleOne, NewDay, KeysMatch, CountersMatch, BalancesMatch, IdsOk, CalendarOk, Judge, DayOp;
    if NewDay(s0, w, i, k) && (i, k) !in done {
      KeysStep(s0, s, w, done, i, k);
      CountersStep(s0, s, w, done, i, k);
      BalancesStep(s0, s, w, done, i, k);
    } else {
      IdleStep(s0, s, w, done, i, k);
    }
  }

  ghost function DayPairs(m: nat, k: int): set<(nat, int)> {
    set i: nat | i < m :: (i, k)
  }

  lemma DayPairsStep(done: set<(nat, int)>, m: nat, k: int)
    ensures m == 0 ==> done + DayPairs(m, k) == done
    ensures m > 0 ==> done + DayPairs(m, k) == done + DayPairs(m - 1, k) + {(m - 1, k)}
  {
  }

  lemma {:induction false} UpToMatches(s0: State, s: State, w: World, done: set<(nat, int)>, k: int, m: nat)
    requires Matches(s0, s, w, done) && IdsOk(s0.donations) && CalendarOk(w.cal)
    requires m <= |s0.donations| && InCalendar(w.cal, k)
    ensures Matches(s0, SettleUpTo(s, w, k, m), w, done + DayPairs(m, k))
    decreases m
  {
    hide Matches, SettleOne, IdsOk, CalendarOk, DayPairs;
    SameLength(s0, s, w, done);
    DayPairsStep(done, m, k);
    if m > 0 {
      UpToMatches(s0, s, w, done, k, m - 1);
      OneMatches(s0, SettleUpTo(s, w, k, m - 1), w, done + DayPairs(m - 1, k), m - 1, k);
    }
  }

  /** All pairs of a donation and a day of the list. */
  ghost function AllPairs(n: nat, days: set<int>): set<(nat, int)> {
    set i: nat, k: int | i < n && k in days :: (i, k)
  }

  ghost function DaySet(days: seq<int>): set<int> {
    set k | k in days
  }

  /** The closed form: whatever list of days is settled, rewards are paid for
      exactly the new (donation, day) pairs, once each. */
  lemma {:induction false} DaysMatch(s0: State, w: World, days: seq<int>)
    requires IdsOk(s0.donations) && CalendarOk(w.cal) && forall i | 0 <= i < |days| :: InCalendar(w.cal, days[i])
    ensures Matches(s0, SettleDays(s0, w, days), w, AllPairs(|s0.donations|, DaySet(days)))
    decreases |days|
  {
    hide Matches, IdsOk, CalendarOk;
    var n := |s0.donations|;
    if days == [] {
      NothingSettled(s0, w);
      assert AllPairs(n, DaySet(days)) == {};
    } else {
      var head, last := days[..|days| - 1], days[|days| - 1];
      DaysMatch(s0, w, head);
      var s := SettleDays(s0, w, head);
      var done := AllPairs(n, DaySet(head));
      SameLength(s0, s, w, done);
      UpToMatches(s0, s, w, done, last, n);
      assert days == head + [last];
      assert done + DayPairs(n, last) == AllPairs(n, DaySet(days));
    }
  }

  lemma SameLength(s0: State, s: State, w: World, done: set<(nat, int)>)
    requires Matches(s0, s, w, done)
    ensures |s.donations| == |s0.donations|
  {
  }

  lemma MatchesIsUnique(s0: State, x: State, y: State, w: World, done: set<(nat, int)>)
    requires Matches(s0, x, w, done) && Matches(s0, y, w, done)
    ensures x.donations == y.donations && x.pool == y.pool
    ensures forall u: nat :: BalanceOf(x.bank, u) == BalanceOf(y.bank, u)
  {
    hide NewPairs, Income, KeysMatch, Daily;
    forall j | 0 <= j < |x.donations|
      ensures x.donations[j] == y.donations[j]
    {
      assert x.donations[j].rewardDays == s0.donations[j].rewardDays + |NewPairs(s0, w, j, done)|;
    }
    forall u: nat
      ensures BalanceOf(x.bank, u) == BalanceOf(y.bank, u)
    {
      assert BalanceOf(x.bank, u) == BalanceOf(s0.bank, u) + Income(s0, w, u, done, |s0.donations|);
    }
  }

  /** Settlement idempotence: with everything else fixed, settling any two
      lists of the same days, in any order and with repeats, leads to the same
      donation rows and the same balances. */
  lemma {:induction false} OnlyTheSetOfDaysMatters(s: State, w: World, a: seq<int>, b: seq<int>)
    requires IdsOk(s.donations) && CalendarOk(w.cal)
    requires forall i | 0 <= i < |a| :: InCalendar(w.cal, a[i])
    requires DaySet(a) == DaySet(b)
    ensures var x, y := SettleDays(s, w, a), SettleDays(s, w, b);
            x.donations == y.donations && x.pool == y.pool
            && forall u: nat :: BalanceOf(x.bank, u) == BalanceOf(y.bank, u)
  {
    hide SettleDays, Matches, IdsOk, CalendarOk, BalanceOf;
    forall i | 0 <= i < |b|
      ensures InCalendar(w.cal, b[i])
    {
      assert b[i] in DaySet(b);
      assert b[i] in DaySet(a);
    }
    DaysMatch(s, w, a);
    DaysMatch(s, w, b);
    MatchesIsUnique(s, SettleDays(s, w, a), SettleDays(s, w, b), w, AllPairs(|s.donations|, DaySet(a)));
  }

  /** What one donation and its owner get from a list of days. */
  lemma {:induction false} RewardsOfDays(s: State, w: World, days: seq<int>, j: nat)
    requires IdsOk(s.donations) && CalendarOk(w.cal) && j < |s.donations|
    requires forall i | 0 <= i < |days| :: InCalendar(w.cal, days[i])
    ensures var r := SettleDays(s, w, days);
            var n := |NewPairs(s, w, j, AllPairs(|s.donations|, DaySet(days)))|;
            var rate := if s.donations[j].terms.home then w.cfg.dailyHome else w.cfg.dailyIdc;
            && |r.donations| == |s.donations|
            && r.donations[j].rewardDays == s.donations[j].rewardDays + n
            && r.donations[j].dailyEarned == s.donations[j].dailyEarned + rate * n
  {
    DaysMatch(s, w, days);
  }

  // ---------- what a day's online time means ----------

  /** A day that ends before the counting of the node starts. */
  lemma NothingBeforeCounting(es: seq<P.Event>, n: P.NodeId, start: int, end: int)
    requires P.Ordered(es) && start <= end && n in P.Run(P.START, es).nodes
    requires var s := P.Run(P.START, es); NodeStats(s.nodes, s.events, n, start, end).from > end
    ensures var s := P.Run(P.START, es); NodeStats(s.nodes, s.events, n, start, end).downCount == 0
    ensures Count(t => OfflineAt(es, n, t), start, end) == 0
  {
    hide P.Run, OfflineAt, IntervalsOf, ExistsOf, Count, SumOverlap, UP.Chain;
    var s := P.Run(P.START, es);
    var iv := IntervalsOf(s.events, n, start, end);
    HonestSeconds(es, n, start, end);
    UP.ReportedSeconds(s.nodes, s.events, n, start, end);
    UP.IntervalsAreChain(s.events, n, start, end);
    if |iv| > 0 {
      FirstStart(iv, start, end);
    }
  }

  lemma FirstStart(iv: seq<Interval>, lo: int, hi: int)
    requires UP.Chain(iv, lo, hi) && |iv| > 0
    ensures iv[0].start <= hi
  {
  }

  /** The time a settlement compares with the required hours, for the tables
      left by a run of the server: the counted part of the day less the
      downtime outside maintenance, within a second for the day, a second per
      outage and five minutes per maintained outage. */
  lemma OnlineTimeIsHonest(w: World, es: seq<P.Event>, n: P.NodeId, k: int)
    requires P.Ordered(es) && w.nodes == P.Run(P.START, es).nodes && w.log == P.Run(P.START, es).events
    requires n in w.nodes && 0 <= k < |w.cal.midnights| - 1 && w.cal.midnights[k] < w.cal.midnights[k + 1]
    ensures var start, end := w.cal.midnights[k], w.cal.midnights[k + 1];
            var st := NodeStats(w.nodes, w.log, n, start, end);
            var down := Count(t => OfflineAt(es, n, t), start, end);
            var planned := t => InMaintenance(w.windows, w.zone, n, t) && OfflineAt(es, n, t);
            var slack := (300 * SECOND - 1) * Segments(planned, start, end);
            var up := Max(end - st.from, 0) - (down - Count(planned, start, end));
            up - (SECOND - 1) - slack <= OnlineOn(w, n, k) * SECOND <= up + (SECOND - 1) * st.downCount + slack
  {
    hide P.Run, OfflineAt, InMaintenance, IntervalsOf, ExistsOf, Samples, Segments, Count;
    var start, end := w.cal.midnights[k], w.cal.midnights[k + 1];
    HonestSeconds(es, n, start, end);
    CreditOfARun(es, w.windows, w.zone, n, start, end);
    UP.ReportedSeconds(w.nodes, w.log, n, start, end);
    if NodeStats(w.nodes, w.log, n, start, end).from > end {
      NothingBeforeCounting(es, n, start, end);
      CountFewer(
        t => InMaintenance(w.windows, w.zone, n, t) && OfflineAt(es, n, t), t => OfflineAt(es, n, t), start, end);
    }
  }
}
