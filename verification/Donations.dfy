/** donate.go: donated nodes, their review, and the daily settlement of online
    rewards. Labels, notes, keys and last_settled are not modelled. */
module Donations {
  import opened Calendar
  import opened Credit
  import opened Keys
  import opened Maintenance
  import opened Options
  import opened Points
  import opened Presence
  import opened Text
  import opened Uptime

  datatype Review = Pending | Approved | Rejected | Disabled | Withdrawn

  /** What a settlement looks at; settling never changes it. */
  datatype Terms = Terms(id: nat, user: nat, node: NodeId, home: bool, review: Review, reviewedAt: Option<int>)

  datatype Donation = Donation(terms: Terms, bonusPaid: int, dailyEarned: int, rewardDays: nat)

  /** pool maps the nodes of the node pool to the donation they came from, 0
      for the operator's own nodes. */
  datatype State = State(bank: Bank, donations: seq<Donation>, pool: map<NodeId, nat>)

  datatype Config = Config(
    enabled: bool, donateEnabled: bool, bonusHome: int, bonusIdc: int, dailyHome: int, dailyIdc: int, minHours: real)

  /** Everything else a settlement reads. */
  datatype World = World(
    cfg: Config, cal: Calendar, zone: Zone,
    nodes: map<NodeId, NodeRow>, log: seq<NodeEvent>, windows: seq<Window>)

  function Bonus(cfg: Config, home: bool): int {
    if home then cfg.bonusHome else cfg.bonusIdc
  }

  function Daily(cfg: Config, home: bool): int {
    if home then cfg.dailyHome else cfg.dailyIdc
  }

  /** Seconds a node has to be online on a day. */
  function Need(cfg: Config): (n: int)
    ensures 0 < n <= 86400
  {
    var n := (cfg.minHours * 3600.0).Floor;
    if n <= 0 || n > 86400 then 86400 else n
  }

  // ---------- settling one day ----------

  /** Online seconds of the node on day k, maintenance downtime credited. */
  ghost function OnlineOn(w: World, n: NodeId, k: int): int
    requires 0 <= k < |w.cal.midnights| - 1
  {
    var start, end := w.cal.midnights[k], w.cal.midnights[k + 1];
    var iv := IntervalsOf(w.log, n, start, end);
    OnlineSeconds(w.nodes, w.log, n, start, end)
    + STEP_SECONDS * Samples(t => Creditable(w.windows, w.zone, n, iv, t), start, start, end)
  }

  /** Has the donation earned its reward for day k? */
  ghost predicate Due(w: World, t: Terms, k: int) {
    && 0 <= k < |w.cal.midnights| - 1
    && w.cfg.enabled && w.cfg.donateEnabled && t.review.Approved?
    && !(t.reviewedAt.Some? && t.reviewedAt.value > w.cal.midnights[k + 1])
    && Daily(w.cfg, t.home) > 0
    && OnlineOn(w, t.node, k) >= Need(w.cfg)
  }

  function DayOp(w: World, t: Terms, k: int): Op
    requires InCalendar(w.cal, k)
  {
    Op(t.user, Daily(w.cfg, t.home), ByDonateDay, Dec(t.id), KeyOf(DonateDay(t.id, w.cal.dates[k])))
  }

  function Rewarded(d: Donation, daily: int): Donation {
    d.(dailyEarned := d.dailyEarned + daily, rewardDays := d.rewardDays + 1)
  }

  /** The transaction for one donation: the points and both counters together,
      or nothing. */
  function PayDay(s: State, w: World, i: nat, k: int): State
    requires i < |s.donations| && InCalendar(w.cal, k)
  {
    var t := s.donations[i].terms;
    if Judge(s.bank, DayOp(w, t, k)) != Applied then s
    else s.(bank := Post(s.bank, DayOp(w, t, k)),
            donations := s.donations[i := Rewarded(s.donations[i], Daily(w.cfg, t.home))])
  }

  ghost function SettleOne(s: State, w: World, i: nat, k: int): State
    requires i < |s.donations| && InCalendar(w.cal, k)
  {
    if Due(w, s.donations[i].terms, k) then PayDay(s, w, i, k) else s
  }

  /** The first m donations of day k have been settled. */
  ghost function SettleUpTo(s: State, w: World, k: int, m: nat): (r: State)
    requires m <= |s.donations| && InCalendar(w.cal, k)
    ensures |r.donations| == |s.donations|
  {
    if m == 0 then s else SettleOne(SettleUpTo(s, w, k, m - 1), w, m - 1, k)
  }

  ghost function SettleDay(s: State, w: World, k: int): State {
    if InCalendar(w.cal, k) then SettleUpTo(s, w, k, |s.donations|) else s
  }

  ghost function SettleDays(s: State, w: World, days: seq<int>): State {
    if days == [] then s else SettleDay(SettleDays(s, w, days[..|days| - 1]), w, days[|days| - 1])
  }

  // ---------- review ----------

  function BonusOp(cfg: Config, t: Terms): Op {
    Op(t.user, Bonus(cfg, t.home), ByDonate, Dec(t.id), KeyOf(Donate(t.id)))
  }

  predicate Clashes(s: State, t: Terms) {
    t.node in s.pool && s.pool[t.node] != t.id
  }

  predicate BonusDue(cfg: Config, d: Donation) {
    d.bonusPaid == 0 && Bonus(cfg, d.terms.home) > 0 && cfg.enabled
  }

  function BonusVerdict(b: Bank, cfg: Config, d: Donation): Verdict {
    if BonusDue(cfg, d) then Judge(b, BonusOp(cfg, d.terms)) else Duplicate
  }

  /** A review that goes through, with the bonus if that is booked now. */
  function Granted(s: State, cfg: Config, i: nat, now: int, booked: bool): State
    requires i < |s.donations|
  {
    var d := s.donations[i];
    var t := d.terms;
    s.(pool := s.pool[t.node := t.id],
       bank := if booked then Post(s.bank, BonusOp(cfg, t)) else s.bank,
       donations := s.donations[i := d.(terms := t.(review := Approved, reviewedAt := Some(now)),
                                        bonusPaid := if booked then Bonus(cfg, t.home) else d.bonusPaid)])
  }

  /** approveDonation: refused if another donation or the operator owns the
      node's name, or if the bonus cannot be booked; a bonus that was booked
      before is not an error. */
  function Approve(s: State, cfg: Config, i: nat, now: int): State
    requires i < |s.donations|
  {
    var d := s.donations[i];
    var v := BonusVerdict(s.bank, cfg, d);
    if d.terms.review.Withdrawn? || Clashes(s, d.terms) || (v != Applied && v != Duplicate) then s
    else Granted(s, cfg, i, now, v == Applied)
  }

  function WithoutDonation(pool: map<NodeId, nat>, id: nat): map<NodeId, nat> {
    map n | n in pool && pool[n] != id :: pool[n]
  }

  /** setDonationOffPool; the owner's withdrawal leaves the review time alone. */
  function OffPool(s: State, i: nat, to: Review, now: int): State
    requires i < |s.donations|
  {
    var t := s.donations[i].terms;
    var t' := t.(review := to, reviewedAt := if to.Withdrawn? then t.reviewedAt else Some(now));
    s.(pool := WithoutDonation(s.pool, t.id), donations := s.donations[i := s.donations[i].(terms := t')])
  }

  class Program {
    const bank: Ledger
    var donations: seq<Donation>
    var pool: map<NodeId, nat>

    function View(): State
      reads this, bank
    {
      State.State(bank.View(), donations, pool)
    }

    constructor (bank: Ledger)
      ensures this.bank == bank && View() == State.State(bank.View(), [], map[])
    {
      this.bank := bank;
      donations, pool := [], map[];
    }

    /** settleDonationDay for day k; the result is the number of payments. */
    method Settle(w: World, k: int) returns (paid: nat)
      requires Regular(w.cal) && InCalendar(w.cal, k)
      modifies this, bank
      ensures View() == SettleDay(old(View()), w, k)
      ensures |bank.View().ledger| == |old(bank.View()).ledger| + paid
    {
      hide OnlineSeconds, Samples, IntervalsOf, Judge, Post, KeyOf, Need;
      paid := 0;
      if !w.cfg.enabled || !w.cfg.donateEnabled {
        NothingDue(View(), w, k, |donations|);
        return;
      }
      var start, end := w.cal.midnights[k], w.cal.midnights[k + 1];
      var need := Need(w.cfg);
      var i := 0;
      while i < |donations|
        invariant 0 <= i <= |donations| == |old(donations)|
        invariant View() == SettleUpTo(old(View()), w, k, i)
        invariant |bank.View().ledger| == |old(bank.View()).ledger| + paid
      {
        var t := donations[i].terms;
        if t.review.Approved? && !(t.reviewedAt.Some? && t.reviewedAt.value > end) {
          var daily := Daily(w.cfg, t.home);
          var seconds := NodeOnlineSeconds(w.nodes, w.log, t.node, start, end);
          var credit := MaintenanceCredit(w.windows, w.zone, t.node, w.log, start, end);
          assert OnlineOn(w, t.node, k) == seconds + credit;
          if daily > 0 && seconds + credit >= need {
            var v := bank.ChangePoints(DayOp(w, t, k));
            if v == Applied {
              donations := donations[i := Rewarded(donations[i], daily)];
              paid := paid + 1;
            }
          }
        }
        i := i + 1;
      }
    }

    /** What donationSettleLoop does when the server starts. */
    method CatchUp(w: World, today: int)
      requires Regular(w.cal) && InCalendar(w.cal, today) && today >= 3
      modifies this, bank
      ensures View() == SettleDays(old(View()), w, [today - 3, today - 2, today - 1])
    {
      ghost var days := [today - 3, today - 2, today - 1];
      hide SettleDay;
      var i := 3;
      while i >= 1
        invariant 0 <= i <= 3
        invariant View() == SettleDays(old(View()), w, days[..3 - i])
      {
        var paid := Settle(w, today - i);
        assert days[..4 - i][..3 - i] == days[..3 - i];
        i := i - 1;
      }
      assert days[..3] == days;
    }

    /** The bonus within approveDonation's transaction, rolled back if it is
        refused for another reason than a bonus booked before. */
    method BookBonus(cfg: Config, d: Donation) returns (v: Verdict)
      requires d.terms.id < Pow10(20)
      modifies bank
      ensures v == BonusVerdict(old(bank.View()), cfg, d)
      ensures bank.View() == if v == Applied then Post(old(bank.View()), BonusOp(cfg, d.terms)) else old(bank.View())
    {
      hide Judge, Post, KeyOf, HasKey, Truncate, BonusOp, Moved, AccountOf;
      var before := bank.View();
      v := Duplicate;
      if d.bonusPaid == 0 && Bonus(cfg, d.terms.home) > 0 && cfg.enabled {
        BonusDuplicate(before, cfg, d.terms);
        v := bank.ApplyPoints(BonusOp(cfg, d.terms));
        if v != Applied && v != Duplicate {
          bank.Restore(before);
        }
      }
    }

    method ApproveDonation(cfg: Config, i: nat, now: int) returns (ok: bool)
      requires i < |donations| && donations[i].terms.id < Pow10(20)
      modifies this, bank
      ensures View() == Approve(old(View()), cfg, i, now)
      ensures ok ==> donations[i].terms.review.Approved? && old(donations[i].terms.node) in pool
      ensures !ok ==> View() == old(View())
    {
      hide Judge, Post, KeyOf, BonusOp, BonusDue, BonusVerdict;
      var d, before := donations[i], pool;
      if d.terms.review.Withdrawn? {
        return false;
      }
      if d.terms.node in pool && pool[d.terms.node] != d.terms.id {
        return false;
      }
      pool := pool[d.terms.node := d.terms.id];
      var v := BookBonus(cfg, d);
      if v != Applied && v != Duplicate {
        pool := before;
        return false;
      }
      var terms := d.terms.(review := Approved, reviewedAt := Some(now));
      var paid := if v == Applied then Bonus(cfg, d.terms.home) else d.bonusPaid;
      donations := donations[i := d.(terms := terms, bonusPaid := paid)];
      assert View() == Granted(old(View()), cfg, i, now, v == Applied);
      return true;
    }

    method SetOffPool(i: nat, to: Review, now: int)
      requires i < |donations|
      modifies this
      ensures View() == OffPool(old(View()), i, to, now)
    {
      var t := donations[i].terms;
      pool := WithoutDonation(pool, t.id);
      t := t.(review := to);
      if !to.Withdrawn? {
        t := t.(reviewedAt := Some(now));
      }
      donations := donations[i := donations[i].(terms := t)];
    }
  }

  /** A bonus refused as a duplicate was noticed before any write, which is why
      the review may go on. */
  lemma BonusDuplicate(b: Bank, cfg: Config, t: Terms)
    requires t.id < Pow10(20)
    ensures Judge(b, BonusOp(cfg, t)) == Duplicate ==> HasKey(b.ledger, BonusOp(cfg, t).key)
  {
    hide KeyOf;
    InternalKeysFit(Donate(t.id));
  }

  lemma {:induction false} NothingDue(s: State, w: World, k: int, m: nat)
    requires m <= |s.donations| && InCalendar(w.cal, k) && !(w.cfg.enabled && w.cfg.donateEnabled)
    ensures SettleUpTo(s, w, k, m) == s
  {
    hide OnlineOn;
    if m > 0 {
      NothingDue(s, w, k, m - 1);
    }
  }
}
