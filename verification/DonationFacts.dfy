/** What reviews and settlements do, said in the fields of the configuration,
    the donation and the event log. */
module DonationFacts {
  import opened Calendar
  import opened Credit
  import opened Donations
  import opened DonationRuns
  import opened Keys
  import opened Options
  import opened Points
  import P = Presence
  import opened Settlement
  import opened Text
  import opened Uptime

  /** Required hours are counted in whole seconds; anything that is not between
      a second and a day means the whole day. */
  lemma NeedIs(cfg: Config)
    ensures var seconds := cfg.minHours * 3600.0;
            if 1.0 <= seconds < 86401.0 then Need(cfg) as real <= seconds < Need(cfg) as real + 1.0
            else Need(cfg) == 86400
  {
  }

  /** A donation has earned its reward for a day exactly if the program is on,
      it was approved by the end of the day, its kind of network is paid for,
      and the node's online seconds plus 300 for every fifth minute of
      maintenance downtime reach the required seconds. */
  lemma DueIff(w: World, t: Terms, k: int)
    requires 0 <= k < |w.cal.midnights| - 1
    ensures var start, end := w.cal.midnights[k], w.cal.midnights[k + 1];
            var iv := IntervalsOf(w.log, t.node, start, end);
            var looks := Samples(u => Creditable(w.windows, w.zone, t.node, iv, u), start, start, end);
            Due(w, t, k) <==>
              && w.cfg.enabled && w.cfg.donateEnabled
              && t.review == Approved && (t.reviewedAt.None? || t.reviewedAt.value <= end)
              && (if t.home then w.cfg.dailyHome else w.cfg.dailyIdc) > 0
              && OnlineSeconds(w.nodes, w.log, t.node, start, end) + 300 * looks >= Need(w.cfg)
  {
  }

  // ---------- what a settlement books ----------

  /** The row of a daily reward of donation d, at the rate of its kind of
      network. */
  ghost predicate IsReward(row: Row, d: Donation, cfg: Config) {
    && row.user == d.terms.user && row.kind == ByDonateDay && row.refId == Dec(d.terms.id)
    && row.delta == if d.terms.home then cfg.dailyHome else cfg.dailyIdc
  }

  /** s' has booked nothing but rewards of its donations since s, whose terms
      are unchanged. */
  ghost predicate OnlyRewards(s: State, s': State, cfg: Config) {
    && TermsMatch(s, s') && s.bank.ledger <= s'.bank.ledger
    && forall r | |s.bank.ledger| <= r < |s'.bank.ledger| ::
         exists j | 0 <= j < |s.donations| :: IsReward(s'.bank.ledger[r], s.donations[j], cfg)
  }

  lemma NothingBooked(s: State, cfg: Config)
    ensures OnlyRewards(s, s, cfg)
  {
  }

  lemma OneReward(s: State, t: State, w: World, i: nat, k: int)
    requires OnlyRewards(s, t, w.cfg) && i < |s.donations| && InCalendar(w.cal, k) && IdsOk(s.donations)
    ensures OnlyRewards(s, SettleOne(t, w, i, k), w.cfg)
  {
    hide Due, Judge, IdsOk, KeyOf, AccountOf, Moved;
    RefOfId(s, i);
    var t' := SettleOne(t, w, i, k);
    if t'.bank != t.bank {
      var row := RowFor(t.bank, DayOp(w, t.donations[i].terms, k));
      assert IsReward(row, s.donations[i], w.cfg);
      forall r | |s.bank.ledger| <= r < |t'.bank.ledger|
        ensures exists j | 0 <= j < |s.donations| :: IsReward(t'.bank.ledger[r], s.donations[j], w.cfg)
      {
        if r < |t.bank.ledger| {
          assert t'.bank.ledger[r] == t.bank.ledger[r];
        }
      }
    }
  }

  lemma RefOfId(s: State, i: nat)
    requires IdsOk(s.donations) && i < |s.donations|
    ensures Truncate(Dec(s.donations[i].terms.id), REF_LIMIT) == Dec(s.donations[i].terms.id)
  {
    RefFits(s.donations[i].terms.id);
  }

  lemma {:induction false} RewardsUpTo(s: State, t: State, w: World, k: int, m: nat)
    requires OnlyRewards(s, t, w.cfg) && m <= |s.donations| && InCalendar(w.cal, k) && IdsOk(s.donations)
    ensures |t.donations| == |s.donations| && OnlyRewards(s, SettleUpTo(t, w, k, m), w.cfg)
    decreases m
  {
    hide SettleOne, IdsOk;
    if m > 0 {
      RewardsUpTo(s, t, w, k, m - 1);
      OneReward(s, SettleUpTo(t, w, k, m - 1), w, m - 1, k);
    }
  }

  /** Whatever days are settled, every new ledger row is a daily reward of a
      donation, booked for its owner at the home rate if it is a home
      connection and at the data-centre rate otherwise. */
  lemma {:induction false} DaysBookRewards(s: State, w: World, days: seq<int>)
    requires IdsOk(s.donations)
    ensures OnlyRewards(s, SettleDays(s, w, days), w.cfg)
    decreases |days|
  {
    hide IdsOk, OnlyRewards;
    if days == [] {
      NothingBooked(s, w.cfg);
    } else {
      var head, k := days[..|days| - 1], days[|days| - 1];
      DaysBookRewards(s, w, head);
      var t := SettleDays(s, w, head);
      SameCount(s, t, w.cfg);
      if InCalendar(w.cal, k) {
        RewardsUpTo(s, t, w, k, |t.donations|);
      }
    }
  }

  lemma SameCount(s: State, t: State, cfg: Config)
    requires OnlyRewards(s, t, cfg)
    ensures |t.donations| == |s.donations|
  {
  }

  // ---------- reviews ----------

  /** A review goes through unless the donation was withdrawn or the node's name
      belongs to somebody else; then the pool lists the node under the donation,
      and the one-time bonus of its kind of network is paid unless it was
      before. */
  lemma ApprovalIs(s: State, cfg: Config, i: nat, now: int)
    requires LedgerInv(s.bank) && i < |s.donations| && 0 < s.donations[i].terms.id < Pow10(20)
    requires s.donations[i].terms.user != 0
    ensures var d := s.donations[i];
            var t, s' := d.terms, Approve(s, cfg, i, now);
            var bonus := if t.home then cfg.bonusHome else cfg.bonusIdc;
            var pays := d.bonusPaid == 0 && bonus > 0 && cfg.enabled && !HasKey(s.bank.ledger, "donate:" + Dec(t.id));
            if t.review == Withdrawn || (t.node in s.pool && s.pool[t.node] != t.id) then s' == s
            else
              && s'.pool == s.pool[t.node := t.id]
              && s'.donations == s.donations[i := s'.donations[i]]
              && s'.donations[i].terms == t.(review := Approved, reviewedAt := Some(now))
              && s'.donations[i].dailyEarned == d.dailyEarned && s'.donations[i].rewardDays == d.rewardDays
              && s'.donations[i].bonusPaid == (if pays then bonus else d.bonusPaid)
              && BalanceOf(s'.bank, t.user) == BalanceOf(s.bank, t.user) + (if pays then bonus else 0)
              && var row := Row(t.user, bonus, BalanceOf(s'.bank, t.user), ByDonate, Dec(t.id), "donate:" + Dec(t.id));
                 s'.bank.ledger == s.bank.ledger + if pays then [row] else []
  {
    hide LedgerInv, HasKey, Dec, Pow10, Judge, Post;
    var t := s.donations[i].terms;
    BonusIsPaid(s.bank, cfg, s.donations[i]);
    ChangeGoesThrough(s.bank, BonusOp(cfg, t));
    InternalKeysFit(Donate(t.id));
    RefFits(t.id);
    assert KeyOf(Donate(t.id)) == "donate:" + Dec(t.id);
  }

  lemma BonusIsPaid(b: Bank, cfg: Config, d: Donation)
    requires LedgerInv(b) && 0 < d.terms.id < Pow10(20) && d.terms.user != 0
    ensures var key := "donate:" + Dec(d.terms.id);
            BonusVerdict(b, cfg, d) == if BonusDue(cfg, d) && !HasKey(b.ledger, key) then Applied else Duplicate
  {
    hide LedgerInv, HasKey, Dec, Pow10;
    ChangeGoesThrough(b, BonusOp(cfg, d.terms));
    InternalKeysFit(Donate(d.terms.id));
    assert KeyOf(Donate(d.terms.id)) == "donate:" + Dec(d.terms.id);
  }

  /** Taking a donation off removes exactly its pool entries; who reviewed it
      when is recorded unless the owner withdrew it. */
  lemma TakenOffIs(s: State, i: nat, to: Review, now: int)
    requires i < |s.donations|
    ensures var s', d := OffPool(s, i, to, now), s.donations[i];
            && s'.bank == s.bank
            && (forall n :: n in s'.pool <==> n in s.pool && s.pool[n] != d.terms.id)
            && (forall n | n in s'.pool :: s'.pool[n] == s.pool[n])
            && s'.donations == s.donations[i := s'.donations[i]]
            && s'.donations[i].terms
               == d.terms.(review := to, reviewedAt := if to == Withdrawn then d.terms.reviewedAt else Some(now))
            && s'.donations[i] == d.(terms := s'.donations[i].terms)
  {
  }

  /** Removing a node's definition disables the approved donation it came from
      and touches no other donation. */
  lemma {:induction false} DropDisables(s: State, n: P.NodeId, m: nat)
    requires m <= |s.donations|
    requires forall i, j | 0 <= i < j < |s.donations| :: s.donations[i].terms.id != s.donations[j].terms.id
    ensures var s' := Dropped(s, n, m);
            && s'.bank == s.bank && s'.pool == s.pool - {n} && |s'.donations| == |s.donations|
            && forall j | 0 <= j < |s.donations| ::
                 s'.donations[j] ==
                   var d := s.donations[j];
                   if j < m && n in s.pool && s.pool[n] == d.terms.id && d.terms.review == Approved
                   then d.(terms := d.terms.(review := Disabled)) else d
  {
    if n in s.pool && m > 0 {
      DropDisables(s, n, m - 1);
    } else {
      assert s.pool - {n} == if n in s.pool then s.pool - {n} else s.pool;
    }
  }

  /** An edit between whose check and write nobody comes: a pending or rejected
      application takes the new kind of network and is pending again, any other
      one stays as it is. */
  lemma EditIs(w: Office, call: nat, i: nat, home: bool)
    requires call !in w.edits && i < |w.db.donations|
    ensures var w' := DonationRuns.Step(DonationRuns.Step(w, EditCheck(call, i)), EditWrite(call, home));
            var d := w.db.donations[i];
            && w'.edits == w.edits
            && w'.db == if d.terms.review == Pending || d.terms.review == Rejected
               then w.db.(donations := w.db.donations[i := d.(terms := d.terms.(home := home, review := Pending))])
               else w.db
  {
  }

  // ---------- from the application to the bonus ----------

  /** A donation is submitted, edited and approved: the pool lists the node and
      its owner has the bonus of the kind of network the edit gave it. */
  lemma FirstBonus(cfg: Config, user: nat, node: P.NodeId, home: bool, now: int) returns (es: seq<Event>)
    requires user != 0 && cfg.enabled && (if home then cfg.bonusHome else cfg.bonusIdc) > 0
    ensures var s := DonationRuns.Run(DonationRuns.START, es).db;
            && es == [Submit(1, user, node, !home), EditCheck(0, 0), EditWrite(0, home), Accept(0, cfg, now)]
            && s.pool == map[node := 1]
            && |s.donations| == 1 && s.donations[0].terms == Terms(1, user, node, home, Approved, Some(now))
            && BalanceOf(s.bank, user) == (if home then cfg.bonusHome else cfg.bonusIdc)
  {
    hide DonationRuns.Run, Pow10, Approve;
    OneIsAnId();
    RunNothing();
    assert [] + [Submit(1, user, node, !home)] == [Submit(1, user, node, !home)];
    es := Extend([], Submit(1, user, node, !home));
    var t := Terms(1, user, node, home, Pending, None);
    assert DonationRuns.Run(DonationRuns.START, es).db
        == State.State(EMPTY, [Donation(t.(home := !home), 0, 0, 0)], map[]);
    es := Extend(es, EditCheck(0, 0));
    es := Extend(es, EditWrite(0, home));
    var s := State.State(EMPTY, [Donation(t, 0, 0, 0)], map[]);
    assert DonationRuns.Run(DonationRuns.START, es).db == s;
    EmptyBankOk();
    ApprovalIs(s, cfg, 0, now);
    es := Extend(es, Accept(0, cfg, now));
  }
}
