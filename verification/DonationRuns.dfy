/** Whole runs of the donation program: the counters of every donation agree
    with the ledger, the bonus is paid once, and the node pool holds exactly
    the approved donations unless an applicant's edit has overtaken an
    approval. An edit reads the donation and writes it later without looking
    again. */
module DonationRuns {
  import opened Calendar
  import opened Donations
  import opened Keys
  import opened Options
  import opened Points
  import opened Settlement
  import opened Text
  import P = Presence

  /** edits holds, for every edit under way, the donation it has checked. */
  datatype Office = Office(db: State, edits: map<nat, nat>)

  const START := Office(State.State(EMPTY, [], map[]), map[])

  datatype Event =
    | Submit(id: nat, user: nat, node: P.NodeId, home: bool)
    | EditCheck(checking: nat, edited: nat)
    | EditWrite(writing: nat, toHome: bool)
    | Accept(accepted: nat, cfg: Config, at: int)
    | TakeOff(taken: nat, to: Review, now: int)
    | SettleOn(w: World, day: int)
    | OwnNode(own: P.NodeId)
    | DropNode(drop: P.NodeId)
    | OtherPoints(op: Op)

  predicate NodeUsed(donations: seq<Donation>, n: P.NodeId) {
    exists i | 0 <= i < |donations| :: donations[i].terms.node == n
  }

  predicate IdUsed(donations: seq<Donation>, id: nat) {
    exists i | 0 <= i < |donations| :: donations[i].terms.id == id
  }

  /** The database hands out unused 64-bit ids; node names are unique. */
  function Submitted(s: State, id: nat, user: nat, node: P.NodeId, home: bool): State {
    if id == 0 || id >= Pow10(20) || IdUsed(s.donations, id) || NodeUsed(s.donations, node) || node in s.pool then s
    else s.(donations := s.donations + [Donation(Terms(id, user, node, home, Pending, None), 0, 0, 0)])
  }

  function Reviewed(s: State, i: nat, review: Review): State
    requires i < |s.donations|
  {
    s.(donations := s.donations[i := s.donations[i].(terms := s.donations[i].terms.(review := review))])
  }

  /** The unguarded write of an edit. */
  function Edited(s: State, i: nat, home: bool): State
    requires i < |s.donations|
  {
    var d := s.donations[i];
    s.(donations := s.donations[i := d.(terms := d.terms.(home := home, review := Pending))])
  }

  /** The operator removes a node definition; a donation it came from is
      disabled. */
  function Dropped(s: State, n: P.NodeId, m: nat): State
    requires m <= |s.donations|
  {
    if n !in s.pool then s
    else if m == 0 then s.(pool := s.pool - {n})
    else
      var t := s.donations[m - 1].terms;
      if t.id == s.pool[n] && t.review.Approved? then Reviewed(s, m - 1, Disabled).(pool := s.pool - {n})
      else Dropped(s, n, m - 1)
  }

  predicate MayEdit(s: State, i: nat) {
    i < |s.donations| && (s.donations[i].terms.review.Pending? || s.donations[i].terms.review.Rejected?)
  }

  ghost function DbStep(s: State, e: Event): State {
    match e
    case Submit(id, user, node, home) => Submitted(s, id, user, node, home)
    case EditCheck(_, _) => s
    case EditWrite(_, _) => s
    case Accept(i, cfg, at) => if i < |s.donations| then Approve(s, cfg, i, at) else s
    case TakeOff(i, to, now) =>
      if i < |s.donations| && !to.Approved? && !to.Pending? then OffPool(s, i, to, now) else s
    case SettleOn(w, day) => SettleDay(s, w, day)
    case OwnNode(n) => if n in s.pool then s else s.(pool := s.pool[n := 0])
    case DropNode(n) => Dropped(s, n, |s.donations|)
    case OtherPoints(op) =>
      if op.kind == ByDonate || op.kind == ByDonateDay then s else s.(bank := Commit(s.bank, op))
  }

  ghost function Step(w: Office, e: Event): Office {
    match e
    case EditCheck(call, i) =>
      if call in w.edits || !MayEdit(w.db, i) then w else w.(edits := w.edits[call := i])
    case EditWrite(call, home) =>
      if call !in w.edits || w.edits[call] >= |w.db.donations| then w
      else Office(Edited(w.db, w.edits[call], home), w.edits - {call})
    case _ => w.(db := DbStep(w.db, e))
  }

  ghost function Run(w: Office, es: seq<Event>): Office {
    if es == [] then w else Step(Run(w, es[..|es| - 1]), es[|es| - 1])
  }

  /** The donations (by id) whose approval an edit has overwritten and that
      have been neither approved again, nor taken off, nor dropped since. */
  ghost function Overtaken(w: Office, e: Event, over: set<nat>): set<nat> {
    match e
    case EditWrite(call, _) =>
      if call in w.edits && w.edits[call] < |w.db.donations| && w.db.donations[w.edits[call]].terms.review.Approved?
      then over + {w.db.donations[w.edits[call]].terms.id} else over
    case Accept(i, cfg, at) =>
      if i < |w.db.donations| && Approve(w.db, cfg, i, at).donations[i].terms.review.Approved?
      then over - {w.db.donations[i].terms.id} else over
    case TakeOff(i, to, now) =>
      if i < |w.db.donations| && !to.Approved? && !to.Pending? then over - {w.db.donations[i].terms.id} else over
    case DropNode(n) => if n in w.db.pool then over - {w.db.pool[n]} else over
    case _ => over
  }

  ghost function RunOvertaken(w: Office, es: seq<Event>): set<nat> {
    if es == [] then {}
    else Overtaken(Run(w, es[..|es| - 1]), es[|es| - 1], RunOvertaken(w, es[..|es| - 1]))
  }

  // ---------- counters and ledger ----------

  function Total(moves: seq<(nat, int)>): int {
    if moves == [] then 0 else Total(moves[..|moves| - 1]) + moves[|moves| - 1].1
  }

  /** The donation's rows in the ledger: one bonus at most, and as many daily
      rewards as its counters say, all booked for its owner. */
  ghost predicate RowsAgree(ledger: seq<Row>, d: Donation) {
    var days, bonus := Moves(ledger, ByDonateDay, Dec(d.terms.id)), Moves(ledger, ByDonate, Dec(d.terms.id));
    && |days| == d.rewardDays && Total(days) == d.dailyEarned
    && (forall i | 0 <= i < |days| :: days[i].0 == d.terms.user)
    && bonus == if d.bonusPaid == 0 then [] else [(d.terms.user, d.bonusPaid)]
  }

  ghost predicate CountersOk(ledger: seq<Row>, donations: seq<Donation>) {
    forall i | 0 <= i < |donations| :: RowsAgree(ledger, donations[i])
  }

  ghost predicate NoRows(ledger: seq<Row>, id: nat) {
    Moves(ledger, ByDonateDay, Dec(id)) == [] && Moves(ledger, ByDonate, Dec(id)) == []
  }

  ghost predicate UnusedHaveNoRows(ledger: seq<Row>, donations: seq<Donation>) {
    forall id: nat | !IdUsed(donations, id) :: NoRows(ledger, id)
  }

  predicate Pooled(pool: map<P.NodeId, nat>, t: Terms) {
    t.node in pool && pool[t.node] == t.id
  }

  ghost predicate PoolOk(donations: seq<Donation>, pool: map<P.NodeId, nat>, over: set<nat>) {
    && (forall i, j | 0 <= i < j < |donations| :: donations[i].terms.node != donations[j].terms.node)
    && (forall i | 0 <= i < |donations| ::
          var t := donations[i].terms;
          && (Pooled(pool, t) <==> t.review.Approved? || t.id in over)
          && (t.review.Approved? ==> t.id !in over))
    && (forall n | n in pool && pool[n] != 0 ::
          exists i | 0 <= i < |donations| :: donations[i].terms.node == n && donations[i].terms.id == pool[n])
    && (forall id | id in over :: IdUsed(donations, id))
  }

  ghost predicate Inv(s: State, over: set<nat>) {
    && LedgerInv(s.bank) && IdsOk(s.donations) && PoolOk(s.donations, s.pool, over)
    && CountersOk(s.bank.ledger, s.donations) && UnusedHaveNoRows(s.bank.ledger, s.donations)
  }

  lemma RefFits(id: nat)
    requires id < Pow10(20)
    ensures Truncate(Dec(id), REF_LIMIT) == Dec(id)
  {
    DecLength(id, 20);
  }

  lemma TotalAppend(moves: seq<(nat, int)>, x: (nat, int))
    ensures Total(moves + [x]) == Total(moves) + x.1
  {
    assert (moves + [x])[..|moves|] == moves;
  }

  lemma MovesForeign(ledger: seq<Row>, row: Row, kind: Kind, refId: string)
    requires row.kind != kind || row.refId != refId
    ensures Moves(ledger + [row], kind, refId) == Moves(ledger, kind, refId)
  {
    MovesAppend(ledger, row, kind, refId);
  }

  /** A row that is not about this donation leaves its agreement alone. */
  lemma ForeignRow(ledger: seq<Row>, row: Row, d: Donation)
    requires row.refId != Dec(d.terms.id) || (row.kind != ByDonate && row.kind != ByDonateDay)
    ensures RowsAgree(ledger, d) ==> RowsAgree(ledger + [row], d)
    ensures NoRows(ledger, d.terms.id) ==> NoRows(ledger + [row], d.terms.id)
  {
    hide Moves;
    MovesForeign(ledger, row, ByDonateDay, Dec(d.terms.id));
    MovesForeign(ledger, row, ByDonate, Dec(d.terms.id));
  }

  lemma DayRow(ledger: seq<Row>, row: Row, d: Donation, daily: int)
    requires RowsAgree(ledger, d) && row.kind == ByDonateDay && row.refId == Dec(d.terms.id)
    requires row.user == d.terms.user && row.delta == daily
    ensures RowsAgree(ledger + [row], Rewarded(d, daily))
  {
    hide Moves, Total;
    var days := Moves(ledger, ByDonateDay, Dec(d.terms.id));
    MovesAppend(ledger, row, ByDonateDay, Dec(d.terms.id));
    MovesForeign(ledger, row, ByDonate, Dec(d.terms.id));
    TotalAppend(days, (row.user, row.delta));
  }

  lemma BonusRow(ledger: seq<Row>, row: Row, d: Donation, d': Donation)
    requires RowsAgree(ledger, d) && d.bonusPaid == 0 && row.kind == ByDonate && row.refId == Dec(d.terms.id)
    requires row.user == d.terms.user && row.delta == d'.bonusPaid != 0
    requires d'.terms.id == d.terms.id && d'.terms.user == d.terms.user
    requires d'.dailyEarned == d.dailyEarned && d'.rewardDays == d.rewardDays
    ensures RowsAgree(ledger + [row], d')
  {
    hide Moves, Total;
    MovesForeign(ledger, row, ByDonateDay, Dec(d.terms.id));
    MovesAppend(ledger, row, ByDonate, Dec(d.terms.id));
  }

  /** One booked row together with one donation brought up to date. */
  lemma RowKeepsLedger(ledger: seq<Row>, row: Row, donations: seq<Donation>, i: nat, d': Donation)
    requires CountersOk(ledger, donations) && UnusedHaveNoRows(ledger, donations) && IdsOk(donations)
    requires i < |donations| && row.refId == Dec(donations[i].terms.id) && RowsAgree(ledger + [row], d')
    requires d'.terms.id == donations[i].terms.id
    ensures CountersOk(ledger + [row], donations[i := d'])
    ensures UnusedHaveNoRows(ledger + [row], donations[i := d'])
  {
    hide RowsAgree, NoRows;
    var donations' := donations[i := d'];
    forall j | 0 <= j < |donations'|
      ensures RowsAgree(ledger + [row], donations'[j])
    {
      if j != i {
        assert RowsAgree(ledger, donations[j]);
        if Dec(donations[j].terms.id) == Dec(donations[i].terms.id) {
          DecInjective(donations[j].terms.id, donations[i].terms.id);
        }
        ForeignRow(ledger, row, donations[j]);
      }
    }
    assert donations'[i].terms.id == donations[i].terms.id;
    forall id: nat | !IdUsed(donations', id)
      ensures NoRows(ledger + [row], id)
    {
      SameIds(donations, i, d', id);
      if Dec(id) == Dec(donations[i].terms.id) {
        DecInjective(id, donations[i].terms.id);
      }
      ForeignRow(ledger, row, Donation(Terms(id, 0, "", false, Pending, None), 0, 0, 0));
    }
  }

  lemma SameIds(donations: seq<Donation>, i: nat, d': Donation, id: nat)
    requires i < |donations| && d'.terms.id == donations[i].terms.id
    ensures IdUsed(donations[i := d'], id) <==> IdUsed(donations, id)
  {
    var donations' := donations[i := d'];
    assert forall j | 0 <= j < |donations| :: donations'[j].terms.id == donations[j].terms.id;
    if IdUsed(donations, id) {
      var j :| 0 <= j < |donations| && donations[j].terms.id == id;
      assert donations'[j].terms.id == id;
    }
  }

  /** Changing what the ledger does not record. */
  lemma TermsKeepLedger(ledger: seq<Row>, donations: seq<Donation>, i: nat, d': Donation)
    requires CountersOk(ledger, donations) && UnusedHaveNoRows(ledger, donations) && IdsOk(donations) && i < |donations|
    requires d'.terms.id == donations[i].terms.id && d'.terms.user == donations[i].terms.user
    requires d' == donations[i].(terms := d'.terms)
    ensures CountersOk(ledger, donations[i := d']) && UnusedHaveNoRows(ledger, donations[i := d'])
    ensures IdsOk(donations[i := d'])
  {
    hide NoRows, Moves, Total, IdUsed;
    forall id: nat | !IdUsed(donations[i := d'], id)
      ensures NoRows(ledger, id)
    {
      SameIds(donations, i, d', id);
    }
    assert RowsAgree(ledger, donations[i]);
  }

  lemma IdsStay(donations: seq<Donation>, i: nat, d': Donation)
    requires IdsOk(donations) && i < |donations| && d'.terms.id == donations[i].terms.id
    ensures IdsOk(donations[i := d'])
  {
  }

  /** What the pool lemmas need to know about the other donations. */
  lemma OneChanged(donations: seq<Donation>, i: nat, d': Donation)
    requires IdsOk(donations) && i < |donations| && d'.terms.id == donations[i].terms.id
    requires d'.terms.node == donations[i].terms.node
    ensures var donations' := donations[i := d'];
            && (forall j | 0 <= j < |donations| ::
                  && donations'[j].terms.node == donations[j].terms.node
                  && donations'[j].terms.id == donations[j].terms.id)
            && (forall j | 0 <= j < |donations| && j != i ::
                  donations'[j] == donations[j] && donations[j].terms.id != d'.terms.id)
            && (forall id: nat :: IdUsed(donations', id) <==> IdUsed(donations, id))
  {
    forall id: nat
      ensures IdUsed(donations[i := d'], id) <==> IdUsed(donations, id)
    {
      SameIds(donations, i, d', id);
    }
  }

  /** Entries of the pool still point to a donation. */
  lemma EntriesStay(donations: seq<Donation>, donations': seq<Donation>, pool: map<P.NodeId, nat>, over: set<nat>)
    requires PoolOk(donations, pool, over) && |donations| <= |donations'|
    requires forall j | 0 <= j < |donations| ::
               donations'[j].terms.node == donations[j].terms.node && donations'[j].terms.id == donations[j].terms.id
    ensures forall n | n in pool && pool[n] != 0 ::
              exists j | 0 <= j < |donations'| :: donations'[j].terms.node == n && donations'[j].terms.id == pool[n]
  {
    forall n | n in pool && pool[n] != 0
      ensures exists j | 0 <= j < |donations'| :: donations'[j].terms.node == n && donations'[j].terms.id == pool[n]
    {
      var j :| 0 <= j < |donations| && donations[j].terms.node == n && donations[j].terms.id == pool[n];
      assert donations'[j].terms.node == n;
    }
  }

  lemma PoolStays(donations: seq<Donation>, pool: map<P.NodeId, nat>, over: set<nat>, i: nat, d': Donation)
    requires PoolOk(donations, pool, over) && IdsOk(donations) && i < |donations|
    requires d'.terms.id == donations[i].terms.id && d'.terms.node == donations[i].terms.node
    requires d'.terms.review.Approved? == donations[i].terms.review.Approved?
    ensures PoolOk(donations[i := d'], pool, over)
  {
    OneChanged(donations, i, d');
    EntriesStay(donations, donations[i := d'], pool, over);
    hide IdsOk, IdUsed;
  }

  /** The payment of one day. */
  lemma PayDayKeepsInv(s: State, over: set<nat>, w: World, i: nat, k: int)
    requires Inv(s, over) && i < |s.donations| && InCalendar(w.cal, k)
    ensures Inv(PayDay(s, w, i, k), over)
  {
    var t := s.donations[i].terms;
    var op := DayOp(w, t, k);
    if Judge(s.bank, op) == Applied {
      var row := RowFor(s.bank, op);
      var d' := Rewarded(s.donations[i], Daily(w.cfg, t.home));
      CommitKeepsInv(s.bank, op);
      Ids(s.donations, i);
      RefFits(t.id);
      assert RowsAgree(s.bank.ledger, s.donations[i]);
      hide RowsAgree, CountersOk, UnusedHaveNoRows, LedgerInv, PoolOk, IdsOk, KeyOf, Judge, Dec, AccountOf, Moved;
      DayRow(s.bank.ledger, row, s.donations[i], op.delta);
      RowKeepsLedger(s.bank.ledger, row, s.donations, i, d');
      IdsStay(s.donations, i, d');
      PoolStays(s.donations, s.pool, over, i, d');
    }
  }

  lemma {:induction false} SettleKeepsInv(s: State, over: set<nat>, w: World, k: int, m: nat)
    requires Inv(s, over) && m <= |s.donations| && InCalendar(w.cal, k)
    ensures Inv(SettleUpTo(s, w, k, m), over)
    decreases m
  {
    hide Inv, PayDay, Due;
    if m > 0 {
      SettleKeepsInv(s, over, w, k, m - 1);
      PayDayKeepsInv(SettleUpTo(s, w, k, m - 1), over, w, m - 1, k);
    }
  }

  // ---------- the node pool ----------

  lemma PoolGains(donations: seq<Donation>, pool: map<P.NodeId, nat>, over: set<nat>, i: nat, d': Donation)
    requires PoolOk(donations, pool, over) && IdsOk(donations) && i < |donations|
    requires d'.terms.id == donations[i].terms.id && d'.terms.node == donations[i].terms.node
    requires d'.terms.review.Approved?
    ensures PoolOk(donations[i := d'], pool[d'.terms.node := d'.terms.id], over - {d'.terms.id})
  {
    var donations', pool' := donations[i := d'], pool[d'.terms.node := d'.terms.id];
    OneChanged(donations, i, d');
    EntriesStay(donations, donations', pool, over);
    hide IdsOk, IdUsed;
    assert donations'[i].terms.node == d'.terms.node;
    forall j | 0 <= j < |donations| && j != i
      ensures Pooled(pool', donations'[j].terms) <==> Pooled(pool, donations[j].terms)
    {
      assert donations[j].terms.node != donations[i].terms.node;
    }
  }

  lemma PoolLoses(
      donations: seq<Donation>, pool: map<P.NodeId, nat>, over: set<nat>, i: nat, d': Donation,
      pool': map<P.NodeId, nat>)
    requires PoolOk(donations, pool, over) && IdsOk(donations) && i < |donations|
    requires d'.terms.id == donations[i].terms.id && d'.terms.node == donations[i].terms.node
    requires !d'.terms.review.Approved?
    requires pool' == WithoutDonation(pool, d'.terms.id)
    ensures PoolOk(donations[i := d'], pool', over - {d'.terms.id})
  {
    OneChanged(donations, i, d');
    EntriesStay(donations, donations[i := d'], pool, over);
    hide IdsOk, IdUsed;
    forall j | 0 <= j < |donations|
      ensures Pooled(pool', donations[j].terms) <==> j != i && Pooled(pool, donations[j].terms)
    {
    }
  }

  /** An edit leaves the pool as it is; if it overwrites an approval, the
      donation stays in the pool unapproved. */
  lemma PoolOvertaken(donations: seq<Donation>, pool: map<P.NodeId, nat>, over: set<nat>, i: nat, d': Donation)
    requires PoolOk(donations, pool, over) && IdsOk(donations) && i < |donations|
    requires d'.terms.id == donations[i].terms.id && d'.terms.node == donations[i].terms.node
    requires donations[i].terms.review.Approved? && !d'.terms.review.Approved?
    ensures PoolOk(donations[i := d'], pool, over + {d'.terms.id})
  {
    OneChanged(donations, i, d');
    EntriesStay(donations, donations[i := d'], pool, over);
    assert IdUsed(donations, d'.terms.id);
    hide IdsOk, IdUsed;
  }

  lemma ApproveKeepsInv(s: State, over: set<nat>, cfg: Config, i: nat, now: int)
    requires Inv(s, over) && i < |s.donations|
    ensures var s' := Approve(s, cfg, i, now);
            Inv(s', if s'.donations[i].terms.review.Approved? then over - {s.donations[i].terms.id} else over)
  {
    var s' := Approve(s, cfg, i, now);
    if s' == s {
      hide Inv, Approve;
      NotOver(s, over, i);
      assert s.donations[i].terms.review.Approved? ==> over - {s.donations[i].terms.id} == over;
    } else {
      hide Inv;
      ApprovedKeepsInv(s, over, cfg, i, now);
    }
  }

  lemma ApprovedKeepsInv(s: State, over: set<nat>, cfg: Config, i: nat, now: int)
    requires Inv(s, over) && i < |s.donations| && Approve(s, cfg, i, now) != s
    ensures Inv(Approve(s, cfg, i, now), over - {s.donations[i].terms.id})
  {
    var d := s.donations[i];
    var d' := Approve(s, cfg, i, now).donations[i];
    var op := BonusOp(cfg, d.terms);
    var row := RowFor(s.bank, op);
    CommitKeepsInv(s.bank, op);
    Ids(s.donations, i);
    RefFits(d.terms.id);
    assert RowsAgree(s.bank.ledger, d);
    hide RowsAgree, CountersOk, UnusedHaveNoRows, LedgerInv, PoolOk, IdsOk, KeyOf, Judge, Dec, AccountOf, Moved;
    PoolGains(s.donations, s.pool, over, i, d');
    IdsStay(s.donations, i, d');
    if BonusDue(cfg, d) && Judge(s.bank, op) == Applied {
      BonusRow(s.bank.ledger, row, d, d');
      RowKeepsLedger(s.bank.ledger, row, s.donations, i, d');
    } else {
      TermsKeepLedger(s.bank.ledger, s.donations, i, d');
    }
  }

  lemma NotOver(s: State, over: set<nat>, i: nat)
    requires Inv(s, over) && i < |s.donations|
    ensures s.donations[i].terms.review.Approved? ==> s.donations[i].terms.id !in over
  {
  }

  lemma OffPoolKeepsInv(s: State, over: set<nat>, i: nat, to: Review, now: int)
    requires Inv(s, over) && i < |s.donations| && !to.Approved?
    ensures Inv(OffPool(s, i, to, now), over - {s.donations[i].terms.id})
  {
    hide CountersOk, UnusedHaveNoRows, LedgerInv, PoolOk, IdsOk;
    var d' := OffPool(s, i, to, now).donations[i];
    TermsKeepLedger(s.bank.ledger, s.donations, i, d');
    PoolLoses(s.donations, s.pool, over, i, d', WithoutDonation(s.pool, d'.terms.id));
  }

  lemma EditKeepsInv(s: State, over: set<nat>, i: nat, home: bool)
    requires Inv(s, over) && i < |s.donations|
    ensures Inv(Edited(s, i, home),
                if s.donations[i].terms.review.Approved? then over + {s.donations[i].terms.id} else over)
  {
    hide CountersOk, UnusedHaveNoRows, LedgerInv, PoolOk, IdsOk;
    var d' := Edited(s, i, home).donations[i];
    TermsKeepLedger(s.bank.ledger, s.donations, i, d');
    if s.donations[i].terms.review.Approved? {
      PoolOvertaken(s.donations, s.pool, over, i, d');
    } else {
      PoolStays(s.donations, s.pool, over, i, d');
    }
  }

  lemma SubmitKeepsInv(s: State, over: set<nat>, id: nat, user: nat, node: P.NodeId, home: bool)
    requires Inv(s, over)
    ensures Inv(Submitted(s, id, user, node, home), over)
  {
    hide LedgerInv, Moves;
    var s' := Submitted(s, id, user, node, home);
    if s' != s {
      var d := s'.donations[|s.donations|];
      assert NoRows(s.bank.ledger, id);
      assert RowsAgree(s.bank.ledger, d);
      hide RowsAgree, NoRows;
      forall x: nat | !IdUsed(s'.donations, x)
        ensures NoRows(s.bank.ledger, x)
      {
        IdStaysUsed(s.donations, d, x);
      }
      SubmitPool(s, over, d, s');
    }
  }

  lemma IdStaysUsed(donations: seq<Donation>, d: Donation, id: nat)
    ensures IdUsed(donations, id) ==> IdUsed(donations + [d], id)
  {
    if IdUsed(donations, id) {
      var j :| 0 <= j < |donations| && donations[j].terms.id == id;
      assert (donations + [d])[j].terms.id == id;
    }
  }

  lemma SubmitPool(s: State, over: set<nat>, d: Donation, s': State)
    requires PoolOk(s.donations, s.pool, over) && !NodeUsed(s.donations, d.terms.node) && d.terms.node !in s.pool
    requires !IdUsed(s.donations, d.terms.id)
    requires s'.donations == s.donations + [d] && s'.pool == s.pool && d.terms.review.Pending?
    ensures PoolOk(s'.donations, s'.pool, over)
  {
    EntriesStay(s.donations, s'.donations, s.pool, over);
    forall id | id in over
      ensures IdUsed(s'.donations, id)
    {
      IdStaysUsed(s.donations, d, id);
    }
  }

  /** Dropping a node disables the approved donation it came from. */
  lemma {:induction false} DropDonated(s: State, n: P.NodeId, i: nat, m: nat)
    requires IdsOk(s.donations) && n in s.pool && i < m <= |s.donations|
    requires s.donations[i].terms.id == s.pool[n] && s.donations[i].terms.review.Approved?
    ensures Dropped(s, n, m) == Reviewed(s, i, Disabled).(pool := s.pool - {n})
  {
    if i < m - 1 {
      assert s.donations[m - 1].terms.id != s.pool[n];
      DropDonated(s, n, i, m - 1);
    }
  }

  lemma {:induction false} DropUnapproved(s: State, n: P.NodeId, m: nat)
    requires n in s.pool && m <= |s.donations|
    requires forall j | 0 <= j < m :: !(s.donations[j].terms.id == s.pool[n] && s.donations[j].terms.review.Approved?)
    ensures Dropped(s, n, m) == s.(pool := s.pool - {n})
  {
    if m > 0 {
      DropUnapproved(s, n, m - 1);
    }
  }

  lemma OwnNodeGone(donations: seq<Donation>, pool: map<P.NodeId, nat>, over: set<nat>, n: P.NodeId)
    requires PoolOk(donations, pool, over) && IdsOk(donations) && n in pool && pool[n] == 0
    ensures PoolOk(donations, pool - {n}, over) && 0 !in over
  {
    assert forall i | 0 <= i < |donations| ::
             Pooled(pool - {n}, donations[i].terms) <==> Pooled(pool, donations[i].terms);
  }

  lemma DropKeepsInv(s: State, over: set<nat>, n: P.NodeId)
    requires Inv(s, over)
    ensures Inv(Dropped(s, n, |s.donations|), if n in s.pool then over - {s.pool[n]} else over)
  {
    hide CountersOk, UnusedHaveNoRows, LedgerInv, Dropped;
    if n !in s.pool {
      DropUnknown(s, n, |s.donations|);
    } else if s.pool[n] == 0 {
      DropUnapproved(s, n, |s.donations|);
      OwnNodeGone(s.donations, s.pool, over, n);
      assert over - {0} == over;
    } else {
      var i :| 0 <= i < |s.donations| && s.donations[i].terms.node == n && s.donations[i].terms.id == s.pool[n];
      DropDonation(s, over, n, i);
    }
  }

  lemma DropDonation(s: State, over: set<nat>, n: P.NodeId, i: nat)
    requires Inv(s, over) && n in s.pool && s.pool[n] != 0
    requires i < |s.donations| && s.donations[i].terms.node == n && s.donations[i].terms.id == s.pool[n]
    ensures Inv(Dropped(s, n, |s.donations|), over - {s.pool[n]})
  {
    OneNodeEach(s, over, n, i);
    if s.donations[i].terms.review.Approved? {
      DropDonated(s, n, i, |s.donations|);
      var d' := Reviewed(s, i, Disabled).donations[i];
      hide CountersOk, UnusedHaveNoRows, LedgerInv, Dropped, PoolOk, IdsOk;
      TermsKeepLedger(s.bank.ledger, s.donations, i, d');
      PoolLoses(s.donations, s.pool, over, i, d', s.pool - {n});
    } else {
      forall j | 0 <= j < |s.donations| && s.donations[j].terms.id == s.pool[n]
        ensures !s.donations[j].terms.review.Approved?
      {
        DistinctIds(s.donations, i, j);
      }
      DropUnapproved(s, n, |s.donations|);
      hide CountersOk, UnusedHaveNoRows, LedgerInv, Dropped, PoolOk, IdsOk;
      PoolLoses(s.donations, s.pool, over, i, s.donations[i], s.pool - {n});
      assert s.donations[i := s.donations[i]] == s.donations;
    }
  }

  lemma DropUnknown(s: State, n: P.NodeId, m: nat)
    requires n !in s.pool && m <= |s.donations|
    ensures Dropped(s, n, m) == s
  {
  }

  lemma OneNodeEach(s: State, over: set<nat>, n: P.NodeId, i: nat)
    requires PoolOk(s.donations, s.pool, over) && IdsOk(s.donations) && n in s.pool
    requires i < |s.donations| && s.donations[i].terms.id == s.pool[n] && s.donations[i].terms.node == n
    ensures s.pool - {n} == WithoutDonation(s.pool, s.donations[i].terms.id)
  {
    forall m | m in s.pool && s.pool[m] == s.pool[n]
      ensures m == n
    {
      var j :| 0 <= j < |s.donations| && s.donations[j].terms.node == m && s.donations[j].terms.id == s.pool[m];
      DistinctIds(s.donations, i, j);
    }
  }

  lemma OtherKeepsInv(s: State, over: set<nat>, op: Op)
    requires Inv(s, over) && op.kind != ByDonate && op.kind != ByDonateDay
    ensures Inv(s.(bank := Commit(s.bank, op)), over)
  {
    CommitKeepsInv(s.bank, op);
    hide LedgerInv, Judge, PoolOk, IdsOk, RowsAgree, NoRows;
    if Judge(s.bank, op) == Applied {
      var row := RowFor(s.bank, op);
      forall i | 0 <= i < |s.donations|
        ensures RowsAgree(s.bank.ledger + [row], s.donations[i])
      {
        assert RowsAgree(s.bank.ledger, s.donations[i]);
        ForeignRow(s.bank.ledger, row, s.donations[i]);
      }
      forall id: nat | !IdUsed(s.donations, id)
        ensures NoRows(s.bank.ledger + [row], id)
      {
        ForeignRow(s.bank.ledger, row, Donation(Terms(id, 0, "", false, Pending, None), 0, 0, 0));
      }
    }
  }

  lemma OwnNodeKeepsInv(s: State, over: set<nat>, n: P.NodeId)
    requires Inv(s, over) && n !in s.pool
    ensures Inv(s.(pool := s.pool[n := 0]), over)
  {
    hide LedgerInv, CountersOk, UnusedHaveNoRows;
    var pool' := s.pool[n := 0];
    assert forall i | 0 <= i < |s.donations| ::
             Pooled(pool', s.donations[i].terms) <==> Pooled(s.pool, s.donations[i].terms);
  }

  lemma StepKeepsInv(w: Office, over: set<nat>, e: Event)
    requires Inv(w.db, over)
    ensures Inv(Step(w, e).db, Overtaken(w, e, over))
  {
    hide Inv, Approve, OffPool, Edited, Submitted, Dropped, SettleUpTo, Commit;
    var s := w.db;
    match e {
      case Submit(id, user, node, home) => SubmitKeepsInv(s, over, id, user, node, home);
      case EditCheck(_, _) =>
      case EditWrite(call, home) =>
        if call in w.edits && w.edits[call] < |s.donations| { EditKeepsInv(s, over, w.edits[call], home); }
      case Accept(i, cfg, at) => if i < |s.donations| { ApproveKeepsInv(s, over, cfg, i, at); }
      case TakeOff(i, to, now) =>
        if i < |s.donations| && !to.Approved? && !to.Pending? { OffPoolKeepsInv(s, over, i, to, now); }
      case SettleOn(world, day) => if InCalendar(world.cal, day) { SettleKeepsInv(s, over, world, day, |s.donations|); }
      case OwnNode(n) => if n !in s.pool { OwnNodeKeepsInv(s, over, n); }
      case DropNode(n) => DropKeepsInv(s, over, n);
      case OtherPoints(op) => if op.kind != ByDonate && op.kind != ByDonateDay { OtherKeepsInv(s, over, op); }
    }
  }

  lemma {:induction false} RunKeepsInv(es: seq<Event>)
    ensures Inv(Run(START, es).db, RunOvertaken(START, es))
  {
    hide Inv, Step, Overtaken;
    if es == [] {
      EmptyOk();
    } else {
      RunKeepsInv(es[..|es| - 1]);
      StepKeepsInv(Run(START, es[..|es| - 1]), RunOvertaken(START, es[..|es| - 1]), es[|es| - 1]);
    }
  }

  lemma EmptyOk()
    ensures Inv(START.db, {})
  {
  }

  /** After every run from an empty database - donations submitted, edited,
      approved, taken off and approved again, days settled under changing
      settings, other point operations in between - reward_days and
      daily_earned are the number and the sum of the donation's donate_day
      rows, and its bonus was booked at most once and is what bonus_paid says. */
  lemma {:induction false} CountersOverRuns(es: seq<Event>, i: nat)
    requires i < |Run(START, es).db.donations|
    ensures var s := Run(START, es).db;
            var d := s.donations[i];
            var days := Moves(s.bank.ledger, ByDonateDay, Dec(d.terms.id));
            && |days| == d.rewardDays && Total(days) == d.dailyEarned
            && (forall k | 0 <= k < |days| :: days[k].0 == d.terms.user)
            && Moves(s.bank.ledger, ByDonate, Dec(d.terms.id))
               == (if d.bonusPaid == 0 then [] else [(d.terms.user, d.bonusPaid)])
            && LedgerInv(s.bank)
  {
    hide Run, Moves, Total, LedgerInv, PoolOk;
    RunKeepsInv(es);
    assert RowsAgree(Run(START, es).db.bank.ledger, Run(START, es).db.donations[i]);
  }

  /** A donation is approved exactly while the node pool lists it, if and only
      if no edit has overtaken its approval. */
  lemma {:induction false} ApprovedIffPooled(es: seq<Event>, i: nat)
    requires i < |Run(START, es).db.donations|
    ensures var s := Run(START, es).db;
            var t := s.donations[i].terms;
            (t.review.Approved? <==> Pooled(s.pool, t)) <==> t.id !in RunOvertaken(START, es)
  {
    hide Run, RunOvertaken, LedgerInv, CountersOk, UnusedHaveNoRows, IdsOk;
    RunKeepsInv(es);
  }

  lemma Extend(es: seq<Event>, e: Event) returns (es': seq<Event>)
    ensures es' == es + [e] && Run(START, es') == Step(Run(START, es), e)
  {
    es' := es + [e];
    assert es'[..|es|] == es;
  }

  lemma FirstSubmission(user: nat, node: P.NodeId) returns (es: seq<Event>)
    ensures var d := Donation(Terms(1, user, node, false, Pending, None), 0, 0, 0);
            Run(START, es) == Office(State.State(EMPTY, [d], map[]), map[])
  {
    OneIsAnId();
    hide Run, Pow10;
    assert Run(START, []) == START by { RunNothing(); }
    es := Extend([], Submit(1, user, node, false));
  }

  lemma FirstApproval(cfg: Config, t: Terms)
    requires cfg.bonusIdc == 0 && !t.home && t.review.Pending?
    ensures var s' := Approve(State.State(EMPTY, [Donation(t, 0, 0, 0)], map[]), cfg, 0, 0);
            && s'.donations == [Donation(t.(review := Approved, reviewedAt := Some(0)), 0, 0, 0)]
            && s'.pool == map[t.node := t.id]
  {
  }

  /** An approval that comes between an edit's check and its write is lost: the
      donation is pending again while its node stays in the pool. */
  lemma EditOvertakesApproval(cfg: Config, user: nat, node: P.NodeId) returns (es: seq<Event>)
    requires cfg.bonusIdc == 0
    ensures var s := Run(START, es).db;
            |s.donations| == 1 && s.donations[0].terms.review.Pending? && Pooled(s.pool, s.donations[0].terms)
  {
    hide Run, Approve;
    es := FirstSubmission(user, node);
    FirstApproval(cfg, Terms(1, user, node, false, Pending, None));
    es := Extend(es, EditCheck(0, 0));
    es := Extend(es, Accept(0, cfg, 0));
    es := Extend(es, EditWrite(0, false));
  }

  lemma OneIsAnId()
    ensures 1 < Pow10(20)
  {
    assert Pow10(20) == 10 * Pow10(19);
  }

  lemma RunNothing()
    ensures Run(START, []) == START
  {
  }
}
