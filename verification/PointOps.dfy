/** The operations that consist of a single balance change: sign-up bonus,
    probe charge and its refund (points_core.go), admin adjustment and the
    grant / deduct interface with its Idempotency-Key header (points_routes.go). */
module PointOps {
  import opened Keys
  import opened Points
  import opened Text

  const MAX_AMOUNT := 1_000_000_000

  datatype Sign = Grant | Deduct

  datatype Reply =
    | BadRequest
    | Fresh(row: Row)
    | Replayed(row: Row, balance: int)
    | Conflict
    | Refused(verdict: Verdict)

  function KindOf(sign: Sign): Kind {
    if sign.Grant? then ByApiGrant else ByApiDeduct
  }

  /** The stored form of a header value; an empty header means no key. */
  function HeaderKey(sign: Sign, header: string): string {
    if header == "" then ""
    else KeyOf(if sign.Grant? then ApiGrant(header) else ApiDeduct(header))
  }

  function ApiOp(sign: Sign, user: nat, amount: int, header: string): Op {
    Op(user, if sign.Grant? then amount else -amount, KindOf(sign), "", HeaderKey(sign, header))
  }

  predicate AmountOk(amount: int) {
    0 < amount <= MAX_AMOUNT
  }

  /** ledgerByIdemKey: position of the row stored under the full key, or -1. */
  function FindKey(ledger: seq<Row>, key: string): (r: int)
    ensures -1 <= r < |ledger|
    ensures r >= 0 ==> ledger[r].key == key
    ensures r == -1 <==> !HasKey(ledger, key)
  {
    if ledger == [] then -1
    else
      var r := FindKey(ledger[..|ledger| - 1], key);
      if r >= 0 then r
      else if ledger[|ledger| - 1].key == key then |ledger| - 1
      else -1
  }

  function ApiReply(b: Bank, sign: Sign, user: nat, amount: int, header: string): Reply {
    var op := ApiOp(sign, user, amount, header);
    if !AmountOk(amount) then BadRequest
    else match Judge(b, op)
      case Applied => Fresh(RowFor(b, op))
      case Duplicate =>
        var r := FindKey(b.ledger, op.key);
        if r >= 0 then Replayed(b.ledger[r], BalanceOf(b, b.ledger[r].user)) else Conflict
      case v => Refused(v)
  }

  function ApiCommit(b: Bank, sign: Sign, user: nat, amount: int, header: string): Bank {
    if AmountOk(amount) then Commit(b, ApiOp(sign, user, amount, header)) else b
  }

  /** A booked key blocks every later change under the same key; the row is
      found again exactly when the key fits its column. */
  lemma BookedKeyBlocks(b: Bank, op: Op, between: seq<Op>, op2: Op)
    requires LedgerInv(b) && Judge(b, op) == Applied
    requires op2.key == op.key != "" && op2.user != 0 && op2.delta != 0
    ensures var later := Run(Post(b, op), between);
            && Commit(later, op2) == later
            && |b.ledger| < |later.ledger| && later.ledger[|b.ledger|] == RowFor(b, op)
            && (|op.key| <= KEY_LIMIT ==> Judge(later, op2) == Duplicate && FindKey(later.ledger, op.key) == |b.ledger|)
            && (|op.key| > KEY_LIMIT ==>
                  Judge(later, op2) in {Duplicate, Insufficient} && FindKey(later.ledger, op.key) == -1)
  {
    var booked := Post(b, op);
    var later := Run(booked, between);
    CommitKeepsInv(b, op);
    LedgerOverRuns(booked, between);
    LedgerOnlyGrows(booked, between);
    var at := |b.ledger|;
    var k := Truncate(op.key, KEY_LIMIT);
    assert k != "";
    assert booked.ledger[at] == RowFor(b, op) == later.ledger[at];
    assert later.ledger[at].key == k;
    assert HasKey(later.ledger, k);
    var r := FindKey(later.ledger, op.key);
    if |op.key| <= KEY_LIMIT {
      assert later.ledger[r].key == later.ledger[at].key;
    } else {
      assert forall i | 0 <= i < |later.ledger| :: |later.ledger[i].key| <= KEY_LIMIT;
    }
  }

  /** Once a call with some key has been booked, no later call under that key
      moves points again, whatever it asks for and whatever happened in
      between; it is answered with the booked row exactly when the stored form
      of the key fits its column, otherwise with a conflict or a refusal. */
  lemma KeyBooksOnce(
    b: Bank, sign: Sign, user: nat, amount: int, header: string,
    between: seq<Op>, user2: nat, amount2: int)
    requires LedgerInv(b) && header != "" && user2 != 0 && AmountOk(amount) && AmountOk(amount2)
    requires Judge(b, ApiOp(sign, user, amount, header)) == Applied
    ensures var op := ApiOp(sign, user, amount, header);
            var later := Run(Post(b, op), between);
            var reply := ApiReply(later, sign, user2, amount2, header);
            && ApiCommit(later, sign, user2, amount2, header) == later
            && (reply.Replayed? <==> |HeaderKey(sign, header)| <= KEY_LIMIT)
            && (reply.Replayed? ==> reply.row == RowFor(b, op)
                                    && reply.balance == BalanceOf(later, op.user))
            && (!reply.Replayed? ==> reply == Conflict || reply == Refused(Insufficient))
  {
    BookedKeyBlocks(b, ApiOp(sign, user, amount, header), between, ApiOp(sign, user2, amount2, header));
  }

  method ApiChange(bank: Ledger, sign: Sign, user: nat, amount: int, header: string) returns (reply: Reply)
    modifies bank
    ensures reply == ApiReply(old(bank.View()), sign, user, amount, header)
    ensures bank.View() == ApiCommit(old(bank.View()), sign, user, amount, header)
  {
    if amount <= 0 || amount > MAX_AMOUNT {
      return BadRequest;
    }
    var op := ApiOp(sign, user, amount, header);
    var v := bank.ChangePoints(op);
    match v
    case Applied =>
      return Fresh(bank.rows[|bank.rows| - 1]);
    case Duplicate =>
      var r := FindKey(bank.rows, op.key);
      if r < 0 {
        return Conflict;
      }
      var prev := bank.rows[r];
      return Replayed(prev, BalanceOf(bank.View(), prev.user));
    case _ =>
      return Refused(v);
  }

  /** The stored form of an API key: the operation's name, a colon, the header. */
  lemma HeaderKeyIs(sign: Sign, header: string)
    ensures HeaderKey(sign, header)
         == if header == "" then "" else (if sign.Grant? then "api_grant:" else "api_deduct:") + header
  {
  }

  /** A grant adds the amount and a deduct takes it, for the user of the call
      and nobody else, with one row that says so. With its key unused a grant
      to a real user always goes through, and a deduct unless the balance is
      below the amount. */
  lemma ApiMovesPoints(b: Bank, sign: Sign, user: nat, amount: int, header: string)
    requires LedgerInv(b)
    ensures var reply, b' := ApiReply(b, sign, user, amount, header), ApiCommit(b, sign, user, amount, header);
            var change := if sign.Grant? then amount else -amount;
            && (reply == BadRequest <==> amount <= 0 || amount > 1_000_000_000)
            && (!reply.Fresh? ==> b' == b)
            && (reply.Fresh? ==>
                  && b'.ledger == b.ledger + [reply.row]
                  && reply.row.user == user && reply.row.delta == change
                  && reply.row.kind == (if sign.Grant? then ByApiGrant else ByApiDeduct)
                  && reply.row.balanceAfter == BalanceOf(b', user) == BalanceOf(b, user) + change)
            && (forall u: nat | u != user :: BalanceOf(b', u) == BalanceOf(b, u))
    ensures 0 < amount <= 1_000_000_000 && user != 0 && KeyUnused(b.ledger, sign, header) ==>
              var reply := ApiReply(b, sign, user, amount, header);
              && (sign.Grant? ==> reply.Fresh?)
              && (sign.Deduct? ==>
                    if BalanceOf(b, user) < amount then reply == Refused(Insufficient) else reply.Fresh?)
  {
    ChangeGoesThrough(b, ApiOp(sign, user, amount, header));
    hide LedgerInv, HasKey, Truncate, KeyOf;
  }

  /** No row carries the call's key, in full or as the column stores it. */
  predicate KeyUnused(ledger: seq<Row>, sign: Sign, header: string) {
    var key := HeaderKey(sign, header);
    key == "" || (!HasKey(ledger, key) && !HasKey(ledger, Truncate(key, KEY_LIMIT)))
  }

  // ---------- sign-up bonus and probe charge ----------

  method GrantSignupBonus(bank: Ledger, enabled: bool, bonus: int, user: nat)
    modifies bank
    ensures bank.View() == if enabled && bonus > 0
                           then Commit(old(bank.View()), SignupOp(user, bonus))
                           else old(bank.View())
  {
    if !enabled || bonus <= 0 {
      return;
    }
    var _ := bank.ChangePoints(SignupOp(user, bonus));
  }

  function SignupOp(user: nat, bonus: int): Op {
    Op(user, bonus, BySignup, "", KeyOf(Signup(user)))
  }

  /** However often a user is registered and whatever happens in between, the
      sign-up bonus is paid once. */
  lemma SignupPaysOnce(b: Bank, user: nat, bonus: int, between: seq<Op>, bonus2: int)
    requires LedgerInv(b) && user < Pow10(20) && bonus2 > 0
    requires Judge(b, SignupOp(user, bonus)) == Applied
    ensures var later := Run(Post(b, SignupOp(user, bonus)), between);
            Commit(later, SignupOp(user, bonus2)) == later
  {
    var op := SignupOp(user, bonus);
    var booked := Post(b, op);
    InternalKeysFit(Signup(user));
    LedgerOnlyGrows(booked, between);
    assert booked.ledger[|b.ledger|].key == op.key;
    KeyStays(booked.ledger, Run(booked, between).ledger, op.key);
  }

  /** While no sign-up bonus is booked for the user, granting it adds exactly
      the bonus. */
  lemma SignupPays(b: Bank, user: nat, bonus: int)
    requires LedgerInv(b) && 0 < user < Pow10(20) && bonus > 0 && !HasKey(b.ledger, "signup:" + Dec(user))
    ensures var b' := Commit(b, SignupOp(user, bonus));
            && BalanceOf(b', user) == BalanceOf(b, user) + bonus
            && b'.ledger == b.ledger + [Row(user, bonus, BalanceOf(b', user), BySignup, "", "signup:" + Dec(user))]
            && forall u: nat | u != user :: BalanceOf(b', u) == BalanceOf(b, u)
  {
    hide LedgerInv, HasKey, Dec, Pow10, Judge, Post;
    ChangeGoesThrough(b, SignupOp(user, bonus));
    InternalKeysFit(Signup(user));
    assert KeyOf(Signup(user)) == "signup:" + Dec(user);
  }

  function ProbeOp(user: nat, cost: int): Op {
    Op(user, -cost, ByProbe, "", "")
  }

  function ProbeBackOp(user: nat, cost: int): Op {
    Op(user, cost, ByProbeBack, "", "")
  }

  /** The amount taken and whether the probe may run; user 0 is the static
      token and administrators probe for free. */
  method ChargeProbeCost(bank: Ledger, enabled: bool, cost: int, user: nat, isAdmin: bool)
    returns (taken: int, allowed: bool)
    modifies bank
    ensures !enabled || cost <= 0 || user == 0 || isAdmin
            ==> taken == 0 && allowed && bank.View() == old(bank.View())
    ensures enabled && cost > 0 && user != 0 && !isAdmin ==>
              && bank.View() == Commit(old(bank.View()), ProbeOp(user, cost))
              && allowed == (BalanceOf(old(bank.View()), user) >= cost)
              && BalanceOf(bank.View(), user) == BalanceOf(old(bank.View()), user) - taken
              && taken == if allowed then cost else 0
  {
    if !enabled || cost <= 0 || user == 0 || isAdmin {
      return 0, true;
    }
    var v := bank.ChangePoints(ProbeOp(user, cost));
    if v != Applied {
      return 0, false;
    }
    return cost, true;
  }

  method RefundProbeCost(bank: Ledger, user: nat, cost: int)
    modifies bank
    ensures bank.View() == if cost > 0 then Commit(old(bank.View()), ProbeBackOp(user, cost)) else old(bank.View())
  {
    if cost <= 0 {
      return;
    }
    var _ := bank.ChangePoints(ProbeBackOp(user, cost));
  }

  /** Charging for a probe that then could not run and giving the cost back
      restores the balance. */
  lemma ProbeRoundTrip(b: Bank, user: nat, cost: int)
    requires LedgerInv(b) && user != 0 && cost > 0 && BalanceOf(b, user) >= cost
    ensures forall u: nat ::
              BalanceOf(Commit(Commit(b, ProbeOp(user, cost)), ProbeBackOp(user, cost)), u) == BalanceOf(b, u)
    ensures var charged := Commit(b, ProbeOp(user, cost));
            var back := Commit(charged, ProbeBackOp(user, cost));
            && BalanceOf(charged, user) == BalanceOf(b, user) - cost
            && back.ledger == b.ledger + [Row(user, -cost, BalanceOf(b, user) - cost, ByProbe, "", ""),
                                          Row(user, cost, BalanceOf(b, user), ByProbeBack, "", "")]
  {
    var charged := Commit(b, ProbeOp(user, cost));
    assert charged == Post(b, ProbeOp(user, cost));
    assert Judge(charged, ProbeBackOp(user, cost)) == Applied;
  }
}
