/** points_core.go: accounts, the ledger and the single function through which
    every balance change goes. Remark and Operator texts carry no rule and are
    not modelled; RefID is kept because refunds and rewards are found by it. */
module Points {
  import opened Text
  import Keys

  datatype Kind =
    | ByCheckin | BySignup | ByRedeemCode | ByAdmin | ByApiGrant | ByApiDeduct
    | ByOrder | ByRefund | ByProbe | ByProbeBack | ByDonate | ByDonateDay

  datatype Account = Account(balance: int, earned: int, spent: int)

  /** One requested balance change; key "" means no idempotency key. */
  datatype Op = Op(user: nat, delta: int, kind: Kind, refId: string, key: string)

  datatype Row = Row(user: nat, delta: int, balanceAfter: int, kind: Kind, refId: string, key: string)

  datatype Bank = Bank(accounts: map<nat, Account>, ledger: seq<Row>)

  datatype Verdict = Applied | InvalidUser | ZeroDelta | Duplicate | Insufficient

  const EMPTY := Bank(map[], [])
  const REF_LIMIT: nat := 64

  function AccountOf(b: Bank, user: nat): Account {
    if user in b.accounts then b.accounts[user] else Account(0, 0, 0)
  }

  function BalanceOf(b: Bank, user: nat): int {
    AccountOf(b, user).balance
  }

  predicate HasKey(ledger: seq<Row>, key: string) {
    exists i | 0 <= i < |ledger| :: ledger[i].key == key
  }

  /** What applyPoints answers on a given bank. */
  function Judge(b: Bank, op: Op): Verdict {
    if op.user == 0 then InvalidUser
    else if op.delta == 0 then ZeroDelta
    else if op.key != "" && HasKey(b.ledger, op.key) then Duplicate
    else if op.delta < 0 && BalanceOf(b, op.user) < -op.delta then Insufficient
    else if op.key != "" && HasKey(b.ledger, Truncate(op.key, Keys.KEY_LIMIT)) then Duplicate
    else Applied
  }

  function Moved(a: Account, delta: int): Account {
    if delta > 0 then Account(a.balance + delta, a.earned + delta, a.spent)
    else Account(a.balance + delta, a.earned, a.spent - delta)
  }

  function RowFor(b: Bank, op: Op): Row {
    Row(op.user, op.delta, BalanceOf(b, op.user) + op.delta, op.kind,
        Truncate(op.refId, REF_LIMIT), Truncate(op.key, Keys.KEY_LIMIT))
  }

  /** The bank after a change that went through. */
  function Post(b: Bank, op: Op): Bank {
    Bank(b.accounts[op.user := Moved(AccountOf(b, op.user), op.delta)], b.ledger + [RowFor(b, op)])
  }

  /** changePoints: the change goes through or nothing happens. */
  function Commit(b: Bank, op: Op): Bank {
    if Judge(b, op) == Applied then Post(b, op) else b
  }

  function Run(b: Bank, ops: seq<Op>): Bank
    decreases |ops|
  {
    if ops == [] then b else Run(Commit(b, ops[0]), ops[1..])
  }

  // ---------- the ledger invariant ----------

  /** Sum of a user's ledger deltas. */
  function Sum(ledger: seq<Row>, user: nat): int {
    if ledger == [] then 0
    else
      var last := ledger[|ledger| - 1];
      Sum(ledger[..|ledger| - 1], user) + if last.user == user then last.delta else 0
  }

  /** Rows of one kind and reference, as (user, delta), oldest first. */
  function Moves(ledger: seq<Row>, kind: Kind, refId: string): seq<(nat, int)> {
    if ledger == [] then []
    else
      var last := ledger[|ledger| - 1];
      Moves(ledger[..|ledger| - 1], kind, refId)
      + if last.kind == kind && last.refId == refId then [(last.user, last.delta)] else []
  }

  ghost predicate BalancesOk(b: Bank) {
    forall u: nat ::
      var a := AccountOf(b, u);
      a.balance >= 0 && a.balance == Sum(b.ledger, u) && a.balance == a.earned - a.spent
  }

  ghost predicate SnapshotsOk(ledger: seq<Row>) {
    forall i | 0 <= i < |ledger| ::
      ledger[i].balanceAfter == Sum(ledger[..i + 1], ledger[i].user) >= 0
  }

  ghost predicate RowsOk(ledger: seq<Row>) {
    && (forall i | 0 <= i < |ledger| :: ledger[i].user != 0 && ledger[i].delta != 0)
    && (forall i | 0 <= i < |ledger| :: |ledger[i].key| <= Keys.KEY_LIMIT)
    && (forall i, j | 0 <= i < j < |ledger| :: ledger[i].key == ledger[j].key ==> ledger[i].key == "")
  }

  ghost predicate LedgerInv(b: Bank) {
    BalancesOk(b) && SnapshotsOk(b.ledger) && RowsOk(b.ledger)
  }

  lemma SumAppend(ledger: seq<Row>, row: Row, user: nat)
    ensures Sum(ledger + [row], user) == Sum(ledger, user) + if row.user == user then row.delta else 0
  {
    assert (ledger + [row])[..|ledger|] == ledger;
  }

  lemma MovesAppend(ledger: seq<Row>, row: Row, kind: Kind, refId: string)
    ensures Moves(ledger + [row], kind, refId)
         == Moves(ledger, kind, refId)
          + if row.kind == kind && row.refId == refId then [(row.user, row.delta)] else []
  {
    assert (ledger + [row])[..|ledger|] == ledger;
  }

  lemma HasKeyAppend(ledger: seq<Row>, row: Row, key: string)
    ensures HasKey(ledger + [row], key) <==> HasKey(ledger, key) || row.key == key
  {
    var ledger' := ledger + [row];
    assert ledger'[|ledger|] == row;
    if HasKey(ledger, key) {
      var i :| 0 <= i < |ledger| && ledger[i].key == key;
      assert ledger'[i] == ledger[i];
    }
  }

  lemma PostKeepsBalances(b: Bank, op: Op)
    requires LedgerInv(b) && Judge(b, op) == Applied
    ensures BalancesOk(Post(b, op))
  {
    var b' := Post(b, op);
    forall u: nat
      ensures AccountOf(b', u).balance >= 0 && AccountOf(b', u).balance == Sum(b'.ledger, u)
      ensures AccountOf(b', u).balance == AccountOf(b', u).earned - AccountOf(b', u).spent
    {
      SumAppend(b.ledger, RowFor(b, op), u);
      assert AccountOf(b, u).balance >= 0;
    }
  }

  lemma PostKeepsSnapshots(b: Bank, op: Op)
    requires LedgerInv(b) && Judge(b, op) == Applied
    ensures SnapshotsOk(Post(b, op).ledger)
  {
    var ledger, row := b.ledger, RowFor(b, op);
    SumAppend(ledger, row, op.user);
    assert AccountOf(b, op.user).balance >= 0;
    forall i | 0 <= i < |ledger + [row]|
      ensures (ledger + [row])[i].balanceAfter == Sum((ledger + [row])[..i + 1], (ledger + [row])[i].user) >= 0
    {
      if i < |ledger| {
        assert (ledger + [row])[..i + 1] == ledger[..i + 1];
      } else {
        assert (ledger + [row])[..i + 1] == ledger + [row];
      }
    }
  }

  /** A change that is refused leaves the bank as it was, one that goes
      through keeps every ledger property. */
  lemma CommitKeepsInv(b: Bank, op: Op)
    requires LedgerInv(b)
    ensures LedgerInv(Commit(b, op))
    ensures Judge(b, op) != Applied ==> Commit(b, op) == b
  {
    if Judge(b, op) == Applied {
      PostKeepsBalances(b, op);
      PostKeepsSnapshots(b, op);
    }
  }

  /** Any sequence of point operations keeps the ledger invariant. */
  lemma {:induction false} LedgerOverRuns(b: Bank, ops: seq<Op>)
    requires LedgerInv(b)
    ensures LedgerInv(Run(b, ops))
    decreases |ops|
  {
    if ops != [] {
      CommitKeepsInv(b, ops[0]);
      LedgerOverRuns(Commit(b, ops[0]), ops[1..]);
    }
  }

  lemma EmptyBankOk()
    ensures LedgerInv(EMPTY)
  {
  }

  /** After any sequence of point operations from an empty database every
      balance is non-negative and equals both the sum of the user's deltas and
      earned minus spent, every row carries the prefix sum as BalanceAfter and
      no key is booked twice. */
  lemma LedgerFromEmpty(ops: seq<Op>, u: nat)
    ensures var b := Run(EMPTY, ops);
            && 0 <= BalanceOf(b, u) == Sum(b.ledger, u) == AccountOf(b, u).earned - AccountOf(b, u).spent
            && (forall i | 0 <= i < |b.ledger| ::
                  b.ledger[i].delta != 0 && b.ledger[i].balanceAfter == Sum(b.ledger[..i + 1], b.ledger[i].user) >= 0)
            && (forall i, j | 0 <= i < j < |b.ledger| && b.ledger[i].key == b.ledger[j].key :: b.ledger[i].key == "")
  {
    hide Run;
    EmptyBankOk();
    LedgerOverRuns(EMPTY, ops);
  }

  // ---------- totals earned and spent ----------

  function EarnedOf(ledger: seq<Row>, user: nat): int {
    if ledger == [] then 0
    else
      var last := ledger[|ledger| - 1];
      EarnedOf(ledger[..|ledger| - 1], user) + if last.user == user && last.delta > 0 then last.delta else 0
  }

  function SpentOf(ledger: seq<Row>, user: nat): int {
    if ledger == [] then 0
    else
      var last := ledger[|ledger| - 1];
      SpentOf(ledger[..|ledger| - 1], user) + if last.user == user && last.delta < 0 then -last.delta else 0
  }

  /** An account's totals are what its rows brought in and took out. */
  ghost predicate TotalsOk(b: Bank) {
    forall u: nat :: AccountOf(b, u).earned == EarnedOf(b.ledger, u) && AccountOf(b, u).spent == SpentOf(b.ledger, u)
  }

  lemma TotalsAppend(ledger: seq<Row>, row: Row, user: nat)
    ensures EarnedOf(ledger + [row], user)
         == EarnedOf(ledger, user) + if row.user == user && row.delta > 0 then row.delta else 0
    ensures SpentOf(ledger + [row], user)
         == SpentOf(ledger, user) + if row.user == user && row.delta < 0 then -row.delta else 0
  {
    assert (ledger + [row])[..|ledger|] == ledger;
  }

  /** A change moves one of the two totals up and neither of them down. */
  lemma CommitKeepsTotals(b: Bank, op: Op)
    requires TotalsOk(b)
    ensures TotalsOk(Commit(b, op))
    ensures forall u: nat ::
              var a, a' := AccountOf(b, u), AccountOf(Commit(b, op), u);
              a.earned <= a'.earned && a.spent <= a'.spent
  {
    hide Judge, RowFor;
    if Judge(b, op) == Applied {
      forall u: nat
        ensures var a, a' := AccountOf(b, u), AccountOf(Post(b, op), u);
                && a'.earned == EarnedOf(Post(b, op).ledger, u) && a'.spent == SpentOf(Post(b, op).ledger, u)
                && a.earned <= a'.earned && a.spent <= a'.spent
      {
        assert AccountOf(b, u).earned == EarnedOf(b.ledger, u) && AccountOf(b, u).spent == SpentOf(b.ledger, u);
        PostKeepsTotals(b, op, u);
      }
    }
  }

  lemma PostKeepsTotals(b: Bank, op: Op, u: nat)
    requires AccountOf(b, u).earned == EarnedOf(b.ledger, u) && AccountOf(b, u).spent == SpentOf(b.ledger, u)
    ensures var a, a' := AccountOf(b, u), AccountOf(Post(b, op), u);
            && a'.earned == EarnedOf(Post(b, op).ledger, u) && a'.spent == SpentOf(Post(b, op).ledger, u)
            && a.earned <= a'.earned && a.spent <= a'.spent
  {
    hide EarnedOf, SpentOf, Truncate;
    TotalsAppend(b.ledger, RowFor(b, op), u);
  }

  lemma {:induction false} RunKeepsTotals(b: Bank, ops: seq<Op>, u: nat)
    requires TotalsOk(b)
    ensures var b' := Run(b, ops);
            && TotalsOk(b')
            && AccountOf(b, u).earned <= AccountOf(b', u).earned && AccountOf(b, u).spent <= AccountOf(b', u).spent
    decreases |ops|
  {
    hide TotalsOk, Commit, AccountOf;
    if ops != [] {
      CommitKeepsTotals(b, ops[0]);
      RunKeepsTotals(Commit(b, ops[0]), ops[1..], u);
    }
  }

  lemma NoTotals()
    ensures TotalsOk(EMPTY)
  {
  }

  /** In every run from an empty database earned is the sum of the user's
      positive changes, spent minus the sum of the negative ones, and neither
      ever goes down. */
  lemma TotalsFromEmpty(ops: seq<Op>, more: seq<Op>, u: nat)
    ensures var b, later := Run(EMPTY, ops), Run(Run(EMPTY, ops), more);
            && AccountOf(b, u).earned == EarnedOf(b.ledger, u) && AccountOf(b, u).spent == SpentOf(b.ledger, u)
            && AccountOf(b, u).earned <= AccountOf(later, u).earned
            && AccountOf(b, u).spent <= AccountOf(later, u).spent
  {
    hide Run;
    NoTotals();
    RunKeepsTotals(EMPTY, ops, u);
    RunKeepsTotals(Run(EMPTY, ops), more, u);
  }

  // ---------- what goes through ----------

  /** A change goes through exactly when it names a user and an amount, its key
      is unused, in full and as the column stores it, and it leaves the balance
      non-negative. Then the user's balance moves by the amount, nobody else's
      moves, and one row says so. A refusal names a reason that applies. */
  lemma ChangeGoesThrough(b: Bank, op: Op)
    requires LedgerInv(b)
    ensures Judge(b, op) == Applied <==>
            && op.user != 0 && op.delta != 0 && BalanceOf(b, op.user) + op.delta >= 0
            && (op.key == "" || (!HasKey(b.ledger, op.key) && !HasKey(b.ledger, Truncate(op.key, 128))))
    ensures (Judge(b, op) == InvalidUser <==> op.user == 0) && (Judge(b, op) == ZeroDelta ==> op.delta == 0)
    ensures Judge(b, op) == Duplicate ==>
              op.key != "" && (HasKey(b.ledger, op.key) || HasKey(b.ledger, Truncate(op.key, 128)))
    ensures Judge(b, op) == Insufficient ==> op.delta < 0 && BalanceOf(b, op.user) + op.delta < 0
    ensures BalanceOf(b, op.user) >= 0
    ensures Judge(b, op) == Applied ==>
              var b' := Commit(b, op);
              && BalanceOf(b', op.user) == BalanceOf(b, op.user) + op.delta
              && b'.ledger == b.ledger + [Row(op.user, op.delta, BalanceOf(b', op.user), op.kind,
                                              Truncate(op.refId, 64), Truncate(op.key, 128))]
    ensures forall u: nat | u != op.user :: BalanceOf(Commit(b, op), u) == BalanceOf(b, u)
  {
    hide HasKey, Truncate, SnapshotsOk, RowsOk;
    assert AccountOf(b, op.user).balance >= 0;
  }

  /** Rows are never changed or removed. */
  lemma {:induction false} LedgerOnlyGrows(b: Bank, ops: seq<Op>)
    ensures b.ledger <= Run(b, ops).ledger
    decreases |ops|
  {
    if ops != [] {
      LedgerOnlyGrows(Commit(b, ops[0]), ops[1..]);
    }
  }

  lemma KeyStays(before: seq<Row>, after: seq<Row>, key: string)
    requires before <= after && HasKey(before, key)
    ensures HasKey(after, key)
  {
    var i :| 0 <= i < |before| && before[i].key == key;
    assert after[i].key == key;
  }

  // ---------- the database tables ----------

  class Ledger {
    var accounts: map<nat, Account>
    var rows: seq<Row>

    function View(): Bank
      reads this
    {
      Bank(accounts, rows)
    }

    constructor ()
      ensures View() == EMPTY
    {
      accounts, rows := map[], [];
    }

    /** Rolls the two tables back to what a transaction started from. */
    method Restore(b: Bank)
      modifies this
      ensures View() == b
    {
      accounts, rows := b.accounts, b.ledger;
    }

    /** Runs inside the caller's transaction, so a refusal may leave writes
        behind that the caller has to roll back. A duplicate is answered before
        any write exactly when a row carries the full key; a longer key that
        only collides after truncation is noticed by the unique index, after
        the account row has been changed. */
    method ApplyPoints(op: Op) returns (v: Verdict)
      modifies this
      ensures v == Judge(old(View()), op)
      ensures v == Applied ==> View() == Post(old(View()), op)
      ensures v == Duplicate ==> (View() == old(View()) <==> HasKey(old(rows), op.key))
      ensures v == Duplicate && !HasKey(old(rows), op.key) ==>
                View() == Bank(old(accounts)[op.user := Moved(AccountOf(old(View()), op.user), op.delta)], old(rows))
      ensures v == Insufficient ==>
                View() == Bank(old(accounts)[op.user := AccountOf(old(View()), op.user)], old(rows))
      ensures v == InvalidUser || v == ZeroDelta ==> View() == old(View())
    {
      if op.user == 0 {
        return InvalidUser;
      }
      if op.delta == 0 {
        return ZeroDelta;
      }
      if op.key != "" && HasKey(rows, op.key) {
        return Duplicate;
      }
      if op.user !in accounts {
        accounts := accounts[op.user := Account(0, 0, 0)];
      }
      var acc := accounts[op.user];
      if op.delta > 0 {
        accounts := accounts[op.user := acc.(balance := acc.balance + op.delta, earned := acc.earned + op.delta)];
      } else if acc.balance >= -op.delta {
        accounts := accounts[op.user := acc.(balance := acc.balance + op.delta, spent := acc.spent - op.delta)];
      } else {
        return Insufficient;
      }
      var k := Truncate(op.key, Keys.KEY_LIMIT);
      if op.key != "" && HasKey(rows, k) {
        assert BalanceOf(View(), op.user) != BalanceOf(old(View()), op.user);
        return Duplicate;
      }
      rows := rows + [Row(op.user, op.delta, accounts[op.user].balance, op.kind, Truncate(op.refId, REF_LIMIT), k)];
      return Applied;
    }

    /** One change in a transaction of its own: a refusal changes nothing. */
    method ChangePoints(op: Op) returns (v: Verdict)
      modifies this
      ensures v == Judge(old(View()), op)
      ensures View() == Commit(old(View()), op) && |rows| == |old(rows)| + if v == Applied then 1 else 0
    {
      var before := View();
      v := ApplyPoints(op);
      if v != Applied {
        Restore(before);
      }
    }
  }
}
