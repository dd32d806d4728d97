/** shop_core.go, redeem codes: the checks read the code's row first, the
    guarded update, the unique use and the points follow in one transaction.
    Calls interleave between the two. */
module Redeem {
  import opened Options
  import opened Points
  import opened Text

  datatype Code = Code(text: string, points: int, maxUses: int, usedCount: int, expiresAt: Option<int>, enabled: bool)

  /** The unique index is on (code, user). */
  datatype Use = Use(code: nat, user: nat, points: int)

  datatype Caller = Caller(user: nat, code: nat, points: int)

  /** The code with id k is codes[k - 1]; calls maps callers that have passed
      their checks to what they read. */
  datatype State = State(bank: Bank, codes: seq<Code>, uses: seq<Use>, calls: map<nat, Caller>)

  const START := State(EMPTY, [], [], map[])
  const MAX_POINTS := 1_000_000_000

  datatype Reply =
    | PointsOff | BadCode | Expired | AlreadyUsed | UsedUp | NotPaid(verdict: Verdict) | Redeemed(row: Row)

  predicate HasUse(uses: seq<Use>, code: nat, user: nat) {
    exists i | 0 <= i < |uses| :: uses[i].code == code && uses[i].user == user
  }

  /** Id of the code with this text, 0 if there is none; the text is unique. */
  function FindCode(codes: seq<Code>, text: string): (id: nat)
    ensures id <= |codes| && (id > 0 ==> codes[id - 1].text == text)
  {
    if codes == [] then 0
    else if codes[|codes| - 1].text == text then |codes|
    else FindCode(codes[..|codes| - 1], text)
  }

  /** Why a call is refused before it writes anything. */
  function Refusal(s: State, enabled: bool, user: nat, text: string, now: int): Option<Reply> {
    var id := FindCode(s.codes, text);
    if !enabled then Some(PointsOff)
    else if text == "" || id == 0 || !s.codes[id - 1].enabled then Some(BadCode)
    else if s.codes[id - 1].expiresAt.Some? && now > s.codes[id - 1].expiresAt.value then Some(Expired)
    else if HasUse(s.uses, id, user) then Some(AlreadyUsed)
    else None
  }

  function RedeemOp(c: Caller): Op {
    Op(c.user, c.points, ByRedeemCode, Dec(c.code), "")
  }

  /** The outcome of the writing part for what was read before. */
  function Outcome(s: State, c: Caller): Reply {
    if c.code == 0 || c.code > |s.codes| || s.codes[c.code - 1].usedCount >= s.codes[c.code - 1].maxUses then UsedUp
    else if HasUse(s.uses, c.code, c.user) then AlreadyUsed
    else
      var v := Judge(s.bank, RedeemOp(c));
      if v == Applied then Redeemed(RowFor(s.bank, RedeemOp(c))) else NotPaid(v)
  }

  function Written(s: State, c: Caller): State {
    if !Outcome(s, c).Redeemed? then s
    else
      var code := s.codes[c.code - 1];
      s.(bank := Post(s.bank, RedeemOp(c)),
         codes := s.codes[c.code - 1 := code.(usedCount := code.usedCount + 1)],
         uses := s.uses + [Use(c.code, c.user, c.points)])
  }

  datatype Event =
    | Issue(text: string, points: int, maxUses: int, expiresAt: Option<int>)
    | Switch(code: nat, on: bool)
    | Check(call: nat, enabled: bool, user: nat, redeeming: string, now: int)
    | Write(writing: nat)
    | OtherPoints(op: Op)

  function Step(s: State, e: Event): State {
    match e
    case Issue(text, points, maxUses, expiresAt) =>
      if points <= 0 || points > MAX_POINTS || FindCode(s.codes, text) != 0 || |s.codes| + 1 >= Pow10(20) then s
      else s.(codes := s.codes + [Code(text, points, if maxUses <= 0 then 1 else maxUses, 0, expiresAt, true)])
    case Switch(id, on) =>
      if id == 0 || id > |s.codes| then s
      else s.(codes := s.codes[id - 1 := s.codes[id - 1].(enabled := on)])
    case Check(call, enabled, user, text, now) =>
      if call in s.calls || Refusal(s, enabled, user, text, now).Some? then s
      else
        var id := FindCode(s.codes, text);
        s.(calls := s.calls[call := Caller(user, id, s.codes[id - 1].points)])
    case Write(call) =>
      if call !in s.calls then s else Written(s, s.calls[call]).(calls := s.calls - {call})
    case OtherPoints(op) =>
      if op.kind == ByRedeemCode then s else s.(bank := Commit(s.bank, op))
  }

  function Run(s: State, es: seq<Event>): State {
    if es == [] then s else Step(Run(s, es[..|es| - 1]), es[|es| - 1])
  }

  // ---------- what every interleaving keeps ----------

  /** The uses of a code, as its rows in the ledger should be. */
  function UsesOf(uses: seq<Use>, code: nat): seq<(nat, int)> {
    if uses == [] then []
    else
      var last := uses[|uses| - 1];
      UsesOf(uses[..|uses| - 1], code) + if last.code == code then [(last.user, last.points)] else []
  }

  /** One use per user and code, at the code's price. */
  ghost predicate UsesOk(codes: seq<Code>, uses: seq<Use>) {
    && (forall i, j | 0 <= i < j < |uses| :: !(uses[i].code == uses[j].code && uses[i].user == uses[j].user))
    && (forall i | 0 <= i < |uses| :: 0 < uses[i].code <= |codes| && uses[i].points == codes[uses[i].code - 1].points)
  }

  ghost predicate CallsOk(codes: seq<Code>, calls: map<nat, Caller>) {
    forall c | c in calls :: 0 < calls[c].code <= |codes| && calls[c].points == codes[calls[c].code - 1].points
  }

  predicate CodeOk(code: Code, uses: seq<Use>, id: nat) {
    code.usedCount == |UsesOf(uses, id)| && (code.usedCount > 0 ==> code.usedCount <= code.maxUses)
  }

  ghost predicate CodesOk(codes: seq<Code>, uses: seq<Use>) {
    |codes| < Pow10(20) && forall i | 0 <= i < |codes| :: CodeOk(codes[i], uses, i + 1)
  }

  /** Codes have different texts and are worth something. */
  ghost predicate TextsOk(codes: seq<Code>) {
    && (forall i | 0 <= i < |codes| :: codes[i].points > 0 && codes[i].maxUses >= 1)
    && (forall i, j | 0 <= i < j < |codes| :: codes[i].text != codes[j].text)
  }

  ghost predicate RowsOk(ledger: seq<Row>, uses: seq<Use>) {
    forall id: nat | id < Pow10(20) :: Moves(ledger, ByRedeemCode, Dec(id)) == UsesOf(uses, id)
  }

  ghost predicate Inv(s: State) {
    && LedgerInv(s.bank) && UsesOk(s.codes, s.uses) && CallsOk(s.codes, s.calls)
    && CodesOk(s.codes, s.uses) && TextsOk(s.codes) && RowsOk(s.bank.ledger, s.uses)
  }

  /** Only the count and the switch of a code ever change. */
  lemma TextsStay(codes: seq<Code>, i: nat, c: Code)
    requires TextsOk(codes) && i < |codes| && c == codes[i].(usedCount := c.usedCount, enabled := c.enabled)
    ensures TextsOk(codes[i := c])
  {
  }

  lemma TextAdded(codes: seq<Code>, c: Code)
    requires TextsOk(codes) && FindCode(codes, c.text) == 0 && c.points > 0 && c.maxUses >= 1
    ensures TextsOk(codes + [c])
  {
    FindCodeFinds(codes, c.text);
  }

  /** A code is found by its text whenever there is one. */
  lemma {:induction false} FindCodeFinds(codes: seq<Code>, text: string)
    ensures FindCode(codes, text) == 0 <==> forall i | 0 <= i < |codes| :: codes[i].text != text
  {
    if codes != [] {
      FindCodeFinds(codes[..|codes| - 1], text);
    }
  }

  lemma UsesAppend(uses: seq<Use>, u: Use, code: nat)
    ensures UsesOf(uses + [u], code) == UsesOf(uses, code) + if u.code == code then [(u.user, u.points)] else []
  {
    assert (uses + [u])[..|uses|] == uses;
  }

  lemma {:induction false} NoUses(uses: seq<Use>, code: nat)
    requires forall i | 0 <= i < |uses| :: uses[i].code != code
    ensures UsesOf(uses, code) == []
  {
    if uses != [] {
      NoUses(uses[..|uses| - 1], code);
    }
  }

  lemma UseAdded(codes: seq<Code>, uses: seq<Use>, u: Use, code: Code)
    requires UsesOk(codes, uses) && CodesOk(codes, uses) && 0 < u.code <= |codes| && !HasUse(uses, u.code, u.user)
    requires u.points == codes[u.code - 1].points && codes[u.code - 1].usedCount < codes[u.code - 1].maxUses
    requires code == codes[u.code - 1].(usedCount := codes[u.code - 1].usedCount + 1)
    ensures UsesOk(codes[u.code - 1 := code], uses + [u]) && CodesOk(codes[u.code - 1 := code], uses + [u])
  {
    hide UsesOf;
    var codes' := codes[u.code - 1 := code];
    forall i | 0 <= i < |codes'|
      ensures CodeOk(codes'[i], uses + [u], i + 1)
    {
      UsesAppend(uses, u, i + 1);
      assert CodeOk(codes[i], uses, i + 1);
    }
    assert forall i | 0 <= i < |uses| :: !(uses[i].code == u.code && uses[i].user == u.user);
  }

  lemma CallsStay(codes: seq<Code>, codes': seq<Code>, calls: map<nat, Caller>)
    requires CallsOk(codes, calls) && |codes| <= |codes'|
    requires forall i | 0 <= i < |codes| :: codes'[i].points == codes[i].points
    ensures CallsOk(codes', calls)
  {
  }

  lemma RowAdded(b: Bank, uses: seq<Use>, c: Caller)
    requires RowsOk(b.ledger, uses) && c.code < Pow10(20)
    ensures RowsOk(b.ledger + [RowFor(b, RedeemOp(c))], uses + [Use(c.code, c.user, c.points)])
  {
    var row := RowFor(b, RedeemOp(c));
    var u := Use(c.code, c.user, c.points);
    DecLength(c.code, 20);
    hide UsesOf, Moves, Dec, Pow10;
    forall id: nat | id < Pow10(20)
      ensures Moves(b.ledger + [row], ByRedeemCode, Dec(id)) == UsesOf(uses + [u], id)
    {
      MovesAppend(b.ledger, row, ByRedeemCode, Dec(id));
      UsesAppend(uses, u, id);
      if Dec(id) == Dec(c.code) {
        DecInjective(id, c.code);
      }
    }
  }

  lemma CallRead(s: State, call: nat)
    requires CallsOk(s.codes, s.calls) && CodesOk(s.codes, s.uses) && call in s.calls
    ensures var c := s.calls[call]; 0 < c.code <= |s.codes| < Pow10(20) && c.points == s.codes[c.code - 1].points
    ensures CallsOk(s.codes, s.calls - {call})
  {
    hide Pow10, CodeOk;
  }

  lemma WriteKeepsInv(s: State, call: nat)
    requires Inv(s) && call in s.calls
    ensures Inv(Step(s, Write(call)))
  {
    hide LedgerInv, UsesOk, CodesOk, TextsOk, RowsOk, CallsOk, RedeemOp, Judge, HasUse, Pow10, RowFor;
    var c := s.calls[call];
    CallRead(s, call);
    CommitKeepsInv(s.bank, RedeemOp(c));
    if Outcome(s, c).Redeemed? {
      var s' := Written(s, c);
      RowAdded(s.bank, s.uses, c);
      UseAdded(s.codes, s.uses, Use(c.code, c.user, c.points), s'.codes[c.code - 1]);
      CallsStay(s.codes, s'.codes, s.calls - {call});
      TextsStay(s.codes, c.code - 1, s'.codes[c.code - 1]);
    }
  }

  lemma CodeIssued(codes: seq<Code>, uses: seq<Use>, calls: map<nat, Caller>, c: Code)
    requires UsesOk(codes, uses) && CallsOk(codes, calls) && CodesOk(codes, uses)
    requires |codes| + 1 < Pow10(20) && c.usedCount == 0
    ensures UsesOk(codes + [c], uses) && CallsOk(codes + [c], calls) && CodesOk(codes + [c], uses)
  {
    hide Pow10, UsesOf;
    NoUses(uses, |codes| + 1);
    forall i | 0 <= i < |codes + [c]|
      ensures CodeOk((codes + [c])[i], uses, i + 1)
    {
      assert i < |codes| ==> CodeOk(codes[i], uses, i + 1);
    }
  }

  lemma IssueKeepsInv(s: State, e: Event)
    requires Inv(s) && e.Issue?
    ensures Inv(Step(s, e))
  {
    hide LedgerInv, RowsOk, Pow10, UsesOk, CallsOk, CodesOk, TextsOk, FindCode;
    var s' := Step(s, e);
    if s' != s {
      var c := s'.codes[|s.codes|];
      TextAdded(s.codes, c);
      CodeIssued(s.codes, s.uses, s.calls, c);
    }
  }

  lemma OtherKeepsInv(s: State, op: Op)
    requires Inv(s) && op.kind != ByRedeemCode
    ensures Inv(s.(bank := Commit(s.bank, op)))
  {
    CommitKeepsInv(s.bank, op);
    hide LedgerInv, Judge, UsesOf, Moves, Dec, Pow10, CodesOk, TextsOk, UsesOk, CallsOk;
    if Judge(s.bank, op) == Applied {
      forall id: nat | id < Pow10(20)
        ensures Moves(s.bank.ledger + [RowFor(s.bank, op)], ByRedeemCode, Dec(id)) == UsesOf(s.uses, id)
      {
        MovesAppend(s.bank.ledger, RowFor(s.bank, op), ByRedeemCode, Dec(id));
      }
    }
  }

  lemma CodeSwitched(codes: seq<Code>, uses: seq<Use>, calls: map<nat, Caller>, i: nat, on: bool)
    requires UsesOk(codes, uses) && CallsOk(codes, calls) && CodesOk(codes, uses) && i < |codes|
    ensures var codes' := codes[i := codes[i].(enabled := on)];
            UsesOk(codes', uses) && CallsOk(codes', calls) && CodesOk(codes', uses)
  {
    hide Pow10, UsesOf;
    var codes' := codes[i := codes[i].(enabled := on)];
    forall j | 0 <= j < |codes|
      ensures CodeOk(codes'[j], uses, j + 1)
    {
      assert CodeOk(codes[j], uses, j + 1);
    }
  }

  lemma SwitchKeepsInv(s: State, id: nat, on: bool)
    requires Inv(s)
    ensures Inv(Step(s, Switch(id, on)))
  {
    hide LedgerInv, RowsOk, UsesOk, CallsOk, CodesOk, TextsOk;
    if 0 < id <= |s.codes| {
      TextsStay(s.codes, id - 1, s.codes[id - 1].(enabled := on));
      CodeSwitched(s.codes, s.uses, s.calls, id - 1, on);
    }
  }

  lemma CheckKeepsInv(s: State, e: Event)
    requires Inv(s) && e.Check?
    ensures Inv(Step(s, e))
  {
    hide LedgerInv, RowsOk, UsesOk, CodesOk, TextsOk, HasUse;
  }

  lemma {:induction false} RunKeepsInv(es: seq<Event>)
    ensures Inv(Run(START, es))
  {
    hide Inv, Step;
    if es == [] {
      StartInv();
    } else {
      var s, e := Run(START, es[..|es| - 1]), es[|es| - 1];
      RunKeepsInv(es[..|es| - 1]);
      StepKeepsInv(s, e);
    }
  }

  lemma StepKeepsInv(s: State, e: Event)
    requires Inv(s)
    ensures Inv(Step(s, e))
  {
    hide Inv, Written, Commit, FindCode, Refusal;
    match e {
      case Issue(_, _, _, _) => IssueKeepsInv(s, e);
      case Write(call) => if call in s.calls { WriteKeepsInv(s, call); }
      case OtherPoints(op) => if op.kind != ByRedeemCode { OtherKeepsInv(s, op); }
      case Switch(id, on) => SwitchKeepsInv(s, id, on);
      case Check(_, _, _, _, _) => CheckKeepsInv(s, e);
    }
  }

  lemma StartInv()
    ensures Inv(START)
  {
  }

  lemma {:induction false} TotalUses(uses: seq<Use>, code: nat, points: int)
    requires forall i | 0 <= i < |uses| && uses[i].code == code :: uses[i].points == points
    ensures forall j | 0 <= j < |UsesOf(uses, code)| :: UsesOf(uses, code)[j].1 == points
  {
    if uses != [] {
      TotalUses(uses[..|uses| - 1], code, points);
    }
  }

  /** However calls interleave, a code is redeemed at most maxUses times and at
      most once by a user, used_count is the number of its uses, and the ledger
      holds exactly one row of the code's points for each use. */
  lemma {:induction false} CodesPayOnce(es: seq<Event>, id: nat)
    requires 0 < id <= |Run(START, es).codes|
    ensures var s := Run(START, es);
            var rows := Moves(s.bank.ledger, ByRedeemCode, Dec(id));
            && rows == UsesOf(s.uses, id) && |rows| == s.codes[id - 1].usedCount
            && (|rows| > 0 ==> |rows| <= s.codes[id - 1].maxUses)
            && (forall j | 0 <= j < |rows| :: rows[j].1 == s.codes[id - 1].points)
            && (forall i, j | 0 <= i < j < |s.uses| && s.uses[i].code == s.uses[j].code ::
                  s.uses[i].user != s.uses[j].user)
  {
    hide Run, LedgerInv, CallsOk, CodesOk, TextsOk, RowsOk, Moves, UsesOf, Dec;
    RunKeepsInv(es);
    var s := Run(START, es);
    CodeSays(s, id);
    TotalUses(s.uses, id, s.codes[id - 1].points);
  }

  lemma CodeSays(s: State, id: nat)
    requires CodesOk(s.codes, s.uses) && RowsOk(s.bank.ledger, s.uses) && 0 < id <= |s.codes|
    ensures Moves(s.bank.ledger, ByRedeemCode, Dec(id)) == UsesOf(s.uses, id)
    ensures CodeOk(s.codes[id - 1], s.uses, id)
  {
    hide Moves, UsesOf, Dec, CodeOk;
    assert CodeOk(s.codes[id - 1], s.uses, (id - 1) + 1);
  }

  // ---------- single calls ----------

  /** A new code carries what was asked for, at least one use, and has not been
      used. */
  lemma IssuedIs(s: State, text: string, points: int, maxUses: int, expiresAt: Option<int>)
    requires (forall i | 0 <= i < |s.codes| :: s.codes[i].text != text) && |s.codes| + 1 < Pow10(20)
    requires 0 < points <= 1_000_000_000
    ensures var codes := Step(s, Issue(text, points, maxUses, expiresAt)).codes;
            && codes == s.codes + [codes[|s.codes|]]
            && var c := codes[|s.codes|];
               && c.text == text && c.points == points && c.maxUses == (if maxUses <= 0 then 1 else maxUses)
               && c.usedCount == 0 && c.expiresAt == expiresAt && c.enabled
  {
    hide Pow10, FindCode;
    FindCodeFinds(s.codes, text);
  }

  /** The switch turns a code on or off and changes nothing else. */
  lemma SwitchedIs(s: State, id: nat, on: bool)
    requires 0 < id <= |s.codes|
    ensures var c := s.codes[id - 1];
            Step(s, Switch(id, on)) == s.(codes := s.codes[id - 1 :=
              Code(c.text, c.points, c.maxUses, c.usedCount, c.expiresAt, on)])
  {
  }

  /** A refusal names a reason that applies; "used up" and a failed booking are
      the reasons of the writing part. */
  lemma RefusalIsTrue(s: State, enabled: bool, user: nat, text: string, now: int)
    ensures var id := FindCode(s.codes, text);
            match Refusal(s, enabled, user, text, now)
            case None => enabled && text != "" && id > 0
            case Some(PointsOff) => !enabled
            case Some(BadCode) => text == "" || id == 0 || !s.codes[id - 1].enabled
            case Some(Expired) => id > 0 && s.codes[id - 1].expiresAt.Some? && s.codes[id - 1].expiresAt.value < now
            case Some(AlreadyUsed) => exists i | 0 <= i < |s.uses| :: s.uses[i].code == id && s.uses[i].user == user
            case _ => false
    ensures forall c: Caller | 0 < c.code <= |s.codes| ::
              (Outcome(s, c) == UsedUp ==> s.codes[c.code - 1].usedCount >= s.codes[c.code - 1].maxUses)
              && (Outcome(s, c) == AlreadyUsed ==> HasUse(s.uses, c.code, c.user))
  {
    hide FindCode, Judge;
  }

  /** A call run without interruption. */
  function Called(s: State, enabled: bool, user: nat, text: string, now: int): State {
    if Refusal(s, enabled, user, text, now).Some? then s
    else
      var id := FindCode(s.codes, text);
      Written(s, Caller(user, id, s.codes[id - 1].points))
  }

  /** The complete condition under which a call redeems code id, and what it
      does: the user gets the code's points and one use is counted. */
  lemma RedeemsIf(s: State, enabled: bool, user: nat, text: string, now: int, id: nat)
    requires LedgerInv(s.bank) && TextsOk(s.codes) && 0 < id <= |s.codes| && s.codes[id - 1].text == text && user != 0
    ensures var c, s' := s.codes[id - 1], Called(s, enabled, user, text, now);
            if && enabled && text != "" && c.enabled && (c.expiresAt.None? || now <= c.expiresAt.value)
               && c.usedCount < c.maxUses
               && forall i | 0 <= i < |s.uses| :: !(s.uses[i].code == id && s.uses[i].user == user)
            then
              && BalanceOf(s'.bank, user) == BalanceOf(s.bank, user) + c.points
              && s'.uses == s.uses + [Use(id, user, c.points)]
              && s'.codes == s.codes[id - 1 := c.(usedCount := c.usedCount + 1)]
            else s' == s
  {
    hide LedgerInv, FindCode, Judge, Post, Dec;
    FindCodeFinds(s.codes, text);
    assert FindCode(s.codes, text) == id;
    ChangeGoesThrough(s.bank, RedeemOp(Caller(user, id, s.codes[id - 1].points)));
  }

  // ---------- the tables ----------

  class Codes {
    const bank: Ledger
    var codes: seq<Code>
    var uses: seq<Use>

    function View(): State
      reads this, bank
    {
      State.State(bank.View(), codes, uses, map[])
    }

    constructor (bank: Ledger)
      ensures this.bank == bank && View() == State.State(bank.View(), [], [], map[])
    {
      this.bank := bank;
      codes, uses := [], [];
    }

    /** redeemCode run without interruption: refused calls leave no trace. */
    method RedeemCode(enabled: bool, user: nat, text: string, now: int) returns (reply: Reply)
      modifies this, bank
      ensures var s := old(View());
              var refusal := Refusal(s, enabled, user, text, now);
              var id := FindCode(s.codes, text);
              if refusal.Some? then reply == refusal.value && View() == s
              else
                var c := Caller(user, id, s.codes[id - 1].points);
                reply == Outcome(s, c) && View() == Written(s, c)
    {
      hide Judge, Post, RedeemOp, HasUse, HasKey, FindCode;
      if !enabled {
        return PointsOff;
      }
      if text == "" {
        return BadCode;
      }
      var before := View();
      var id := FindCode(codes, text);
      if id == 0 || !codes[id - 1].enabled {
        return BadCode;
      }
      var rc := codes[id - 1];
      if rc.expiresAt.Some? && now > rc.expiresAt.value {
        return Expired;
      }
      if HasUse(uses, id, user) {
        return AlreadyUsed;
      }
      if codes[id - 1].usedCount >= codes[id - 1].maxUses {
        return UsedUp;
      }
      codes := codes[id - 1 := rc.(usedCount := rc.usedCount + 1)];
      uses := uses + [Use(id, user, rc.points)];
      var op := RedeemOp(Caller(user, id, rc.points));
      var v := bank.ApplyPoints(op);
      if v != Applied {
        bank.Restore(before.bank);
        codes, uses := before.codes, before.uses;
        return NotPaid(v);
      }
      return Redeemed(RowFor(before.bank, op));
    }
  }
}
