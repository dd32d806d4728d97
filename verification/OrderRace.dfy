/** Everything that can happen to the shop, with finishOrder split into the
    read of the order row and the guarded update, and a product edit into the
    read of the row and the write of all its columns, so that dispatchers,
    retries, callbacks, customers and administrators can overtake each other in
    any order. */
module OrderRace {
  import opened Keys
  import opened Options
  import opened Points
  import opened Shop
  import opened ShopProofs

  /** Where one caller stands. */
  datatype Pc =
    | AwaitHook(id: nat)                             // dispatchWebhookOrder has posted to the delivery URL
    | Want(id: nat, target: Target)                  // has decided to call finishOrder
    | Armed(id: nat, target: Target, snap: Order)    // its transaction has read an open order
    | Won(id: nat, target: Target)
    | Lost(id: nat)                                  // ended without a transition
    | Editing(pid: nat, row: Product)                // has read a product to edit it
    | Saved(pid: nat)

  datatype HookAnswer = HookError | HookRejects | HookPending | HookContent(content: string)

  /** One committed transition of an order, with the caller that made it. */
  datatype Closing = Closing(caller: nat, id: nat, target: Target)

  datatype World = World(shop: State, callers: map<nat, Pc>, closings: seq<Closing>)

  datatype Event =
    | Dispatch(caller: nat, id: nat)                 // first send or manual retry
    | Answer(caller: nat, hook: HookAnswer)
    | Callback(caller: nat, id: nat, content: string)
    | Request(caller: nat, id: nat, target: Target)  // fail callback, admin deliver or cancel
    | TxRead(caller: nat)
    | TxUpdate(caller: nat)
    | PlaceOrder(enabled: bool, user: nat, pid: nat, raw: int, no: OrderNo)
    | OtherPoints(user: nat, delta: int, kind: Kind, refId: string, source: Option<Source>)
    | AddProduct(pid: nat, product: Product)
    | EditRead(caller: nat, pid: nat)
    | EditSave(caller: nat, price: int, enabled: bool)
    | AddCard(pid: nat, content: string)
    | DeleteCard(card: nat)

  const DEFAULT_CONTENT := "已由发放接口完成发货"
  const START := World(OPENING, map[], [])

  /** strings.TrimSpace leaves nothing. */
  predicate Blank(text: string) {
    forall i | 0 <= i < |text| :: text[i] in "\t\n\U{000B}\U{000C}\r "
  }

  function At(w: World, id: nat): Option<Order> {
    if 1 <= id <= |w.shop.orders| then Some(w.shop.orders[id - 1]) else None
  }

  function Goto(w: World, caller: nat, pc: Pc): World {
    w.(callers := w.callers[caller := pc])
  }

  function DispatchStep(w: World, caller: nat, id: nat): World {
    if caller in w.callers then w
    else if At(w, id).Some? && At(w, id).value.status == Processing then Goto(w, caller, AwaitHook(id))
    else Goto(w, caller, Lost(id))
  }

  function AnswerStep(w: World, caller: nat, hook: HookAnswer): World {
    if caller !in w.callers || !w.callers[caller].AwaitHook? then w
    else
      var id := w.callers[caller].id;
      match hook
      case HookError => Goto(w, caller, Want(id, Fail))
      case HookRejects => Goto(w, caller, Want(id, Fail))
      case HookPending => Goto(w, caller, Lost(id))
      case HookContent(c) => Goto(w, caller, Want(id, Deliver(if c == "" then DEFAULT_CONTENT else c)))
  }

  /** The deliver callback answers a repeated delivery without a transaction. */
  function CallbackStep(w: World, caller: nat, id: nat, content: string): World {
    if caller in w.callers then w
    else if At(w, id).None? || At(w, id).value.status == Delivered then Goto(w, caller, Lost(id))
    else Goto(w, caller, Want(id, Deliver(if Blank(content) then DEFAULT_CONTENT else content)))
  }

  function TxReadStep(w: World, caller: nat): World {
    if caller !in w.callers || !w.callers[caller].Want? then w
    else
      var pc := w.callers[caller];
      if At(w, pc.id).Some? && Open(At(w, pc.id).value.status) then
        Goto(w, caller, Armed(pc.id, pc.target, At(w, pc.id).value))
      else Goto(w, caller, Lost(pc.id))
  }

  function TxUpdateStep(w: World, caller: nat): World {
    if caller !in w.callers || !w.callers[caller].Armed? then w
    else
      var pc := w.callers[caller];
      if FinishReplyOf(w.shop, pc.id, pc.snap, pc.target) == Finished then
        World(FinishCommit(w.shop, pc.id, pc.snap, pc.target),
              w.callers[caller := Won(pc.id, pc.target)],
              w.closings + [Closing(caller, pc.id, pc.target)])
      else Goto(w, caller, Lost(pc.id))
  }

  function EditReadStep(w: World, caller: nat, pid: nat): World {
    if caller in w.callers || pid !in w.shop.products then w
    else Goto(w, caller, Editing(pid, w.shop.products[pid]))
  }

  function EditSaveStep(w: World, caller: nat, price: int, enabled: bool): World {
    if caller !in w.callers || !w.callers[caller].Editing? then w
    else
      var pc := w.callers[caller];
      Goto(w, caller, Saved(pc.pid)).(shop := SaveProduct(w.shop, pc.pid, pc.row, price, enabled))
  }

  function OtherOp(user: nat, delta: int, kind: Kind, refId: string, source: Option<Source>): Op {
    Op(user, delta, kind, refId, if source.Some? then KeyOf(source.value) else "")
  }

  predicate FromElsewhere(kind: Kind, source: Option<Source>) {
    kind != ByOrder && kind != ByRefund && (source.Some? ==> !source.value.Refund?)
  }

  function Step(w: World, e: Event): World {
    match e
    case Dispatch(caller, id) => DispatchStep(w, caller, id)
    case Answer(caller, hook) => AnswerStep(w, caller, hook)
    case Callback(caller, id, content) => CallbackStep(w, caller, id, content)
    case Request(caller, id, target) =>
      if caller in w.callers || (target.Deliver? && Blank(target.content)) then w
      else Goto(w, caller, Want(id, target))
    case TxRead(caller) => TxReadStep(w, caller)
    case TxUpdate(caller) => TxUpdateStep(w, caller)
    case PlaceOrder(enabled, user, pid, raw, no) => w.(shop := Place(w.shop, enabled, user, pid, raw, no))
    case OtherPoints(user, delta, kind, refId, source) =>
      if FromElsewhere(kind, source)
      then w.(shop := w.shop.(bank := Commit(w.shop.bank, OtherOp(user, delta, kind, refId, source))))
      else w
    case AddProduct(pid, product) => w.(shop := NewProduct(w.shop, pid, product))
    case EditRead(caller, pid) => EditReadStep(w, caller, pid)
    case EditSave(caller, price, enabled) => EditSaveStep(w, caller, price, enabled)
    case AddCard(pid, content) => w.(shop := ImportCard(w.shop, pid, content))
    case DeleteCard(card) => w.(shop := DropCard(w.shop, card))
  }

  function Run(w: World, events: seq<Event>): World
    decreases |events|
  {
    if events == [] then w else Run(Step(w, events[0]), events[1..])
  }

  // ---------- what stays fixed from one step to the next ----------

  /** Orders keep their terms; once closed they keep status and content too. */
  ghost predicate OrdersPersist(a: seq<Order>, b: seq<Order>) {
    && |a| <= |b|
    && (forall i | 0 <= i < |a| :: SameTerms(a[i], b[i]))
    && (forall i | 0 <= i < |a| && !Open(a[i].status) :: b[i] == a[i])
  }

  /** A card that belongs to an order is never touched again. */
  ghost predicate CardsPersist(a: seq<Card>, b: seq<Card>) {
    forall c | c in a && c.order != 0 :: c in b
  }

  /** Products keep their delivery kind, limit and kind of stock. */
  ghost predicate SetupPersists(a: map<nat, Product>, b: map<nat, Product>) {
    forall pid | pid in a ::
      && pid in b
      && b[pid].delivery == a[pid].delivery && b[pid].perUserLimit == a[pid].perUserLimit
      && (b[pid].stock == -1 <==> a[pid].stock == -1)
  }

  ghost predicate Persists(a: State, b: State) {
    OrdersPersist(a.orders, b.orders) && CardsPersist(a.cards, b.cards) && SetupPersists(a.products, b.products)
  }

  lemma PersistsTrans(a: State, b: State, c: State)
    requires Persists(a, b) && Persists(b, c)
    ensures Persists(a, c)
  {
    forall i | 0 <= i < |a.orders|
      ensures SameTerms(a.orders[i], c.orders[i])
      ensures !Open(a.orders[i].status) ==> c.orders[i] == a.orders[i]
    {
      assert SameTerms(a.orders[i], b.orders[i]) && SameTerms(b.orders[i], c.orders[i]);
    }
  }

  lemma TakePersists(cards: seq<Card>, pid: nat, q: nat, oid: nat)
    ensures CardsPersist(cards, Take(cards, pid, q, oid))
  {
    TakePointwise(cards, pid, q, oid);
    var t := Take(cards, pid, q, oid);
    forall c | c in cards && c.order != 0
      ensures c in t
    {
      var i :| 0 <= i < |cards| && cards[i] == c;
      assert t[i] == c;
    }
  }

  lemma PlacePersists(s: State, enabled: bool, user: nat, pid: nat, raw: int, no: OrderNo)
    ensures Persists(s, Place(s, enabled, user, pid, raw, no))
  {
    hide LiveQty, NumberTaken, Judge, Unused, Take, Contents, Join;
    if PlaceCheck(s, enabled, user, pid, raw, no).None? {
      TakePersists(s.cards, pid, Quantity(raw), |s.orders| + 1);
    }
  }

  lemma FinishPersists(s: State, id: nat, snap: Order, t: Target)
    requires ShopInv(s) && 1 <= id <= |s.orders| && SameTerms(snap, s.orders[id - 1])
    ensures Persists(s, FinishCommit(s, id, snap, t))
  {
    hide ShopInv, FinishCommit;
    FinishShape(s, id, snap, t);
    OrderProduct(s, id - 1);
  }

  lemma SameStatePersists(s: State)
    ensures Persists(s, s)
  {
  }

  // ---------- the invariant of all interleavings ----------

  /** The committed transitions of one order, oldest first. */
  function Of(closings: seq<Closing>, id: nat): seq<Closing> {
    if closings == [] then []
    else
      var last := closings[|closings| - 1];
      Of(closings[..|closings| - 1], id) + if last.id == id then [last] else []
  }

  /** What an order shows after a transition: what was delivered, or that it
      failed or was cancelled, with nothing delivered. */
  predicate Shows(o: Order, t: Target) {
    match t
    case Deliver(content) => o.status == Delivered && o.content == content
    case Fail => o.status == Failed && o.content == ""
    case Cancel => o.status == Canceled && o.content == ""
  }

  /** An open order has no transition behind it and no content, a closed one
      exactly the one whose outcome it shows; cdk orders are born delivered. */
  ghost predicate ClosedAsRecorded(orders: seq<Order>, closings: seq<Closing>, id: nat) {
    var cs := Of(closings, id);
    if !(1 <= id <= |orders|) then cs == []
    else
      var o := orders[id - 1];
      if o.delivery.Cdk? then cs == []
      else if Open(o.status) then cs == [] && o.content == ""
      else |cs| == 1 && Shows(o, cs[0].target)
  }

  ghost predicate PcOk(w: World, caller: nat, pc: Pc) {
    match pc
    case Armed(id, _, snap) => 1 <= id <= |w.shop.orders| && SameTerms(snap, w.shop.orders[id - 1])
    case Won(id, target) => Closing(caller, id, target) in w.closings
    case Editing(pid, row) => pid in w.shop.products && SameSetup(row, w.shop.products[pid])
    case _ => true
  }

  ghost predicate CallersOk(w: World) {
    forall c | c in w.callers :: PcOk(w, c, w.callers[c])
  }

  ghost predicate HistoryOk(orders: seq<Order>, closings: seq<Closing>) {
    forall id: nat :: ClosedAsRecorded(orders, closings, id)
  }

  ghost predicate WorldInv(w: World) {
    ShopInv(w.shop) && CallersOk(w) && HistoryOk(w.shop.orders, w.closings)
  }

  lemma OfAppend(closings: seq<Closing>, c: Closing, id: nat)
    ensures Of(closings + [c], id) == Of(closings, id) + if c.id == id then [c] else []
  {
    assert (closings + [c])[..|closings|] == closings;
  }

  lemma {:induction false} OfHasAll(closings: seq<Closing>, c: Closing)
    requires c in closings
    ensures c in Of(closings, c.id)
  {
    var n := |closings| - 1;
    if closings[n] != c {
      OfHasAll(closings[..n], c);
    }
  }

  lemma StepKeepsShop(w: World, e: Event)
    requires ShopInv(w.shop) && CallersOk(w)
    ensures ShopInv(Step(w, e).shop)
  {
    hide ShopInv, Judge;
    match e {
      case TxUpdate(caller) =>
        if caller in w.callers && w.callers[caller].Armed? {
          var pc := w.callers[caller];
          assert PcOk(w, caller, pc);
          FinishKeepsInv(w.shop, pc.id, pc.snap, pc.target);
        }
      case PlaceOrder(enabled, user, pid, raw, no) => PlaceKeepsInv(w.shop, enabled, user, pid, raw, no);
      case OtherPoints(user, delta, kind, refId, source) =>
        if FromElsewhere(kind, source) {
          OtherOpIsForeign(user, delta, kind, refId, source);
          PointsKeepInv(w.shop, OtherOp(user, delta, kind, refId, source));
        }
      case AddProduct(pid, product) => NewProductKeepsInv(w.shop, pid, product);
      case EditSave(caller, price, enabled) =>
        if caller in w.callers && w.callers[caller].Editing? {
          var pc := w.callers[caller];
          assert PcOk(w, caller, pc);
          SaveKeepsInv(w.shop, pc.pid, pc.row, price, enabled);
        }
      case AddCard(pid, content) => StockingKeepsInv(w.shop, pid, content, 0);
      case DeleteCard(card) => StockingKeepsInv(w.shop, 0, "", card);
      case _ =>
    }
  }

  lemma OtherOpIsForeign(user: nat, delta: int, kind: Kind, refId: string, source: Option<Source>)
    requires FromElsewhere(kind, source)
    ensures Foreign(OtherOp(user, delta, kind, refId, source))
  {
    if source.Some? {
      OtherKeysAreForeign(source.value);
    } else {
      NoKeyNoFamily();
    }
  }

  lemma CardStepsPersist(s: State, pid: nat, content: string, id: nat)
    ensures Persists(s, ImportCard(s, pid, content))
    ensures Persists(s, DropCard(s, id))
  {
    WithoutSpares(s.cards, id);
  }

  lemma StepPersists(w: World, e: Event)
    requires ShopInv(w.shop) && CallersOk(w)
    ensures Persists(w.shop, Step(w, e).shop)
  {
    hide ShopInv, Judge;
    SameStatePersists(w.shop);
    match e {
      case TxUpdate(caller) =>
        if caller in w.callers && w.callers[caller].Armed? {
          var pc := w.callers[caller];
          assert PcOk(w, caller, pc);
          FinishPersists(w.shop, pc.id, pc.snap, pc.target);
        }
      case PlaceOrder(enabled, user, pid, raw, no) => PlacePersists(w.shop, enabled, user, pid, raw, no);
      case AddCard(pid, content) => CardStepsPersist(w.shop, pid, content, 0);
      case DeleteCard(card) => CardStepsPersist(w.shop, 0, "", card);
      case EditSave(caller, price, enabled) =>
        if caller in w.callers && w.callers[caller].Editing? {
          assert PcOk(w, caller, w.callers[caller]);
        }
      case _ =>
    }
  }

  lemma PcStays(w: World, w': World, caller: nat, pc: Pc)
    requires PcOk(w, caller, pc) && OrdersPersist(w.shop.orders, w'.shop.orders)
    requires SetupPersists(w.shop.products, w'.shop.products)
    requires forall c | c in w.closings :: c in w'.closings
    ensures PcOk(w', caller, pc)
  {
    if pc.Armed? {
      assert SameTerms(w.shop.orders[pc.id - 1], w'.shop.orders[pc.id - 1]);
    }
  }

  /** The caller whose step it is. */
  function Actor(e: Event): Option<nat> {
    match e
    case Dispatch(c, _) => Some(c)
    case Answer(c, _) => Some(c)
    case Callback(c, _, _) => Some(c)
    case Request(c, _, _) => Some(c)
    case TxRead(c) => Some(c)
    case TxUpdate(c) => Some(c)
    case EditRead(c, _) => Some(c)
    case EditSave(c, _, _) => Some(c)
    case _ => None
  }

  lemma OnlyActorMoves(w: World, e: Event)
    ensures forall c | c in Step(w, e).callers ::
              Actor(e) == Some(c) || (c in w.callers && Step(w, e).callers[c] == w.callers[c])
    ensures forall c | c in w.closings :: c in Step(w, e).closings
  {
    hide FinishCommit, FinishReplyOf, Place, Commit, NewProduct, SaveProduct, ImportCard, DropCard, OtherOp;
  }

  lemma ActorOk(w: World, e: Event, c: nat)
    requires ShopInv(w.shop) && Actor(e) == Some(c) && c in Step(w, e).callers
    ensures (c in w.callers && Step(w, e).callers[c] == w.callers[c]) || PcOk(Step(w, e), c, Step(w, e).callers[c])
  {
    hide ShopInv, FinishCommit, FinishReplyOf, SaveProduct;
    if e.EditRead? && e.pid in w.shop.products {
      StockOk(w.shop, e.pid);
    }
  }

  lemma StepKeepsCallers(w: World, e: Event)
    requires ShopInv(w.shop) && CallersOk(w)
    requires OrdersPersist(w.shop.orders, Step(w, e).shop.orders)
    requires SetupPersists(w.shop.products, Step(w, e).shop.products)
    ensures CallersOk(Step(w, e))
  {
    hide Step, ShopInv, OrdersPersist, SetupPersists, PcOk;
    OnlyActorMoves(w, e);
    var w' := Step(w, e);
    forall c | c in w'.callers
      ensures PcOk(w', c, w'.callers[c])
    {
      if Actor(e) == Some(c) {
        ActorOk(w, e, c);
      }
      if c in w.callers {
        PcStays(w, w', c, w.callers[c]);
      }
    }
  }

  lemma StockOk(s: State, pid: nat)
    requires ShopInv(s) && pid in s.products
    ensures s.products[pid].stock >= -1
  {
    assert ProductOk(s.products[pid], pid, s.orders);
  }

  lemma PlacingKeepsHistory(s: State, enabled: bool, user: nat, pid: nat, raw: int, no: OrderNo, closings: seq<Closing>)
    requires HistoryOk(s.orders, closings)
    ensures HistoryOk(Place(s, enabled, user, pid, raw, no).orders, closings)
  {
    var orders' := Place(s, enabled, user, pid, raw, no).orders;
    forall id: nat
      ensures ClosedAsRecorded(orders', closings, id)
    {
      assert ClosedAsRecorded(s.orders, closings, id);
    }
  }

  lemma ClosingKeepsHistory(orders: seq<Order>, closings: seq<Closing>, c: Closing)
    requires HistoryOk(orders, closings) && 1 <= c.id <= |orders|
    requires Open(orders[c.id - 1].status) && !orders[c.id - 1].delivery.Cdk?
    ensures HistoryOk(orders[c.id - 1 := Closed(orders[c.id - 1], c.target)], closings + [c])
  {
    hide Of;
    var orders', closings' := orders[c.id - 1 := Closed(orders[c.id - 1], c.target)], closings + [c];
    forall id: nat
      ensures ClosedAsRecorded(orders', closings', id)
    {
      OfAppend(closings, c, id);
      assert ClosedAsRecorded(orders, closings, id);
    }
  }

  lemma StepKeepsHistory(w: World, e: Event)
    requires WorldInv(w)
    ensures HistoryOk(Step(w, e).shop.orders, Step(w, e).closings)
  {
    hide ShopInv, HistoryOk, Judge;
    match e {
      case TxUpdate(caller) =>
        if caller in w.callers && w.callers[caller].Armed? {
          var pc := w.callers[caller];
          assert PcOk(w, caller, pc);
          if Open(w.shop.orders[pc.id - 1].status) {
            OpenIsNotCdk(w.shop, pc.id - 1);
            ClosingKeepsHistory(w.shop.orders, w.closings, Closing(caller, pc.id, pc.target));
          }
        }
      case PlaceOrder(enabled, user, pid, raw, no) =>
        PlacingKeepsHistory(w.shop, enabled, user, pid, raw, no, w.closings);
      case _ =>
    }
  }

  lemma OpenIsNotCdk(s: State, i: nat)
    requires ShopInv(s) && i < |s.orders| && Open(s.orders[i].status)
    ensures !s.orders[i].delivery.Cdk?
  {
    assert OrderOk(s.orders[i], s.products);
  }

  lemma StepKeepsInv(w: World, e: Event)
    requires WorldInv(w)
    ensures WorldInv(Step(w, e)) && Persists(w.shop, Step(w, e).shop)
  {
    hide ShopInv, CallersOk, HistoryOk, Step;
    StepKeepsShop(w, e);
    StepPersists(w, e);
    StepKeepsCallers(w, e);
    StepKeepsHistory(w, e);
  }

  /** Whatever interleaving of orders, dispatches, retries, callbacks, admin
      actions and other point operations takes place, the shop stays consistent
      and nothing that had been settled at any point of the run changes later. */
  lemma {:induction false} RunKeepsInv(w: World, events: seq<Event>)
    requires WorldInv(w)
    ensures WorldInv(Run(w, events)) && Persists(w.shop, Run(w, events).shop)
    decreases |events|
  {
    hide WorldInv, Persists, Step;
    if events == [] {
      SameStatePersists(w.shop);
    } else {
      StepKeepsInv(w, events[0]);
      var next := Step(w, events[0]);
      RunKeepsInv(next, events[1..]);
      PersistsTrans(w.shop, next.shop, Run(next, events[1..]).shop);
    }
  }

  // ---------- the shop's promises ----------

  lemma StartOk()
    ensures WorldInv(START)
  {
    OpeningOk();
  }

  lemma WinnersAgree(w: World, a: nat, b: nat)
    requires CallersOk(w) && HistoryOk(w.shop.orders, w.closings)
    requires a in w.callers && b in w.callers && w.callers[a].Won? && w.callers[b].Won?
    requires w.callers[a].id == w.callers[b].id
    ensures var id, t := w.callers[a].id, w.callers[a].target;
            && a == b
            && 1 <= id <= |w.shop.orders|
            && Shows(w.shop.orders[id - 1], t)
  {
    var id := w.callers[a].id;
    assert PcOk(w, a, w.callers[a]) && PcOk(w, b, w.callers[b]);
    OfHasAll(w.closings, Closing(a, id, w.callers[a].target));
    OfHasAll(w.closings, Closing(b, id, w.callers[b].target));
    assert ClosedAsRecorded(w.shop.orders, w.closings, id);
  }

  /** An order is closed at most once: two callers that both got through are
      the same caller, and the order shows that caller's outcome. */
  lemma OneTerminalTransition(events: seq<Event>, a: nat, b: nat)
    requires var callers := Run(START, events).callers;
             a in callers && b in callers && callers[a].Won? && callers[b].Won? && callers[a].id == callers[b].id
    ensures var w := Run(START, events);
            var id, t := w.callers[a].id, w.callers[a].target;
            && a == b
            && 1 <= id <= |w.shop.orders|
            && (match t
                case Deliver(content) =>
                  w.shop.orders[id - 1].status == Delivered && w.shop.orders[id - 1].content == content
                case Fail => w.shop.orders[id - 1].status == Failed && w.shop.orders[id - 1].content == ""
                case Cancel => w.shop.orders[id - 1].status == Canceled && w.shop.orders[id - 1].content == "")
  {
    hide ShopInv, CallersOk, HistoryOk, Persists, Run;
    StartOk();
    RunKeepsInv(START, events);
    WinnersAgree(Run(START, events), a, b);
  }

  /** Once closed, an order keeps its status and content for good. */
  lemma ClosedForGood(before: seq<Event>, after: seq<Event>, id: nat)
    requires var w := Run(START, before);
             1 <= id <= |w.shop.orders| && !Open(w.shop.orders[id - 1].status)
    ensures var w, later := Run(START, before), Run(Run(START, before), after);
            id <= |later.shop.orders| && later.shop.orders[id - 1] == w.shop.orders[id - 1]
  {
    hide WorldInv, CardsPersist, SetupPersists, Run;
    StartOk();
    RunKeepsInv(START, before);
    RunKeepsInv(Run(START, before), after);
  }

  /** Exactly-once refunds: in every run an order has one charge of its total
      and, exactly when it failed or was cancelled, one refund of its total. */
  lemma ChargedOnceRefundedOnce(events: seq<Event>, id: nat)
    requires 1 <= id <= |Run(START, events).shop.orders|
    ensures var w := Run(START, events);
            var o := w.shop.orders[id - 1];
            && Moves(w.shop.bank.ledger, ByOrder, o.orderNo) == [(o.user, -o.total)]
            && Moves(w.shop.bank.ledger, ByRefund, o.orderNo)
               == (if o.status == Failed || o.status == Canceled then [(o.user, o.total)] else [])
  {
    hide ShopInv, CallersOk, HistoryOk, Persists, Run, Moves;
    StartOk();
    RunKeepsInv(START, events);
    OrderIsPaidFor(Run(START, events).shop, id - 1);
  }

  lemma OrderIsPaidFor(s: State, i: nat)
    requires ShopInv(s) && i < |s.orders|
    ensures PaidFor(s.bank.ledger, s.orders[i])
  {
    hide LedgerInv, ProductsOk, OrdersOk, RefundKeysOk, CardsOk, Moves;
  }

  /** Purchase limits hold in every run, and a product's setup never changes. */
  lemma LimitsOverRuns(before: seq<Event>, after: seq<Event>, pid: nat, user: nat)
    requires pid in Run(START, before).shop.products
    ensures var s, later := Run(START, before).shop, Run(Run(START, before), after).shop;
            && SetupPersists(s.products, later.products)
            && later.products[pid].stock >= -1
            && (later.products[pid].perUserLimit > 0 ==>
                  LiveQty(later.orders, pid, Some(user)) <= later.products[pid].perUserLimit)
  {
    StartOk();
    RunKeepsInv(START, before);
    RunKeepsInv(Run(START, before), after);
    var later := Run(Run(START, before), after).shop;
    hide Run, LedgerInv, OrdersOk, MoneyOk, RefundKeysOk, CardsOk, CallersOk, HistoryOk;
    assert pid in later.products;
    assert ProductOk(later.products[pid], pid, later.orders);
  }

  /** Card allocation over whole runs: a delivered cdk order owns exactly its
      quantity of cards, its content is theirs in id order, and a card that has
      an owner stays with it unchanged. */
  lemma CardAllocation(before: seq<Event>, after: seq<Event>, id: nat)
    requires var s := Run(START, before).shop;
             1 <= id <= |s.orders| && s.orders[id - 1].delivery.Cdk?
    ensures var s, later := Run(START, before).shop, Run(Run(START, before), after).shop;
            var own := Owned(s.cards, id);
            && |own| == s.orders[id - 1].quantity
            && s.orders[id - 1].content == Join(Contents(own))
            && (forall i, j | 0 <= i < j < |s.cards| :: s.cards[i].id < s.cards[j].id)
            && (forall c | c in s.cards && c.order != 0 :: c in later.cards)
  {
    StartOk();
    RunKeepsInv(START, before);
    RunKeepsInv(Run(START, before), after);
    hide Run, LedgerInv, ProductsOk, OrdersOk, MoneyOk, RefundKeysOk, CallersOk, HistoryOk;
    var s := Run(START, before).shop;
    assert HasItsCards(s.cards, s.orders, id);
  }

  /** The ledger invariant holds in every reachable shop. */
  lemma BankOverShopRuns(events: seq<Event>)
    ensures LedgerInv(Run(START, events).shop.bank)
  {
    StartOk();
    RunKeepsInv(START, events);
  }
}
