/** What single shop operations do, said in the fields of the request and of
    the tables: who is accepted, what the new order holds, what finishing it
    leaves behind, and how a webhook order is brought to its end. */
module OrderFacts {
  import opened Keys
  import opened Options
  import opened OrderRace
  import P = Points
  import opened Shop
  import opened ShopProofs

  // ---------- placing ----------

  /** Live quantities of a user count the orders of that user for that product
      that have neither failed nor been cancelled. */
  lemma LiveQtyCounts(orders: seq<Order>, o: Order, pid: nat, user: nat)
    ensures LiveQty([], pid, Some(user)) == 0
    ensures LiveQty(orders + [o], pid, Some(user))
         == LiveQty(orders, pid, Some(user))
            + if o.product == pid && o.user == user && o.status != Failed && o.status != Canceled then o.quantity else 0
  {
    LiveAppend(orders, o, pid, Some(user));
  }

  /** The complete condition under which an order is accepted. */
  lemma AcceptedIff(s: State, enabled: bool, user: nat, pid: nat, raw: int, no: OrderNo)
    requires ShopInv(s)
    ensures var q := if raw <= 0 then 1 else raw;
            PlaceCheck(s, enabled, user, pid, raw, no).None? <==>
              && enabled && q <= 20 && user != 0
              && pid in s.products
              && var p := s.products[pid];
              && p.enabled && p.price > 0 && P.BalanceOf(s.bank, user) >= p.price * q
              && (p.perUserLimit > 0 ==> LiveQty(s.orders, pid, Some(user)) + q <= p.perUserLimit)
              && (forall i | 0 <= i < |s.orders| :: s.orders[i].orderNo != no)
              && (if p.delivery.Cdk? then |Unused(s.cards, pid)| >= q else p.stock == -1 || p.stock >= q)
  {
    hide LiveQty, Unused, ShopInv, P.HasKey;
    if pid in s.products {
      PriceOk(s, pid);
      StockOk(s, pid);
      TotalIsPositive(s.products[pid].price, Quantity(raw));
    }
  }

  /** A refusal names a reason that applies. */
  lemma RefusalIsTrue(s: State, enabled: bool, user: nat, pid: nat, raw: int, no: OrderNo)
    ensures var q := if raw <= 0 then 1 else raw;
            match PlaceCheck(s, enabled, user, pid, raw, no)
            case None => true
            case Some(PointsOff) => !enabled
            case Some(TooMany) => q > 20
            case Some(NoProduct) => pid !in s.products || !s.products[pid].enabled
            case Some(OverLimit) =>
              && pid in s.products && s.products[pid].perUserLimit > 0
              && LiveQty(s.orders, pid, Some(user)) + q > s.products[pid].perUserLimit
            case Some(DuplicateNo) => exists i | 0 <= i < |s.orders| :: s.orders[i].orderNo == no
            case Some(OutOfStock) =>
              && pid in s.products
              && if s.products[pid].delivery.Cdk? then |Unused(s.cards, pid)| < q else 0 <= s.products[pid].stock < q
            case Some(NotPaid(v)) =>
              pid in s.products && v == P.Judge(s.bank, P.Op(user, -s.products[pid].price * q, P.ByOrder, no, ""))
  {
    hide LiveQty, Unused, P.Judge;
  }

  /** An accepted order takes its terms from the request and the product row:
      a webhook order starts processing, a manual one pending, and a cdk order
      is delivered with its cards. It is appended, and no other order changes. */
  lemma AcceptedOrderIs(s: State, enabled: bool, user: nat, pid: nat, raw: int, no: OrderNo)
    requires PlaceCheck(s, enabled, user, pid, raw, no).None?
    ensures pid in s.products
    ensures var s', p := Place(s, enabled, user, pid, raw, no), s.products[pid];
            && |s'.orders| == |s.orders| + 1 && s'.orders[..|s.orders|] == s.orders
            && var o := s'.orders[|s.orders|];
            && o.orderNo == no && o.user == user && o.product == pid && o.delivery == p.delivery
            && o.quantity == (if raw <= 0 then 1 else raw)
            && o.unitPrice == p.price && o.total == p.price * o.quantity
            && (p.delivery.Webhook? ==> o.status == Processing && o.content == "")
            && (p.delivery.Manual? ==> o.status == Pending && o.content == "")
            && (p.delivery.Cdk? ==>
                  && o.status == Delivered && o.quantity <= |Unused(s.cards, pid)|
                  && o.content == Join(Contents(Unused(s.cards, pid)[..o.quantity])))
            && s'.products == s.products[pid := s'.products[pid]]
            && s'.products[pid].sold == p.sold + o.quantity
            && s'.products[pid].stock == (if p.delivery.Cdk? || p.stock < 0 then p.stock else p.stock - o.quantity)
            && s'.products[pid].price == p.price && s'.products[pid].enabled == p.enabled
  {
    hide LiveQty, Unused, NumberTaken, P.Judge, P.Post, Take, Contents, Join;
  }

  /** Join undone: cutting at line ends gives the cards back. */
  function Lines(text: string): seq<string> {
    if text == "" then [""]
    else
      var rest := Lines(text[1..]);
      if text[0] == '\n' then [""] + rest
      else if rest == [] then [[text[0]]]
      else [[text[0]] + rest[0]] + rest[1..]
  }

  predicate OneLine(part: string) {
    '\n' !in part
  }

  lemma {:induction false} LinesOfOne(part: string)
    requires OneLine(part)
    ensures Lines(part) == [part]
  {
    if part != "" {
      LinesOfOne(part[1..]);
      assert [part[0]] + part[1..] == part;
    }
  }

  lemma {:induction false} LinesOfMore(part: string, rest: string)
    requires OneLine(part)
    ensures Lines(part + "\n" + rest) == [part] + Lines(rest)
  {
    var text := part + "\n" + rest;
    if part == "" {
      assert text[1..] == rest;
    } else {
      LinesOfMore(part[1..], rest);
      assert text[1..] == part[1..] + "\n" + rest;
      assert [part[0]] + part[1..] == part;
    }
  }

  /** The delivered text of a cdk order determines its cards: one card a line,
      in order. */
  lemma {:induction false} ContentReadsBack(parts: seq<string>)
    requires parts != [] && forall i | 0 <= i < |parts| :: OneLine(parts[i])
    ensures Lines(Join(parts)) == parts
  {
    hide Lines, OneLine;
    if |parts| == 1 {
      LinesOfOne(parts[0]);
      assert parts == [parts[0]];
    } else {
      ContentReadsBack(parts[1..]);
      LinesOfMore(parts[0], Join(parts[1..]));
      assert parts == [parts[0]] + parts[1..];
    }
  }

  // ---------- finishing ----------

  /** Finishing an order goes through exactly for an open one. */
  lemma FinishesIfOpen(s: State, id: nat, t: Target)
    requires ShopInv(s)
    ensures FinishSerialReply(s, id, t) ==
            if id == 0 || id > |s.orders| then NotFound
            else if s.orders[id - 1].status != Pending && s.orders[id - 1].status != Processing then NotOpen
            else Finished
    ensures FinishSerialReply(s, id, t) != Finished ==> FinishSerial(s, id, t) == s
  {
    hide ShopInv, P.Judge, KeyOf;
    if 1 <= id <= |s.orders| && Open(s.orders[id - 1].status) {
      OpenOrderOk(s, id - 1);
    }
  }

  /** A delivery stores its content; a failure or a cancellation leaves the
      content alone. Nothing else of the order and no other order changes. */
  lemma FinishSetsOutcome(s: State, id: nat, t: Target)
    requires FinishSerialReply(s, id, t) == Finished
    ensures 1 <= id <= |s.orders|
    ensures var s', o := FinishSerial(s, id, t), s.orders[id - 1];
            && |s'.orders| == |s.orders|
            && (forall i | 0 <= i < |s.orders| && i != id - 1 :: s'.orders[i] == s.orders[i])
            && var o' := s'.orders[id - 1];
            && SameButOutcome(o, o')
            && (match t
                case Deliver(content) => o'.status == Delivered && o'.content == content
                case Fail => o'.status == Failed && o'.content == o.content
                case Cancel => o'.status == Canceled && o'.content == o.content)
            && s'.cards == s.cards && (t.Deliver? ==> s'.products == s.products && s'.bank == s.bank)
  {
    hide P.Judge, P.Commit, RefundOp, Restocked;
  }

  /** A failed or cancelled order gives the points back and restocks its
      product; no other product changes. */
  lemma FinishGivesBack(s: State, id: nat, t: Target)
    requires ShopInv(s) && SoldOk(s.products, s.orders)
    requires FinishSerialReply(s, id, t) == Finished && !t.Deliver?
    ensures 1 <= id <= |s.orders|
    ensures var s', o := FinishSerial(s, id, t), s.orders[id - 1];
            && P.BalanceOf(s'.bank, o.user) == P.BalanceOf(s.bank, o.user) + o.total
            && o.product in s.products
            && s'.products == s.products[o.product := s'.products[o.product]]
            && var p, p' := s.products[o.product], s'.products[o.product];
               && p'.stock == (if p.delivery.Cdk? || p.stock == -1 then p.stock else p.stock + o.quantity)
               && p'.sold == p.sold - o.quantity
  {
    hide ShopInv, SoldOk, P.Judge, P.Commit, RefundOp, P.BalanceOf, Closed;
    var o := s.orders[id - 1];
    OpenOrderOk(s, id - 1);
    SoldCovers(s, id - 1);
    StockOk(s, o.product);
    RefundMoves(s, o);
  }

  /** The terms of the order stay. */
  predicate SameButOutcome(o: Order, o': Order) {
    && o'.orderNo == o.orderNo && o'.user == o.user && o'.product == o.product && o'.delivery == o.delivery
    && o'.quantity == o.quantity && o'.unitPrice == o.unitPrice && o'.total == o.total
  }

  lemma OpenOrderOk(s: State, i: nat)
    requires ShopInv(s) && i < |s.orders| && Open(s.orders[i].status)
    ensures OrderOk(s.orders[i], s.products) && P.Judge(s.bank, RefundOp(s.orders[i])) == P.Applied
  {
    hide P.Judge, P.LedgerInv, MoneyOk, RefundKeysOk, CardsOk, ProductsOk;
    RefundGoesThrough(s.bank, s.orders, i);
  }

  lemma RefundMoves(s: State, o: Order)
    requires P.Judge(s.bank, RefundOp(o)) == P.Applied
    ensures P.BalanceOf(P.Commit(s.bank, RefundOp(o)), o.user) == P.BalanceOf(s.bank, o.user) + o.total
  {
    hide P.Judge, KeyOf;
  }

  // ---------- the way of a webhook order ----------

  /** A dispatch right after placing posts a webhook order and leaves every
      other kind alone. */
  lemma DispatchAfterPlacing(w: World, enabled: bool, user: nat, pid: nat, raw: int, no: OrderNo, caller: nat)
    requires PlaceCheck(w.shop, enabled, user, pid, raw, no).None? && caller !in w.callers
    ensures var placed := Step(w, PlaceOrder(enabled, user, pid, raw, no));
            var id := |w.shop.orders| + 1;
            var w' := Step(placed, Dispatch(caller, id));
            && w'.shop == placed.shop && caller in w'.callers
            && w'.callers[caller] == if w.shop.products[pid].delivery.Webhook? then AwaitHook(id) else Lost(id)
  {
    AcceptedOrderIs(w.shop, enabled, user, pid, raw, no);
    hide PlaceCheck, Place;
  }

  /** The transaction of finishOrder without anybody in between. */
  function Uninterrupted(w: World, caller: nat): World {
    Step(Step(w, TxRead(caller)), TxUpdate(caller))
  }

  lemma UninterruptedIsSerial(w: World, caller: nat, id: nat, t: Target)
    requires caller in w.callers && w.callers[caller] == Want(id, t)
    ensures Uninterrupted(w, caller).shop == FinishSerial(w.shop, id, t)
  {
    hide FinishReplyOf, FinishCommit;
  }

  lemma WantIsDone(w: World, caller: nat, id: nat, t: Target)
    requires ShopInv(w.shop) && SoldOk(w.shop.products, w.shop.orders)
    requires caller in w.callers && w.callers[caller] == Want(id, t) && 1 <= id <= |w.shop.orders|
    ensures var s', o := Uninterrupted(w, caller).shop, w.shop.orders[id - 1];
            && |s'.orders| == |w.shop.orders|
            && if !Open(o.status) then s' == w.shop
               else
                 && (t.Deliver? ==> s'.orders[id - 1].status == Delivered && s'.orders[id - 1].content == t.content)
                 && (t.Fail? ==> s'.orders[id - 1].status == Failed)
                 && (t.Cancel? ==> s'.orders[id - 1].status == Canceled)
                 && (!t.Deliver? ==> P.BalanceOf(s'.bank, o.user) == P.BalanceOf(w.shop.bank, o.user) + o.total)
  {
    UninterruptedIsSerial(w, caller, id, t);
    FinishesIfOpen(w.shop, id, t);
    hide ShopInv, SoldOk, Uninterrupted, FinishSerialReply, FinishSerial, P.BalanceOf;
    if Open(w.shop.orders[id - 1].status) {
      FinishSetsOutcome(w.shop, id, t);
      if !t.Deliver? {
        FinishGivesBack(w.shop, id, t);
      }
    }
  }

  const NOTICE := "已由发放接口完成发货"

  lemma HookIsAsked(w: World, caller: nat, id: nat, hook: HookAnswer)
    requires caller !in w.callers && 1 <= id <= |w.shop.orders| && w.shop.orders[id - 1].status == Processing
    ensures var asked := Step(Step(w, Dispatch(caller, id)), Answer(caller, hook));
            && asked.shop == w.shop && caller in asked.callers
            && asked.callers[caller] == match hook
               case HookContent(c) => Want(id, Deliver(if c == "" then NOTICE else c))
               case HookPending => Lost(id)
               case _ => Want(id, Fail)
  {
  }

  /** What the delivery interface answers decides the order, if nobody comes in
      between: content delivers it, an error or a rejection fails it and gives
      the points back, and "pending" leaves it processing. */
  lemma HookDecides(w: World, caller: nat, id: nat, hook: HookAnswer)
    requires ShopInv(w.shop) && SoldOk(w.shop.products, w.shop.orders) && caller !in w.callers
    requires 1 <= id <= |w.shop.orders| && w.shop.orders[id - 1].status == Processing
    ensures var w' := Uninterrupted(Step(Step(w, Dispatch(caller, id)), Answer(caller, hook)), caller);
            var o := w.shop.orders[id - 1];
            && |w'.shop.orders| == |w.shop.orders|
            && var o' := w'.shop.orders[id - 1];
            match hook
            case HookContent(c) => o'.status == Delivered && o'.content == (if c == "" then NOTICE else c)
            case HookPending => w'.shop == w.shop
            case _ =>
              && o'.status == Failed
              && P.BalanceOf(w'.shop.bank, o.user) == P.BalanceOf(w.shop.bank, o.user) + o.total
  {
    hide ShopInv, SoldOk, Step, Uninterrupted, P.BalanceOf;
    HookIsAsked(w, caller, id, hook);
    var asked := Step(Step(w, Dispatch(caller, id)), Answer(caller, hook));
    if hook.HookPending? {
      LostIsIdle(asked, caller);
    } else {
      WantIsDone(asked, caller, id, asked.callers[caller].target);
    }
  }

  lemma LostIsIdle(w: World, caller: nat)
    requires caller in w.callers && w.callers[caller].Lost?
    ensures Uninterrupted(w, caller) == w
  {
  }

  lemma RequestIsTaken(w: World, caller: nat, id: nat, t: Target)
    requires caller !in w.callers && (t.Deliver? ==> !Blank(t.content))
    ensures var w' := Step(w, Request(caller, id, t));
            w'.shop == w.shop && caller in w'.callers && w'.callers[caller] == Want(id, t)
  {
  }

  lemma RefusedIsIdle(w: World, caller: nat, id: nat, t: Target)
    requires caller !in w.callers && t.Deliver? && Blank(t.content)
    ensures Uninterrupted(Step(w, Request(caller, id, t)), caller) == w
  {
  }

  /** An administrator's delivery or cancellation and a failure reported by the
      delivery interface do to an open order what they ask for, if nobody comes
      in between; a closed order stays, and a delivery without content is
      refused. */
  lemma RequestDecides(w: World, caller: nat, id: nat, t: Target)
    requires ShopInv(w.shop) && SoldOk(w.shop.products, w.shop.orders) && caller !in w.callers
    requires 1 <= id <= |w.shop.orders|
    ensures var w' := Uninterrupted(Step(w, Request(caller, id, t)), caller);
            var o := w.shop.orders[id - 1];
            && |w'.shop.orders| == |w.shop.orders|
            && var o' := w'.shop.orders[id - 1];
            if o.status != Pending && o.status != Processing then w'.shop == w.shop
            else if t.Deliver? && Blank(t.content) then w'.shop == w.shop
            else match t
              case Deliver(c) => o'.status == Delivered && o'.content == c
              case Fail => o'.status == Failed
                           && P.BalanceOf(w'.shop.bank, o.user) == P.BalanceOf(w.shop.bank, o.user) + o.total
              case Cancel => o'.status == Canceled
                             && P.BalanceOf(w'.shop.bank, o.user) == P.BalanceOf(w.shop.bank, o.user) + o.total
  {
    hide ShopInv, SoldOk, Step, Uninterrupted, P.BalanceOf;
    if t.Deliver? && Blank(t.content) {
      RefusedIsIdle(w, caller, id, t);
    } else {
      RequestIsTaken(w, caller, id, t);
      WantIsDone(Step(w, Request(caller, id, t)), caller, id, t);
    }
  }

  lemma CallbackIsTaken(w: World, caller: nat, id: nat, content: string)
    requires caller !in w.callers && 1 <= id <= |w.shop.orders|
    ensures var called := Step(w, Callback(caller, id, content));
            && called.shop == w.shop && caller in called.callers
            && called.callers[caller] ==
               if w.shop.orders[id - 1].status == Delivered then Lost(id)
               else Want(id, Deliver(if Blank(content) then NOTICE else content))
  {
  }

  /** A delivery callback delivers an open order and leaves a closed one as it
      is, if nobody comes in between. */
  lemma CallbackDelivers(w: World, caller: nat, id: nat, content: string)
    requires ShopInv(w.shop) && SoldOk(w.shop.products, w.shop.orders) && caller !in w.callers
    requires 1 <= id <= |w.shop.orders|
    ensures var w' := Uninterrupted(Step(w, Callback(caller, id, content)), caller);
            var o := w.shop.orders[id - 1];
            && |w'.shop.orders| == |w.shop.orders|
            && var o' := w'.shop.orders[id - 1];
            if o.status == Pending || o.status == Processing
            then o'.status == Delivered && o'.content == (if Blank(content) then NOTICE else content)
            else w'.shop == w.shop
  {
    hide ShopInv, SoldOk, Step, Uninterrupted, P.BalanceOf;
    CallbackIsTaken(w, caller, id, content);
    var called := Step(w, Callback(caller, id, content));
    if w.shop.orders[id - 1].status == Delivered {
      LostIsIdle(called, caller);
    } else {
      WantIsDone(called, caller, id, called.callers[caller].target);
    }
  }

  // ---------- catalogue and cards ----------

  /** An edit between whose read and write nobody comes sets the price and the
      switch and nothing else; a negative price is refused. */
  lemma EditSetsPrice(w: World, caller: nat, pid: nat, price: int, enabled: bool)
    requires caller !in w.callers && pid in w.shop.products
    ensures var w' := Step(Step(w, EditRead(caller, pid)), EditSave(caller, price, enabled));
            var p := w.shop.products[pid];
            w'.shop == if price < 0 then w.shop
                       else w.shop.(products := w.shop.products[pid :=
                              Product(price, p.delivery, p.stock, p.perUserLimit, p.sold, enabled)])
  {
  }

  /** A new product comes as entered, with nothing sold. */
  lemma ProductIsAdded(s: State, pid: nat, p: Product)
    requires pid !in s.products
    ensures NewProduct(s, pid, p) ==
            if p.price < 0 || p.stock < -1 || p.perUserLimit < 0 then s
            else s.(products := s.products[pid := Product(p.price, p.delivery, p.stock, p.perUserLimit, 0, p.enabled)])
  {
  }

  /** Importing a card puts it behind the product's unused ones. */
  lemma ImportedCardIsLast(s: State, pid: nat, content: string)
    requires pid in s.products && s.products[pid].delivery.Cdk?
    ensures var s' := ImportCard(s, pid, content);
            && Unused(s'.cards, pid) == Unused(s.cards, pid) + [Card(s.nextCard, pid, 0, content)]
            && s'.nextCard == s.nextCard + 1
  {
    UnusedAppend(s.cards, Card(s.nextCard, pid, 0, content), pid);
  }

  lemma {:induction false} UnusedAppend(cards: seq<Card>, c: Card, pid: nat)
    ensures Unused(cards + [c], pid) == Unused(cards, pid) + if c.product == pid && c.order == 0 then [c] else []
  {
    if cards == [] {
      assert (cards + [c])[1..] == [];
    } else {
      UnusedAppend(cards[1..], c, pid);
      var first := if cards[0].product == pid && cards[0].order == 0 then [cards[0]] else [];
      var added := if c.product == pid && c.order == 0 then [c] else [];
      assert (cards + [c])[1..] == cards[1..] + [c] && (cards + [c])[0] == cards[0];
      assert first + (Unused(cards[1..], pid) + added) == (first + Unused(cards[1..], pid)) + added;
    }
  }

  /** A card is deleted exactly if it is unused; all others stay. */
  lemma DroppedCardIsGone(s: State, id: nat)
    requires ShopInv(s)
    ensures forall c | c in DropCard(s, id).cards :: c in s.cards && !(c.id == id && c.order == 0)
    ensures forall c | c in s.cards && !(c.id == id && c.order == 0) :: c in DropCard(s, id).cards
  {
    hide P.LedgerInv, ProductsOk, OrdersOk, MoneyOk, RefundKeysOk;
    WithoutExact(s.cards, id);
  }

  lemma {:induction false} WithoutExact(cards: seq<Card>, id: nat)
    requires forall i, j | 0 <= i < j < |cards| :: cards[i].id < cards[j].id
    ensures forall c :: c in Without(cards, id) <==> c in cards && !(c.id == id && c.order == 0)
  {
    if cards != [] {
      var first, rest := cards[0], cards[1..];
      WithoutExact(rest, id);
      assert forall c :: c in cards <==> c == first || c in rest;
      if first.id == id && first.order == 0 {
        forall c | c in rest
          ensures c.id != id
        {
        }
      } else {
        assert Without(cards, id) == [first] + Without(rest, id);
      }
    }
  }
}
