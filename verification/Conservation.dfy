/** Stock and sold counters over whole runs of the shop. They are conserved as
    long as no administrator saves a copy of a product that was read before a
    sale or a refund; a single such save breaks them. */
module Conservation {
  import opened Options
  import opened OrderRace
  import P = Points
  import opened Shop
  import opened ShopProofs

  /** What is left of a limited product plus what is out on live orders. */
  function Circulating(s: State, pid: nat): int
    requires pid in s.products
  {
    s.products[pid].stock + LiveQty(s.orders, pid, None)
  }

  ghost predicate StockConserved(a: State, b: State) {
    forall pid | pid in a.products ::
      && pid in b.products
      && (Limited(a.products[pid]) ==> Limited(b.products[pid]) && Circulating(b, pid) == Circulating(a, pid))
      && (!Limited(a.products[pid]) ==> !Limited(b.products[pid]) && b.products[pid].stock == a.products[pid].stock)
  }

  /** Counters in order, and nothing gained or lost since a. */
  ghost predicate Conserves(a: State, b: State) {
    SoldOk(b.products, b.orders) && StockConserved(a, b)
  }

  /** If e saves a product, the copy still has the stock and the sold count
      that the stored row has now. */
  predicate Fresh(w: World, e: Event) {
    e.EditSave? && e.caller in w.callers && w.callers[e.caller].Editing? && e.price >= 0 ==>
      var pc := w.callers[e.caller];
      pc.pid in w.shop.products
      && pc.row.stock == w.shop.products[pc.pid].stock && pc.row.sold == w.shop.products[pc.pid].sold
  }

  predicate AllFresh(w: World, events: seq<Event>)
    decreases |events|
  {
    events == [] || (Fresh(w, events[0]) && AllFresh(Step(w, events[0]), events[1..]))
  }

  lemma ConservedTrans(a: State, b: State, c: State)
    requires StockConserved(a, b) && StockConserved(b, c)
    ensures StockConserved(a, c)
  {
  }

  lemma ConservedStays(s: State)
    ensures StockConserved(s, s)
  {
  }

  lemma PlaceConserves(s: State, enabled: bool, user: nat, pid: nat, raw: int, no: OrderNo)
    requires SoldOk(s.products, s.orders)
    ensures Conserves(s, Place(s, enabled, user, pid, raw, no))
  {
    hide NumberTaken, P.Judge, Unused, Take, Contents, Join;
    if PlaceCheck(s, enabled, user, pid, raw, no).None? {
      var o := NewOrder(s, user, pid, Quantity(raw), no);
      PlacedSold(s.products, s.orders, o);
      hide SoldOk;
      forall k: nat
        ensures LiveQty(s.orders + [o], k, None) == LiveQty(s.orders, k, None) + Counted(o, k, None)
      {
        LiveAppend(s.orders, o, k, None);
      }
    }
  }

  /** Closing an order moves its quantity from the live side to the stock. */
  lemma ClosingConserves(s: State, i: nat, t: Target)
    requires SoldOk(s.products, s.orders) && OrdersOk(s.products, s.orders)
    requires i < |s.orders| && Open(s.orders[i].status)
    ensures Conserves(s, s.(orders := s.orders[i := Closed(s.orders[i], t)],
                            products := if t.Deliver? then s.products else Restocked(s.products, s.orders[i])))
  {
    ClosedSold(s.products, s.orders, i, t);
    hide SoldOk, OrdersOk;
    forall pid | pid in s.products
      ensures LiveQty(s.orders[i := Closed(s.orders[i], t)], pid, None)
           == LiveQty(s.orders, pid, None)
             - Counted(s.orders[i], pid, None) + Counted(Closed(s.orders[i], t), pid, None)
    {
      LiveUpdate(s.orders, i, Closed(s.orders[i], t), pid, None);
    }
  }

  lemma FinishConserves(s: State, id: nat, snap: Order, t: Target)
    requires ShopInv(s) && SoldOk(s.products, s.orders) && 1 <= id <= |s.orders|
    requires SameTerms(snap, s.orders[id - 1])
    ensures Conserves(s, FinishCommit(s, id, snap, t))
  {
    hide ShopInv, SoldOk, OrdersOk, Restocked, StockConserved, FinishCommit;
    FinishShape(s, id, snap, t);
    ConservedStays(s);
    var o := s.orders[id - 1];
    if Open(o.status) {
      assert OrdersOk(s.products, s.orders) by { OrdersAreOk(s); }
      ClosingConserves(s, id - 1, t);
      SameShop(s, s.(orders := s.orders[id - 1 := Closed(o, t)],
                     products := if t.Deliver? then s.products else Restocked(s.products, o)),
               FinishCommit(s, id, snap, t));
    }
  }

  lemma OrdersAreOk(s: State)
    requires ShopInv(s)
    ensures OrdersOk(s.products, s.orders)
  {
  }

  /** Only products and orders matter. */
  lemma SameShop(a: State, b: State, c: State)
    requires Conserves(a, b) && b.products == c.products && b.orders == c.orders
    ensures Conserves(a, c)
  {
  }

  /** The exact condition for one save: it conserves the counters if and only
      if the saved copy still has the stored stock and sold count. */
  lemma SaveConserves(s: State, pid: nat, row: Product, price: int, enabled: bool)
    requires SoldOk(s.products, s.orders) && pid in s.products && SameSetup(row, s.products[pid]) && price >= 0
    ensures Conserves(s, SaveProduct(s, pid, row, price, enabled))
       <==> row.stock == s.products[pid].stock && row.sold == s.products[pid].sold
  {
    var s' := SaveProduct(s, pid, row, price, enabled);
    assert s'.products[pid].sold == row.sold && s'.products[pid].stock == row.stock;
    if row.stock != s.products[pid].stock {
      assert Limited(s.products[pid]) ==> Circulating(s', pid) != Circulating(s, pid);
    }
  }

  lemma StepConserves(w: World, e: Event)
    requires WorldInv(w) && SoldOk(w.shop.products, w.shop.orders) && Fresh(w, e)
    ensures Conserves(w.shop, Step(w, e).shop)
  {
    hide ShopInv, HistoryOk, SoldOk, StockConserved, P.Judge;
    ConservedStays(w.shop);
    match e {
      case TxUpdate(caller) =>
        if caller in w.callers && w.callers[caller].Armed? {
          var pc := w.callers[caller];
          assert PcOk(w, caller, pc);
          FinishConserves(w.shop, pc.id, pc.snap, pc.target);
        }
      case PlaceOrder(enabled, user, pid, raw, no) => PlaceConserves(w.shop, enabled, user, pid, raw, no);
      case AddProduct(pid, product) =>
        NewProductKeepsInv(w.shop, pid, product);
        NewProductConserves(w.shop, pid, product);
      case EditSave(caller, price, enabled) =>
        if caller in w.callers && w.callers[caller].Editing? {
          var pc := w.callers[caller];
          assert PcOk(w, caller, pc);
          if price >= 0 {
            SaveConserves(w.shop, pc.pid, pc.row, price, enabled);
          }
        }
      case _ => SameShop(w.shop, w.shop, Step(w, e).shop);
    }
  }

  lemma NewProductConserves(s: State, pid: nat, p: Product)
    ensures StockConserved(s, NewProduct(s, pid, p))
  {
  }

  lemma {:induction false} RunConserves(w: World, events: seq<Event>)
    requires WorldInv(w) && SoldOk(w.shop.products, w.shop.orders) && AllFresh(w, events)
    ensures Conserves(w.shop, Run(w, events).shop)
    decreases |events|
  {
    hide WorldInv, SoldOk, StockConserved, Step, Fresh;
    if events == [] {
      ConservedStays(w.shop);
    } else {
      var next := Step(w, events[0]);
      StepKeepsInv(w, events[0]);
      StepConserves(w, events[0]);
      RunConserves(next, events[1..]);
      ConservedTrans(w.shop, next.shop, Run(next, events[1..]).shop);
    }
  }

  /** Conservation over whole runs in which no save is stale: sold is the
      quantity of the live orders, and limited stock plus live quantity never
      changes. */
  lemma {:induction false} ShopConservation(before: seq<Event>, after: seq<Event>, pid: nat)
    requires AllFresh(START, before) && AllFresh(Run(START, before), after)
    requires pid in Run(START, before).shop.products
    ensures var s, later := Run(START, before).shop, Run(Run(START, before), after).shop;
            && pid in later.products
            && later.products[pid].sold == LiveQty(later.orders, pid, None)
            && (Limited(s.products[pid]) ==>
                  later.products[pid].stock >= 0 && Circulating(later, pid) == Circulating(s, pid))
  {
    hide WorldInv, Run, AllFresh;
    StartOk();
    OpeningOk();
    RunKeepsInv(START, before);
    RunConserves(START, before);
    RunConserves(Run(START, before), after);
  }

  // ---------- a save that is not fresh ----------

  lemma Extend(events: seq<Event>, e: Event) returns (events': seq<Event>)
    ensures Run(START, events') == Step(Run(START, events), e)
  {
    events' := events + [e];
    RunAppend(START, events, e);
  }

  lemma {:induction false} RunAppend(w: World, events: seq<Event>, e: Event)
    ensures Run(w, events + [e]) == Step(Run(w, events), e)
    decreases |events|
  {
    hide Step;
    if events == [] {
      assert [] + [e] == [e];
      assert Run(Step(w, e), [e][1..]) == Step(w, e);
    } else {
      assert (events + [e])[0] == events[0] && (events + [e])[1..] == events[1..] + [e];
      RunAppend(Step(w, events[0]), events[1..], e);
    }
  }

  /** Whatever the shop, an order that is placed while the product is being
      edited is forgotten by the counters when the edit is saved. */
  lemma OrderDuringEditIsForgotten(s: State, user: nat, pid: nat, raw: int, no: OrderNo, price: int, enabled: bool)
    requires SoldOk(s.products, s.orders) && price >= 0
    requires PlaceCheck(s, true, user, pid, raw, no).None?
    ensures var later := SaveProduct(Place(s, true, user, pid, raw, no), pid, s.products[pid], price, enabled);
            && pid in later.products
            && later.products[pid].sold == LiveQty(later.orders, pid, None) - Quantity(raw)
            && later.products[pid].stock == s.products[pid].stock
  {
    hide PlaceCheck, LiveQty, Place;
    PlacedQuantity(s, user, pid, raw, no);
  }

  lemma PlacedQuantity(s: State, user: nat, pid: nat, raw: int, no: OrderNo)
    requires PlaceCheck(s, true, user, pid, raw, no).None?
    ensures pid in s.products
    ensures var s' := Place(s, true, user, pid, raw, no);
            pid in s'.products && LiveQty(s'.orders, pid, None) == LiveQty(s.orders, pid, None) + Quantity(raw)
  {
    hide LiveQty, NumberTaken, P.Judge, P.Post, Take, Contents, Join, Unused;
    var o := NewOrder(s, user, pid, Quantity(raw), no);
    LiveAppend(s.orders, o, pid, None);
  }

  /** A run after which a product has sold 0 although an order of it is live. */
  lemma StaleSaveBreaksConservation(no: OrderNo) returns (events: seq<Event>)
    ensures var s := Run(START, events).shop; !SoldOk(s.products, s.orders)
  {
    events := OnSale();
    hide Run, PlaceCheck, Place, SaveProduct, SoldOk;
    var w := Run(START, events);
    assert Quantity(1) == 1;
    assert SoldOk(w.shop.products, w.shop.orders) by { OneUnsold(w.shop); }
    assert PlaceCheck(w.shop, true, 1, 1, 1, no).None? by { CanBuy(w.shop, no); }
    OrderDuringEditIsForgotten(w.shop, 1, 1, 1, no, 1, true);
    events := Extend(events, EditRead(0, 1));
    events := Extend(events, PlaceOrder(true, 1, 1, 1, no));
    events := Extend(events, EditSave(0, 1, true));
    var s := Run(START, events).shop;
    assert s.products[1].sold != LiveQty(s.orders, 1, None);
    SoldNotOk(s, 1);
  }

  const WIDGET := Product(1, Manual, 5, 0, 0, true)

  /** One product, five in stock, and user 1 with ten points. */
  lemma OnSale() returns (events: seq<Event>)
    ensures var w := Run(START, events);
            && w.shop.products == map[1 := WIDGET] && w.shop.orders == [] && w.callers == map[]
            && P.BalanceOf(w.shop.bank, 1) == 10
  {
    events := [];
    hide Run;
    assert Run(START, events) == START by { RunNothing(); }
    events := Extend(events, AddProduct(1, WIDGET));
    events := Extend(events, OtherPoints(1, 10, P.ByAdmin, "", None));
  }

  lemma OneUnsold(s: State)
    requires s.products == map[1 := WIDGET] && s.orders == []
    ensures SoldOk(s.products, s.orders)
  {
  }

  lemma CanBuy(s: State, no: OrderNo)
    requires s.products == map[1 := WIDGET] && s.orders == [] && P.BalanceOf(s.bank, 1) == 10
    ensures PlaceCheck(s, true, 1, 1, 1, no).None?
  {
    hide PlaceCheck, Place;
    AcceptedIffPriced(s, 1, 1, 1, no);
  }

  lemma SoldNotOk(s: State, pid: nat)
    requires pid in s.products && s.products[pid].sold != LiveQty(s.orders, pid, None)
    ensures !SoldOk(s.products, s.orders)
  {
  }

  lemma RunNothing()
    ensures Run(START, []) == START
  {
  }
}
