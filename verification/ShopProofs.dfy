/** What every shop transaction keeps: purchase limits, one charge and at most
    one refund row per order, card ownership, and the sold counters. */
module ShopProofs {
  import opened Keys
  import opened Options
  import opened Points
  import opened Shop
  import opened Text

  // ---------- the invariant ----------

  ghost predicate ProductOk(p: Product, pid: nat, orders: seq<Order>) {
    && p.price >= 0 && p.stock >= -1
    && (p.perUserLimit > 0 ==> forall u: nat :: LiveQty(orders, pid, Some(u)) <= p.perUserLimit)
  }

  ghost predicate ProductsOk(products: map<nat, Product>, orders: seq<Order>) {
    forall pid | pid in products :: ProductOk(products[pid], pid, orders)
  }

  /** The sold counters. They are kept apart from the invariant because saving
      an old copy of a product can break them, and them only. */
  ghost predicate SoldOk(products: map<nat, Product>, orders: seq<Order>) {
    forall pid | pid in products :: products[pid].sold == LiveQty(orders, pid, None)
  }

  ghost predicate OrderOk(o: Order, products: map<nat, Product>) {
    && o.product in products && o.delivery == products[o.product].delivery
    && 1 <= o.quantity <= MAX_QUANTITY
    && o.total == o.unitPrice * o.quantity > 0
    && o.user != 0
    && (o.delivery.Cdk? ==> o.status == Delivered)
  }

  ghost predicate OrdersOk(products: map<nat, Product>, orders: seq<Order>) {
    && (forall i | 0 <= i < |orders| :: OrderOk(orders[i], products))
    && (forall i, j | 0 <= i < j < |orders| :: orders[i].orderNo != orders[j].orderNo)
  }

  /** The order's only charge and, exactly when it is dead, its only refund. */
  ghost predicate PaidFor(ledger: seq<Row>, o: Order) {
    && Moves(ledger, ByOrder, o.orderNo) == [(o.user, -o.total)]
    && Moves(ledger, ByRefund, o.orderNo) == if Dead(o.status) then [(o.user, o.total)] else []
  }

  ghost predicate RefundRow(row: Row) {
    row.kind == ByRefund && row.key == KeyOf(Refund(row.refId))
  }

  ghost predicate MoneyOk(ledger: seq<Row>, orders: seq<Order>) {
    && (forall i | 0 <= i < |orders| :: PaidFor(ledger, orders[i]))
    && (forall no: OrderNo | !NumberTaken(orders, no) ::
          Moves(ledger, ByOrder, no) == [] && Moves(ledger, ByRefund, no) == [])
  }

  /** Refund keys are booked by refunds only. */
  ghost predicate RefundKeysOk(ledger: seq<Row>) {
    forall i | 0 <= i < |ledger| && InFamily(ledger[i].key, Refund("")) :: RefundRow(ledger[i])
  }

  ghost predicate CardsSorted(cards: seq<Card>, next: nat) {
    && (forall i, j | 0 <= i < j < |cards| :: cards[i].id < cards[j].id)
    && (forall i | 0 <= i < |cards| :: cards[i].id < next)
  }

  ghost predicate CardOk(c: Card, orders: seq<Order>) {
    c.order != 0 ==>
      c.order <= |orders| && orders[c.order - 1].delivery.Cdk? && orders[c.order - 1].product == c.product
  }

  ghost predicate HasItsCards(cards: seq<Card>, orders: seq<Order>, k: nat)
    requires 1 <= k <= |orders|
  {
    var own := Owned(cards, k);
    |own| == orders[k - 1].quantity && orders[k - 1].content == Join(Contents(own))
  }

  ghost predicate CardsOk(cards: seq<Card>, next: nat, orders: seq<Order>) {
    && CardsSorted(cards, next)
    && (forall i | 0 <= i < |cards| :: CardOk(cards[i], orders))
    && (forall k | 1 <= k <= |orders| && orders[k - 1].delivery.Cdk? :: HasItsCards(cards, orders, k))
  }

  ghost predicate ShopInv(s: State) {
    && LedgerInv(s.bank)
    && ProductsOk(s.products, s.orders)
    && OrdersOk(s.products, s.orders)
    && MoneyOk(s.bank.ledger, s.orders)
    && RefundKeysOk(s.bank.ledger)
    && CardsOk(s.cards, s.nextCard, s.orders)
  }

  const OPENING := State(EMPTY, map[], [], 1, [])

  lemma OpeningOk()
    ensures ShopInv(OPENING) && SoldOk(OPENING.products, OPENING.orders)
  {
  }

  // ---------- live quantities ----------

  lemma LiveAppend(orders: seq<Order>, o: Order, pid: nat, who: Option<nat>)
    ensures LiveQty(orders + [o], pid, who) == LiveQty(orders, pid, who) + Counted(o, pid, who)
  {
    assert (orders + [o])[..|orders|] == orders;
  }

  lemma {:induction false} LiveUpdate(orders: seq<Order>, i: nat, o: Order, pid: nat, who: Option<nat>)
    requires i < |orders|
    ensures LiveQty(orders[i := o], pid, who)
         == LiveQty(orders, pid, who) - Counted(orders[i], pid, who) + Counted(o, pid, who)
  {
    var n := |orders| - 1;
    if i == n {
      assert orders[i := o][..n] == orders[..n];
    } else {
      assert orders[i := o][..n] == orders[..n][i := o];
      LiveUpdate(orders[..n], i, o, pid, who);
    }
  }

  lemma {:induction false} LiveAtLeast(orders: seq<Order>, i: nat, pid: nat, who: Option<nat>)
    requires i < |orders|
    requires forall j | 0 <= j < |orders| :: orders[j].quantity >= 0
    ensures LiveQty(orders, pid, who) >= Counted(orders[i], pid, who) >= 0
  {
    var n := |orders| - 1;
    if n > 0 {
      LiveAtLeast(orders[..n], if i < n then i else 0, pid, who);
    }
  }

  lemma LiveOfUnsold(orders: seq<Order>, pid: nat, who: Option<nat>)
    requires forall i | 0 <= i < |orders| :: orders[i].product != pid
    ensures LiveQty(orders, pid, who) == 0
  {
  }

  // ---------- ledger rows ----------

  lemma {:induction false} RowGivesMove(ledger: seq<Row>, i: nat)
    requires i < |ledger|
    ensures (ledger[i].user, ledger[i].delta) in Moves(ledger, ledger[i].kind, ledger[i].refId)
  {
    var n := |ledger| - 1;
    if i < n {
      RowGivesMove(ledger[..n], i);
    }
  }

  lemma RefundKeyFits(no: OrderNo)
    ensures KeyOf(Refund(no)) != "" && Truncate(KeyOf(Refund(no)), KEY_LIMIT) == KeyOf(Refund(no))
    ensures InFamily(KeyOf(Refund(no)), Refund(""))
  {
    InternalKeysFit(Refund(no));
    assert KeyOf(Refund(no)) == Family(Refund("")) + ":" + no;
  }

  /** A refund key is booked only for a dead order of that number. */
  lemma RefundKeyMeansRefunded(ledger: seq<Row>, orders: seq<Order>, no: OrderNo)
    requires MoneyOk(ledger, orders) && RefundKeysOk(ledger) && HasKey(ledger, KeyOf(Refund(no)))
    ensures exists i | 0 <= i < |orders| :: orders[i].orderNo == no && Dead(orders[i].status)
  {
    var i :| 0 <= i < |ledger| && ledger[i].key == KeyOf(Refund(no));
    RefundKeyFits(no);
    KeysInjective(Refund(ledger[i].refId), Refund(no));
    RowGivesMove(ledger, i);
    assert Moves(ledger, ByRefund, no) != [];
    assert NumberTaken(orders, no);
  }

  /** The refund of an open order is never a duplicate and never refused. */
  lemma RefundGoesThrough(b: Bank, orders: seq<Order>, i: nat)
    requires LedgerInv(b) && MoneyOk(b.ledger, orders) && RefundKeysOk(b.ledger)
    requires forall i, j | 0 <= i < j < |orders| :: orders[i].orderNo != orders[j].orderNo
    requires i < |orders| && Open(orders[i].status) && orders[i].total > 0 && orders[i].user != 0
    ensures Judge(b, RefundOp(orders[i])) == Applied
  {
    RefundKeyFits(orders[i].orderNo);
    if HasKey(b.ledger, KeyOf(Refund(orders[i].orderNo))) {
      RefundKeyMeansRefunded(b.ledger, orders, orders[i].orderNo);
    }
  }

  // ---------- cards ----------

  lemma {:induction false} ContentsPrefix(cards: seq<Card>, q: nat)
    requires q <= |cards|
    ensures |Contents(cards)| == |cards|
    ensures Contents(cards[..q]) == Contents(cards)[..q]
  {
    if cards != [] {
      if q == 0 {
        ContentsPrefix(cards[1..], 0);
      } else {
        ContentsPrefix(cards[1..], q - 1);
        assert cards[..q][1..] == cards[1..][..q - 1];
      }
    }
  }

  lemma {:induction false} TakePointwise(cards: seq<Card>, pid: nat, q: nat, oid: nat)
    ensures |Take(cards, pid, q, oid)| == |cards|
    ensures forall i | 0 <= i < |cards| ::
              var t := Take(cards, pid, q, oid);
              t[i] == cards[i] || (cards[i].order == 0 && cards[i].product == pid && t[i] == cards[i].(order := oid))
  {
    if cards != [] && q > 0 {
      TakePointwise(cards[1..], pid, if cards[0].product == pid && cards[0].order == 0 then q - 1 else q, oid);
    }
  }

  /** The new owner gets exactly the first q unused cards, nobody else's
      cards change. */
  lemma {:induction false} TakeOwned(cards: seq<Card>, pid: nat, q: nat, oid: nat)
    requires oid != 0 && q <= |Unused(cards, pid)|
    requires forall i | 0 <= i < |cards| :: cards[i].order != oid
    ensures |Owned(Take(cards, pid, q, oid), oid)| == q
    ensures Contents(Owned(Take(cards, pid, q, oid), oid)) == Contents(Unused(cards, pid)[..q])
    ensures forall k: nat | k != 0 && k != oid :: Owned(Take(cards, pid, q, oid), k) == Owned(cards, k)
  {
    if q == 0 {
      OwnedByNobody(cards, oid);
    } else {
      var rest := cards[1..];
      var t := Take(cards, pid, q, oid);
      if cards[0].product == pid && cards[0].order == 0 {
        TakeOwned(rest, pid, q - 1, oid);
        assert t[1..] == Take(rest, pid, q - 1, oid);
        assert Unused(cards, pid)[..q] == [cards[0]] + Unused(rest, pid)[..q - 1];
        var own := Owned(t[1..], oid);
        assert Owned(t, oid) == [t[0]] + own;
        assert ([t[0]] + own)[1..] == own;
        assert ([cards[0]] + Unused(rest, pid)[..q - 1])[1..] == Unused(rest, pid)[..q - 1];
      } else {
        TakeOwned(rest, pid, q, oid);
        assert t[1..] == Take(rest, pid, q, oid);
        assert Unused(cards, pid) == Unused(rest, pid);
        assert t[0] == cards[0] && Owned(t, oid) == Owned(t[1..], oid);
      }
    }
  }

  lemma {:induction false} OwnedByNobody(cards: seq<Card>, oid: nat)
    requires forall i | 0 <= i < |cards| :: cards[i].order != oid
    ensures Owned(cards, oid) == []
  {
    if cards != [] {
      OwnedByNobody(cards[1..], oid);
    }
  }

  lemma {:induction false} OwnedAppend(cards: seq<Card>, c: Card, oid: nat)
    ensures Owned(cards + [c], oid) == Owned(cards, oid) + if c.order == oid then [c] else []
  {
    if cards == [] {
      assert (cards + [c])[1..] == [];
    } else {
      OwnedAppend(cards[1..], c, oid);
      var first := if cards[0].order == oid then [cards[0]] else [];
      var added := if c.order == oid then [c] else [];
      assert (cards + [c])[1..] == cards[1..] + [c] && (cards + [c])[0] == cards[0];
      assert first + (Owned(cards[1..], oid) + added) == (first + Owned(cards[1..], oid)) + added;
    }
  }

  /** Deleting can only remove an unused card, everything else stays. */
  lemma {:induction false} WithoutSpares(cards: seq<Card>, id: nat)
    ensures forall c | c in Without(cards, id) :: c in cards
    ensures forall c | c in cards && c.order != 0 :: c in Without(cards, id)
    ensures forall k: nat | k != 0 :: Owned(Without(cards, id), k) == Owned(cards, k)
  {
    if cards != [] && !(cards[0].id == id && cards[0].order == 0) {
      WithoutSpares(cards[1..], id);
      var w := Without(cards, id);
      assert w[1..] == Without(cards[1..], id);
      forall c | c in cards && c.order != 0
        ensures c in w
      {
        if c != cards[0] {
          assert c in cards[1..];
          assert c in w[1..];
        }
      }
    }
  }

  lemma {:induction false} WithoutIs(cards: seq<Card>, id: nat) returns (k: nat)
    ensures k <= |cards|
    ensures Without(cards, id) == if k < |cards| then cards[..k] + cards[k + 1..] else cards
  {
    if cards == [] || (cards[0].id == id && cards[0].order == 0) {
      k := 0;
    } else {
      var rest := cards[1..];
      k := WithoutIs(rest, id);
      k := k + 1;
      assert k < |cards| ==> cards[..k] == [cards[0]] + rest[..k - 1] && cards[k + 1..] == rest[k..];
      assert k >= |cards| ==> cards == [cards[0]] + rest;
    }
  }

  lemma WithoutSorted(cards: seq<Card>, id: nat, next: nat)
    requires CardsSorted(cards, next)
    ensures CardsSorted(Without(cards, id), next)
  {
    hide Without;
    var k := WithoutIs(cards, id);
  }

  // ---------- placing ----------

  lemma PlacedProducts(products: map<nat, Product>, orders: seq<Order>, o: Order)
    requires ProductsOk(products, orders)
    requires o.product in products && !Dead(o.status)
    requires var p := products[o.product];
             && (Limited(p) ==> p.stock >= o.quantity)
             && (p.perUserLimit > 0 ==> LiveQty(orders, o.product, Some(o.user)) + o.quantity <= p.perUserLimit)
    ensures ProductsOk(products[o.product := SoldProduct(products[o.product], o.quantity)], orders + [o])
  {
    var products' := products[o.product := SoldProduct(products[o.product], o.quantity)];
    forall k | k in products'
      ensures ProductOk(products'[k], k, orders + [o])
    {
      assert ProductOk(products[k], k, orders);
      forall u: nat
        ensures LiveQty(orders + [o], k, Some(u)) == LiveQty(orders, k, Some(u)) + Counted(o, k, Some(u))
      {
        LiveAppend(orders, o, k, Some(u));
      }
    }
  }

  lemma PlacedSold(products: map<nat, Product>, orders: seq<Order>, o: Order)
    requires SoldOk(products, orders) && o.product in products && !Dead(o.status)
    ensures SoldOk(products[o.product := SoldProduct(products[o.product], o.quantity)], orders + [o])
  {
    var products' := products[o.product := SoldProduct(products[o.product], o.quantity)];
    forall k | k in products'
      ensures products'[k].sold == LiveQty(orders + [o], k, None)
    {
      LiveAppend(orders, o, k, None);
    }
  }

  lemma PlacedMoney(ledger: seq<Row>, orders: seq<Order>, o: Order, row: Row)
    requires MoneyOk(ledger, orders) && !NumberTaken(orders, o.orderNo) && !Dead(o.status)
    requires row.user == o.user && row.delta == -o.total
    requires row.kind == ByOrder && row.refId == o.orderNo
    ensures MoneyOk(ledger + [row], orders + [o])
  {
    hide Moves;
    var ledger', orders' := ledger + [row], orders + [o];
    assert Moves(ledger, ByOrder, o.orderNo) == [] && Moves(ledger, ByRefund, o.orderNo) == [];
    forall i | 0 <= i < |orders'|
      ensures PaidFor(ledger', orders'[i])
    {
      MovesAppend(ledger, row, ByOrder, orders'[i].orderNo);
      MovesAppend(ledger, row, ByRefund, orders'[i].orderNo);
      if i < |orders| {
        assert PaidFor(ledger, orders[i]);
      }
    }
    forall n: OrderNo | !NumberTaken(orders', n)
      ensures Moves(ledger', ByOrder, n) == [] && Moves(ledger', ByRefund, n) == []
    {
      MovesAppend(ledger, row, ByOrder, n);
      MovesAppend(ledger, row, ByRefund, n);
      assert orders'[|orders|].orderNo == o.orderNo;
      assert forall i | 0 <= i < |orders| :: orders[i] == orders'[i];
      assert !NumberTaken(orders, n);
    }
  }

  lemma NoKeyNoFamily()
    ensures !InFamily("", Refund(""))
  {
    assert Family(Refund("")) != "";
  }

  lemma PlacedOrders(products: map<nat, Product>, orders: seq<Order>, o: Order)
    requires OrdersOk(products, orders) && OrderOk(o, products) && !NumberTaken(orders, o.orderNo)
    ensures OrdersOk(products[o.product := SoldProduct(products[o.product], o.quantity)], orders + [o])
  {
    var products' := products[o.product := SoldProduct(products[o.product], o.quantity)];
    forall i | 0 <= i < |orders + [o]|
      ensures OrderOk((orders + [o])[i], products')
    {
      assert i < |orders| ==> OrderOk(orders[i], products);
    }
    assert forall i | 0 <= i < |orders| :: orders[i].orderNo != o.orderNo;
  }

  function TakenCards(cards: seq<Card>, orders: seq<Order>, o: Order): seq<Card>
    requires o.quantity >= 0
  {
    if o.delivery.Cdk? then Take(cards, o.product, o.quantity, |orders| + 1) else cards
  }

  lemma PlacedCards(cards: seq<Card>, next: nat, orders: seq<Order>, o: Order)
    requires CardsOk(cards, next, orders) && o.quantity >= 0
    requires o.delivery.Cdk? ==>
               && o.quantity <= |Unused(cards, o.product)|
               && o.content == Join(Contents(Unused(cards, o.product)[..o.quantity]))
    ensures CardsOk(TakenCards(cards, orders, o), next, orders + [o])
  {
    hide Take, Owned, Unused, Contents, Join;
    assert forall i | 0 <= i < |cards| :: CardOk(cards[i], orders);
    if o.delivery.Cdk? {
      TakePointwise(cards, o.product, o.quantity, |orders| + 1);
    }
    PlacedOwners(cards, next, orders, o);
  }

  lemma PlacedOwners(cards: seq<Card>, next: nat, orders: seq<Order>, o: Order)
    requires CardsOk(cards, next, orders) && o.quantity >= 0
    requires o.delivery.Cdk? ==>
               && o.quantity <= |Unused(cards, o.product)|
               && o.content == Join(Contents(Unused(cards, o.product)[..o.quantity]))
    ensures forall k | 1 <= k <= |orders| + 1 && (orders + [o])[k - 1].delivery.Cdk? ::
              HasItsCards(TakenCards(cards, orders, o), orders + [o], k)
  {
    hide Take, Owned, Unused, Contents, Join, CardsSorted;
    var oid := |orders| + 1;
    assert forall i | 0 <= i < |cards| :: CardOk(cards[i], orders);
    if o.delivery.Cdk? {
      TakeOwned(cards, o.product, o.quantity, oid);
    }
    forall k | 1 <= k <= oid && (orders + [o])[k - 1].delivery.Cdk?
      ensures HasItsCards(TakenCards(cards, orders, o), orders + [o], k)
    {
      if k < oid {
        assert HasItsCards(cards, orders, k);
      }
    }
  }

  lemma PriceOk(s: State, pid: nat)
    requires ShopInv(s) && pid in s.products
    ensures s.products[pid].price >= 0
  {
    assert ProductOk(s.products[pid], pid, s.orders);
  }

  lemma NewOrderOk(s: State, user: nat, pid: nat, raw: int, no: OrderNo)
    requires ShopInv(s) && PlaceCheck(s, true, user, pid, raw, no).None?
    ensures OrderOk(NewOrder(s, user, pid, Quantity(raw), no), s.products)
    ensures Judge(s.bank, ChargeOp(user, s.products[pid].price * Quantity(raw), no)) == Applied
  {
    hide ShopInv, LiveQty, NumberTaken, Unused, HasKey, Truncate, Contents, Join;
    assert s.products[pid].price >= 0 by { PriceOk(s, pid); }
    TotalIsPositive(s.products[pid].price, Quantity(raw));
  }

  lemma PlacedKeepsInv(s: State, s': State, o: Order, op: Op)
    requires ShopInv(s) && OrderOk(o, s.products) && !Dead(o.status) && !NumberTaken(s.orders, o.orderNo)
    requires var p := s.products[o.product];
             && (Limited(p) ==> p.stock >= o.quantity)
             && (p.perUserLimit > 0 ==> LiveQty(s.orders, o.product, Some(o.user)) + o.quantity <= p.perUserLimit)
    requires o.delivery.Cdk? ==>
               && o.quantity <= |Unused(s.cards, o.product)|
               && o.content == Join(Contents(Unused(s.cards, o.product)[..o.quantity]))
    requires op == ChargeOp(o.user, o.total, o.orderNo) && Judge(s.bank, op) == Applied
    requires o.quantity >= 0
    requires s' == State(
      Post(s.bank, op),
      s.products[o.product := SoldProduct(s.products[o.product], o.quantity)],
      TakenCards(s.cards, s.orders, o),
      s.nextCard,
      s.orders + [o])
    ensures ShopInv(s')
  {
    hide LedgerInv, ProductsOk, OrdersOk, MoneyOk, RefundKeysOk, CardsOk, OrderOk, Judge;
    var row := RowFor(s.bank, op);
    QuantityOk(o, s.products);
    PlacedProducts(s.products, s.orders, o);
    PlacedOrders(s.products, s.orders, o);
    PlacedMoney(s.bank.ledger, s.orders, o, row);
    PlacedCards(s.cards, s.nextCard, s.orders, o);
    CommitKeepsInv(s.bank, op);
    NoKeyNoFamily();
    RefundKeysStay(s.bank.ledger, row);
  }

  /** When a request has nothing else against it - product on sale, within the
      limit, in stock, number unused, balance sufficient - it is accepted if and
      only if the product costs something. A price of 0 is refused because the
      charge would be a change of 0. */
  lemma AcceptedIffPriced(s: State, user: nat, pid: nat, raw: int, no: OrderNo)
    requires pid in s.products && s.products[pid].enabled && s.products[pid].price >= 0
    requires user != 0 && Quantity(raw) <= MAX_QUANTITY && !NumberTaken(s.orders, no)
    requires var p, q := s.products[pid], Quantity(raw);
             && (p.perUserLimit > 0 ==> LiveQty(s.orders, pid, Some(user)) + q <= p.perUserLimit)
             && (p.delivery.Cdk? ==> |Unused(s.cards, pid)| >= q)
             && (Limited(p) ==> p.stock >= q)
             && BalanceOf(s.bank, user) >= p.price * q
    ensures PlaceCheck(s, true, user, pid, raw, no).None? <==> s.products[pid].price > 0
    ensures s.products[pid].price == 0 ==>
              PlaceCheck(s, true, user, pid, raw, no) == Some(PlaceError.NotPaid(ZeroDelta))
                                           && Place(s, true, user, pid, raw, no) == s
  {
    hide LiveQty, NumberTaken, Unused, HasKey, Placed;
    TotalIsPositive(s.products[pid].price, Quantity(raw));
  }

  lemma TotalIsPositive(price: int, q: int)
    requires price >= 0 && q >= 1
    ensures price * q > 0 <==> price > 0
    ensures price * q >= 0
  {
  }

  lemma QuantityOk(o: Order, products: map<nat, Product>)
    requires OrderOk(o, products)
    ensures o.quantity >= 0 && o.product in products
  {
  }

  /** placeOrder commits a consistent shop or changes nothing. */
  lemma PlaceKeepsInv(s: State, enabled: bool, user: nat, pid: nat, raw: int, no: OrderNo)
    requires ShopInv(s)
    ensures ShopInv(Place(s, enabled, user, pid, raw, no))
  {
    hide ShopInv, OrderOk, Judge, Post;
    if PlaceCheck(s, enabled, user, pid, raw, no).None? {
      var o := NewOrder(s, user, pid, Quantity(raw), no);
      NewOrderOk(s, user, pid, raw, no);
      PlacedKeepsInv(s, Placed(s, user, pid, Quantity(raw), no), o, ChargeOp(user, o.total, no));
    }
  }

  // ---------- finishing ----------

  /** A row read earlier still agrees with the stored one on everything a
      finishing transaction takes from it. */
  predicate SameTerms(a: Order, b: Order) {
    a.(status := b.status, content := b.content) == b
  }

  lemma ClosedProducts(products: map<nat, Product>, orders: seq<Order>, i: nat, t: Target)
    requires ProductsOk(products, orders) && OrdersOk(products, orders)
    requires i < |orders| && Open(orders[i].status)
    ensures ProductsOk(
              if t.Deliver? then products else Restocked(products, orders[i]), orders[i := Closed(orders[i], t)])
  {
    var o, o' := orders[i], Closed(orders[i], t);
    var products' := if t.Deliver? then products else Restocked(products, o);
    assert OrderOk(o, products);
    forall k | k in products'
      ensures ProductOk(products'[k], k, orders[i := o'])
    {
      assert ProductOk(products[k], k, orders);
      forall u: nat
        ensures LiveQty(orders[i := o'], k, Some(u)) <= LiveQty(orders, k, Some(u))
      {
        LiveUpdate(orders, i, o', k, Some(u));
      }
    }
  }

  /** With the counters in order the guard sold >= quantity never blocks, and
      closing keeps them in order. */
  lemma ClosedSold(products: map<nat, Product>, orders: seq<Order>, i: nat, t: Target)
    requires SoldOk(products, orders) && OrdersOk(products, orders)
    requires i < |orders| && Open(orders[i].status)
    ensures orders[i].product in products && products[orders[i].product].sold >= orders[i].quantity > 0
    ensures SoldOk(if t.Deliver? then products else Restocked(products, orders[i]), orders[i := Closed(orders[i], t)])
  {
    var o, o' := orders[i], Closed(orders[i], t);
    var products' := if t.Deliver? then products else Restocked(products, o);
    assert forall j | 0 <= j < |orders| :: OrderOk(orders[j], products);
    hide OrderOk, OrdersOk;
    LiveAtLeast(orders, i, o.product, None);
    forall k | k in products'
      ensures products'[k].sold == LiveQty(orders[i := o'], k, None)
    {
      LiveUpdate(orders, i, o', k, None);
    }
  }

  lemma ClosedOrders(products: map<nat, Product>, orders: seq<Order>, i: nat, t: Target)
    requires OrdersOk(products, orders) && i < |orders| && Open(orders[i].status)
    ensures OrdersOk(if t.Deliver? then products else Restocked(products, orders[i]), orders[i := Closed(orders[i], t)])
  {
    var products' := if t.Deliver? then products else Restocked(products, orders[i]);
    var orders' := orders[i := Closed(orders[i], t)];
    assert OrderOk(orders[i], products);
    forall j | 0 <= j < |orders'|
      ensures OrderOk(orders'[j], products') && orders'[j].orderNo == orders[j].orderNo
    {
      assert OrderOk(orders[j], products);
    }
  }

  lemma DeliveredMoney(ledger: seq<Row>, orders: seq<Order>, i: nat, content: string)
    requires MoneyOk(ledger, orders) && i < |orders| && Open(orders[i].status)
    ensures MoneyOk(ledger, orders[i := Closed(orders[i], Deliver(content))])
  {
    hide Moves;
    var orders' := orders[i := Closed(orders[i], Deliver(content))];
    forall j | 0 <= j < |orders'|
      ensures PaidFor(ledger, orders'[j]) && orders'[j].orderNo == orders[j].orderNo
    {
      assert PaidFor(ledger, orders[j]);
    }
    forall no: OrderNo | !NumberTaken(orders', no)
      ensures !NumberTaken(orders, no)
    {
      assert forall j | 0 <= j < |orders| :: orders[j].orderNo == orders'[j].orderNo;
    }
  }

  lemma RefundedMoney(ledger: seq<Row>, orders: seq<Order>, i: nat, t: Target, row: Row)
    requires MoneyOk(ledger, orders) && i < |orders| && Open(orders[i].status) && !t.Deliver?
    requires forall j, k | 0 <= j < k < |orders| :: orders[j].orderNo != orders[k].orderNo
    requires row.user == orders[i].user && row.delta == orders[i].total
    requires row.kind == ByRefund && row.refId == orders[i].orderNo
    ensures MoneyOk(ledger + [row], orders[i := Closed(orders[i], t)])
  {
    hide Moves;
    var ledger', orders' := ledger + [row], orders[i := Closed(orders[i], t)];
    forall j | 0 <= j < |orders'|
      ensures PaidFor(ledger', orders'[j]) && orders'[j].orderNo == orders[j].orderNo
    {
      MovesAppend(ledger, row, ByOrder, orders[j].orderNo);
      MovesAppend(ledger, row, ByRefund, orders[j].orderNo);
      assert PaidFor(ledger, orders[j]);
    }
    forall no: OrderNo | !NumberTaken(orders', no)
      ensures Moves(ledger', ByOrder, no) == [] && Moves(ledger', ByRefund, no) == []
    {
      MovesAppend(ledger, row, ByOrder, no);
      MovesAppend(ledger, row, ByRefund, no);
      assert forall j | 0 <= j < |orders| :: orders[j].orderNo == orders'[j].orderNo;
      assert orders'[i].orderNo == row.refId;
      assert !NumberTaken(orders, no);
    }
  }

  lemma ClosedCards(cards: seq<Card>, next: nat, orders: seq<Order>, i: nat, t: Target)
    requires CardsOk(cards, next, orders) && i < |orders| && !orders[i].delivery.Cdk?
    ensures CardsOk(cards, next, orders[i := Closed(orders[i], t)])
  {
    var orders' := orders[i := Closed(orders[i], t)];
    forall j | 0 <= j < |cards|
      ensures CardOk(cards[j], orders')
    {
      assert CardOk(cards[j], orders);
    }
    forall k | 1 <= k <= |orders'| && orders'[k - 1].delivery.Cdk?
      ensures HasItsCards(cards, orders', k)
    {
      assert HasItsCards(cards, orders, k);
    }
  }

  lemma DeliverKeepsInv(s: State, i: nat, content: string)
    requires ShopInv(s) && i < |s.orders| && Open(s.orders[i].status)
    ensures ShopInv(s.(orders := s.orders[i := Closed(s.orders[i], Deliver(content))]))
  {
    assert OrderOk(s.orders[i], s.products);
    hide LedgerInv, ProductsOk, OrdersOk, MoneyOk, RefundKeysOk, CardsOk;
    ClosedProducts(s.products, s.orders, i, Deliver(content));
    ClosedOrders(s.products, s.orders, i, Deliver(content));
    DeliveredMoney(s.bank.ledger, s.orders, i, content);
    ClosedCards(s.cards, s.nextCard, s.orders, i, Deliver(content));
  }

  lemma RefundKeysStay(ledger: seq<Row>, row: Row)
    requires RefundKeysOk(ledger) && (InFamily(row.key, Refund("")) ==> RefundRow(row))
    ensures RefundKeysOk(ledger + [row])
  {
  }

  lemma RefundKeepsInv(s: State, i: nat, t: Target)
    requires ShopInv(s) && i < |s.orders| && Open(s.orders[i].status) && !t.Deliver?
    ensures Judge(s.bank, RefundOp(s.orders[i])) == Applied
    ensures ShopInv(s.(orders := s.orders[i := Closed(s.orders[i], t)],
                       products := Restocked(s.products, s.orders[i]),
                       bank := Post(s.bank, RefundOp(s.orders[i]))))
  {
    var o := s.orders[i];
    var row := RowFor(s.bank, RefundOp(o));
    assert OrderOk(o, s.products);
    assert forall j, k | 0 <= j < k < |s.orders| :: s.orders[j].orderNo != s.orders[k].orderNo;
    RefundKeyFits(o.orderNo);
    assert RefundRow(row);
    hide LedgerInv, ProductsOk, OrdersOk, MoneyOk, RefundKeysOk, CardsOk, KeyOf, InFamily;
    RefundGoesThrough(s.bank, s.orders, i);
    ClosedProducts(s.products, s.orders, i, t);
    ClosedOrders(s.products, s.orders, i, t);
    RefundedMoney(s.bank.ledger, s.orders, i, t, row);
    RefundKeysStay(s.bank.ledger, row);
    ClosedCards(s.cards, s.nextCard, s.orders, i, t);
    CommitKeepsInv(s.bank, RefundOp(o));
  }

  /** However old the row is that the transaction read, the guarded update
      keeps the shop consistent and the refund it contains always goes through. */
  lemma FinishKeepsInv(s: State, id: nat, snap: Order, t: Target)
    requires ShopInv(s) && 1 <= id <= |s.orders| && SameTerms(snap, s.orders[id - 1])
    ensures ShopInv(FinishCommit(s, id, snap, t))
    ensures FinishReplyOf(s, id, snap, t) == if Open(s.orders[id - 1].status) then Finished else Changed
    ensures Open(s.orders[id - 1].status) ==> Judge(s.bank, RefundOp(snap)) == Applied && snap.product in s.products
  {
    hide ShopInv, KeyOf;
    var o := s.orders[id - 1];
    if Open(o.status) {
      assert RefundOp(snap) == RefundOp(o);
      assert Restocked(s.products, snap) == Restocked(s.products, o);
      RefundKeepsInv(s, id - 1, Fail);
      assert o.product in s.products by { OrderProduct(s, id - 1); }
      if t.Deliver? {
        DeliverKeepsInv(s, id - 1, t.content);
      } else {
        RefundKeepsInv(s, id - 1, t);
      }
    }
  }

  /** What an effective finish changes, in terms of the stored order. */
  lemma FinishShape(s: State, id: nat, snap: Order, t: Target)
    requires ShopInv(s) && 1 <= id <= |s.orders| && SameTerms(snap, s.orders[id - 1])
    ensures var o, s' := s.orders[id - 1], FinishCommit(s, id, snap, t);
            if Open(o.status) then
              && s'.orders == s.orders[id - 1 := Closed(o, t)] && s'.cards == s.cards
              && s'.products == if t.Deliver? then s.products else Restocked(s.products, o)
            else s' == s
  {
    hide ShopInv, Judge, Commit, RefundOp;
    FinishKeepsInv(s, id, snap, t);
  }

  lemma OrderProduct(s: State, i: nat)
    requires ShopInv(s) && i < |s.orders|
    ensures s.orders[i].product in s.products && s.orders[i].quantity > 0
  {
    assert OrderOk(s.orders[i], s.products);
  }

  /** The guard sold >= quantity never blocks while the counters are in order. */
  lemma SoldCovers(s: State, i: nat)
    requires ShopInv(s) && SoldOk(s.products, s.orders) && i < |s.orders| && Open(s.orders[i].status)
    ensures s.orders[i].product in s.products
    ensures s.products[s.orders[i].product].sold >= s.orders[i].quantity > 0
  {
    ClosedSold(s.products, s.orders, i, Fail);
  }

  // ---------- everything else ----------

  /** A point operation of another part of the server: not one of the two
      shop kinds and not keyed in the refund family. */
  ghost predicate Foreign(op: Op) {
    op.kind != ByOrder && op.kind != ByRefund && !InFamily(Truncate(op.key, KEY_LIMIT), Refund(""))
  }

  /** Every other key the server builds qualifies, however long its header. */
  lemma OtherKeysAreForeign(source: Source)
    requires !source.Refund?
    ensures !InFamily(Truncate(KeyOf(source), KEY_LIMIT), Refund(""))
  {
    if InFamily(Truncate(KeyOf(source), KEY_LIMIT), Refund("")) {
      TruncationKeepsFamily(source, Refund(""));
    }
  }

  lemma ForeignMoney(ledger: seq<Row>, orders: seq<Order>, row: Row)
    requires MoneyOk(ledger, orders)
    requires row.kind != ByOrder && row.kind != ByRefund
    ensures MoneyOk(ledger + [row], orders)
  {
    hide Moves;
    forall no: string
      ensures Moves(ledger + [row], ByOrder, no) == Moves(ledger, ByOrder, no)
      ensures Moves(ledger + [row], ByRefund, no) == Moves(ledger, ByRefund, no)
    {
      MovesAppend(ledger, row, ByOrder, no);
      MovesAppend(ledger, row, ByRefund, no);
    }
    forall i | 0 <= i < |orders|
      ensures PaidFor(ledger + [row], orders[i])
    {
      assert PaidFor(ledger, orders[i]);
    }
  }

  lemma PointsKeepInv(s: State, op: Op)
    requires ShopInv(s) && Foreign(op)
    ensures ShopInv(s.(bank := Commit(s.bank, op)))
  {
    CommitKeepsInv(s.bank, op);
    ForeignMoney(s.bank.ledger, s.orders, RowFor(s.bank, op));
  }

  lemma NewProductKeepsInv(s: State, pid: nat, p: Product)
    requires ShopInv(s)
    ensures ShopInv(NewProduct(s, pid, p))
    ensures SoldOk(s.products, s.orders) ==> SoldOk(NewProduct(s, pid, p).products, s.orders)
  {
    hide LedgerInv, MoneyOk, RefundKeysOk, CardsOk;
    assert forall i | 0 <= i < |s.orders| :: OrderOk(s.orders[i], s.products);
    assert forall k | k in s.products :: ProductOk(s.products[k], k, s.orders);
    if pid !in s.products {
      forall who: Option<nat>
        ensures LiveQty(s.orders, pid, who) == 0
      {
        LiveOfUnsold(s.orders, pid, who);
      }
    }
  }

  /** Two copies of a product that differ only in what sales and edits change. */
  predicate SameSetup(a: Product, b: Product) {
    && a.delivery == b.delivery && a.perUserLimit == b.perUserLimit
    && a.stock >= -1 && (a.stock == -1 <==> b.stock == -1)
  }

  /** Saving an old copy keeps everything but the sold counters. */
  lemma SaveKeepsInv(s: State, pid: nat, snap: Product, price: int, enabled: bool)
    requires ShopInv(s) && pid in s.products && SameSetup(snap, s.products[pid])
    ensures ShopInv(SaveProduct(s, pid, snap, price, enabled))
  {
    hide LedgerInv, MoneyOk, RefundKeysOk, CardsOk;
    assert forall i | 0 <= i < |s.orders| :: OrderOk(s.orders[i], s.products);
    assert forall k | k in s.products :: ProductOk(s.products[k], k, s.orders);
  }

  lemma ImportKeepsCards(cards: seq<Card>, next: nat, orders: seq<Order>, c: Card)
    requires CardsOk(cards, next, orders) && c.id == next && c.order == 0
    ensures CardsOk(cards + [c], next + 1, orders)
  {
    forall i | 0 <= i < |cards|
      ensures CardOk(cards[i], orders)
    {
    }
    forall k | 1 <= k <= |orders| && orders[k - 1].delivery.Cdk?
      ensures HasItsCards(cards + [c], orders, k)
    {
      assert HasItsCards(cards, orders, k);
      OwnedAppend(cards, c, k);
      assert Owned(cards + [c], k) == Owned(cards, k);
    }
  }

  lemma DropKeepsCards(cards: seq<Card>, next: nat, orders: seq<Order>, id: nat)
    requires CardsOk(cards, next, orders)
    ensures CardsOk(Without(cards, id), next, orders)
  {
    WithoutSorted(cards, id, next);
    WithoutSpares(cards, id);
    var w := Without(cards, id);
    forall i | 0 <= i < |w|
      ensures CardOk(w[i], orders)
    {
      assert w[i] in cards;
      var j :| 0 <= j < |cards| && cards[j] == w[i];
      assert CardOk(cards[j], orders);
    }
    forall k | 1 <= k <= |orders| && orders[k - 1].delivery.Cdk?
      ensures HasItsCards(w, orders, k)
    {
      assert HasItsCards(cards, orders, k);
    }
  }

  lemma StockingKeepsInv(s: State, pid: nat, content: string, id: nat)
    requires ShopInv(s)
    ensures ShopInv(ImportCard(s, pid, content))
    ensures ShopInv(DropCard(s, id))
  {
    ImportKeepsCards(s.cards, s.nextCard, s.orders, Card(s.nextCard, pid, 0, content));
    DropKeepsCards(s.cards, s.nextCard, s.orders, id);
  }
}
