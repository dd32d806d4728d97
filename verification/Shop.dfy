/** shop_core.go: products, cards and orders, together with the bank they are
    paid from. The functions give the outcome of a whole transaction; ShopStore
    carries them out statement by statement. Free texts and timestamps of an
    order carry no rule and are not modelled. */
module Shop {
  import opened Keys
  import opened Options
  import opened Points

  datatype Delivery = Cdk | Webhook | Manual
  datatype Status = Pending | Processing | Delivered | Failed | Canceled

  /** Order numbers fit their 32-byte column. */
  type OrderNo = s: string | |s| <= 32

  /** stock -1 means unlimited and is ignored for cdk products. */
  datatype Product = Product(price: int, delivery: Delivery, stock: int, perUserLimit: int, sold: int, enabled: bool)

  /** order 0 means the card is unused. */
  datatype Card = Card(id: nat, product: nat, order: nat, content: string)

  datatype Order = Order(
    orderNo: OrderNo, user: nat, product: nat, delivery: Delivery,
    quantity: int, unitPrice: int, total: int, status: Status, content: string)

  /** The order with id k is orders[k - 1]; cards are kept in id order. */
  datatype State = State(
    bank: Bank, products: map<nat, Product>, cards: seq<Card>, nextCard: nat, orders: seq<Order>)

  const MAX_QUANTITY := 20

  predicate Open(st: Status) {
    st == Pending || st == Processing
  }

  predicate Dead(st: Status) {
    st == Failed || st == Canceled
  }

  // ---------- quantities ----------

  /** What an order contributes to the live quantity of a product, of one user
      or of everybody. */
  function Counted(o: Order, pid: nat, who: Option<nat>): int {
    if o.product == pid && !Dead(o.status) && (who.Some? ==> o.user == who.value) then o.quantity else 0
  }

  function LiveQty(orders: seq<Order>, pid: nat, who: Option<nat>): int {
    if orders == [] then 0
    else LiveQty(orders[..|orders| - 1], pid, who) + Counted(orders[|orders| - 1], pid, who)
  }

  // ---------- cards ----------

  function Unused(cards: seq<Card>, pid: nat): seq<Card> {
    if cards == [] then []
    else (if cards[0].product == pid && cards[0].order == 0 then [cards[0]] else []) + Unused(cards[1..], pid)
  }

  function Owned(cards: seq<Card>, oid: nat): seq<Card> {
    if cards == [] then []
    else (if cards[0].order == oid then [cards[0]] else []) + Owned(cards[1..], oid)
  }

  function Contents(cards: seq<Card>): seq<string> {
    if cards == [] then [] else [cards[0].content] + Contents(cards[1..])
  }

  /** strings.Join(parts, "\n"). */
  function Join(parts: seq<string>): string {
    if parts == [] then ""
    else if |parts| == 1 then parts[0]
    else parts[0] + "\n" + Join(parts[1..])
  }

  /** The first q unused cards of the product now belong to order oid. */
  function Take(cards: seq<Card>, pid: nat, q: nat, oid: nat): seq<Card> {
    if cards == [] || q == 0 then cards
    else if cards[0].product == pid && cards[0].order == 0 then
      [cards[0].(order := oid)] + Take(cards[1..], pid, q - 1, oid)
    else
      [cards[0]] + Take(cards[1..], pid, q, oid)
  }

  // ---------- placing an order ----------

  datatype PlaceError =
    | PointsOff | TooMany | NoProduct | OverLimit | DuplicateNo | OutOfStock
    | NotPaid(verdict: Verdict)

  function Quantity(raw: int): int {
    if raw <= 0 then 1 else raw
  }

  function ChargeOp(user: nat, total: int, no: OrderNo): Op {
    Op(user, -total, ByOrder, no, "")
  }

  predicate NumberTaken(orders: seq<Order>, no: OrderNo) {
    exists i | 0 <= i < |orders| :: orders[i].orderNo == no
  }

  predicate Limited(p: Product) {
    !p.delivery.Cdk? && p.stock >= 0
  }

  /** Why an order is refused, None if it goes through. */
  function PlaceCheck(s: State, enabled: bool, user: nat, pid: nat, raw: int, no: OrderNo): Option<PlaceError> {
    var q := Quantity(raw);
    if !enabled then Some(PointsOff)
    else if q > MAX_QUANTITY then Some(TooMany)
    else if pid !in s.products || !s.products[pid].enabled then Some(NoProduct)
    else
      var p := s.products[pid];
      if p.perUserLimit > 0 && LiveQty(s.orders, pid, Some(user)) + q > p.perUserLimit then Some(OverLimit)
      else if NumberTaken(s.orders, no) then Some(DuplicateNo)
      else if p.delivery.Cdk? && |Unused(s.cards, pid)| < q then Some(OutOfStock)
      else if Limited(p) && p.stock < q then Some(OutOfStock)
      else
        var v := Judge(s.bank, ChargeOp(user, p.price * q, no));
        if v != Applied then Some(NotPaid(v)) else None
  }

  function FirstStatus(d: Delivery): Status {
    match d
    case Cdk => Delivered
    case Webhook => Processing
    case Manual => Pending
  }

  function NewOrder(s: State, user: nat, pid: nat, q: nat, no: OrderNo): Order
    requires pid in s.products
    requires s.products[pid].delivery.Cdk? ==> q <= |Unused(s.cards, pid)|
  {
    var p := s.products[pid];
    Order(no, user, pid, p.delivery, q, p.price, p.price * q, FirstStatus(p.delivery),
          if p.delivery.Cdk? then Join(Contents(Unused(s.cards, pid)[..q])) else "")
  }

  function SoldProduct(p: Product, q: int): Product {
    p.(stock := if Limited(p) then p.stock - q else p.stock, sold := p.sold + q)
  }

  function Placed(s: State, user: nat, pid: nat, q: nat, no: OrderNo): State
    requires pid in s.products
    requires s.products[pid].delivery.Cdk? ==> q <= |Unused(s.cards, pid)|
  {
    var p := s.products[pid];
    s.(bank := Post(s.bank, ChargeOp(user, p.price * q, no)),
       products := s.products[pid := SoldProduct(p, q)],
       cards := if p.delivery.Cdk? then Take(s.cards, pid, q, |s.orders| + 1) else s.cards,
       orders := s.orders + [NewOrder(s, user, pid, q, no)])
  }

  /** placeOrder: everything happens or nothing does. */
  function Place(s: State, enabled: bool, user: nat, pid: nat, raw: int, no: OrderNo): State {
    if PlaceCheck(s, enabled, user, pid, raw, no).None? then Placed(s, user, pid, Quantity(raw), no) else s
  }

  // ---------- finishing an order ----------

  datatype Target = Deliver(content: string) | Fail | Cancel

  datatype FinishReply = Finished | NotFound | NotOpen | Changed | NotRefunded(verdict: Verdict)

  function RefundOp(o: Order): Op {
    Op(o.user, o.total, ByRefund, o.orderNo, KeyOf(Refund(o.orderNo)))
  }

  function Closed(o: Order, t: Target): Order {
    match t
    case Deliver(content) => o.(status := Delivered, content := content)
    case Fail => o.(status := Failed)
    case Cancel => o.(status := Canceled)
  }

  function Restocked(products: map<nat, Product>, o: Order): map<nat, Product> {
    if o.product !in products then products
    else
      var p := products[o.product];
      products[o.product := p.(
        stock := if Limited(p) then p.stock + o.quantity else p.stock,
        sold := if p.sold >= o.quantity then p.sold - o.quantity else p.sold)]
  }

  /** The guarded update and what follows it in finishOrder's transaction. snap
      is the row the transaction read before; the status may have changed since. */
  function FinishReplyOf(s: State, id: nat, snap: Order, t: Target): FinishReply {
    if !(1 <= id <= |s.orders|) then NotFound
    else if !Open(s.orders[id - 1].status) then Changed
    else if t.Deliver? then Finished
    else
      var v := Judge(s.bank, RefundOp(snap));
      if v == Applied || v == Duplicate then Finished else NotRefunded(v)
  }

  function FinishCommit(s: State, id: nat, snap: Order, t: Target): State {
    if FinishReplyOf(s, id, snap, t) != Finished then s
    else
      var orders := s.orders[id - 1 := Closed(s.orders[id - 1], t)];
      if t.Deliver? then s.(orders := orders)
      else s.(orders := orders, products := Restocked(s.products, snap), bank := Commit(s.bank, RefundOp(snap)))
  }

  /** finishOrder run without interruption. */
  function FinishSerialReply(s: State, id: nat, t: Target): FinishReply {
    if !(1 <= id <= |s.orders|) then NotFound
    else if !Open(s.orders[id - 1].status) then NotOpen
    else FinishReplyOf(s, id, s.orders[id - 1], t)
  }

  function FinishSerial(s: State, id: nat, t: Target): State {
    if FinishSerialReply(s, id, t) == Finished then FinishCommit(s, id, s.orders[id - 1], t) else s
  }

  // ---------- catalogue and stock keeping ----------

  function NewProduct(s: State, pid: nat, p: Product): State {
    if pid in s.products || p.price < 0 || p.stock < -1 || p.perUserLimit < 0 then s
    else s.(products := s.products[pid := p.(sold := 0)])
  }

  /** Save writes back every column of the row that was read before, with the
      new price and switch in it. */
  function SaveProduct(s: State, pid: nat, snap: Product, price: int, enabled: bool): State {
    if pid !in s.products || price < 0 then s
    else s.(products := s.products[pid := snap.(price := price, enabled := enabled)])
  }

  function ImportCard(s: State, pid: nat, content: string): State {
    if pid !in s.products || !s.products[pid].delivery.Cdk? then s
    else s.(cards := s.cards + [Card(s.nextCard, pid, 0, content)], nextCard := s.nextCard + 1)
  }

  function Without(cards: seq<Card>, id: nat): seq<Card> {
    if cards == [] then []
    else if cards[0].id == id && cards[0].order == 0 then cards[1..]
    else [cards[0]] + Without(cards[1..], id)
  }

  /** Only unused cards can be deleted. */
  function DropCard(s: State, id: nat): State {
    s.(cards := Without(s.cards, id))
  }
}
