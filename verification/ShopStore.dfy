/** The shop tables and the two transactions that work on them statement by
    statement, rolling back when they are refused. */
module ShopStore {
  import opened Keys
  import opened Options
  import opened Points
  import opened Shop
  import opened ShopProofs
  import opened Text

  /** The card with this id if it is still unused, or -1. */
  function FindUnused(cards: seq<Card>, id: nat): (r: int)
    ensures -1 <= r < |cards|
    ensures r >= 0 ==> cards[r].id == id && cards[r].order == 0
    ensures r < 0 ==> forall i | 0 <= i < |cards| :: !(cards[i].id == id && cards[i].order == 0)
  {
    if cards == [] then -1
    else if cards[0].id == id && cards[0].order == 0 then 0
    else
      var r := FindUnused(cards[1..], id);
      if r < 0 then -1 else r + 1
  }

  /** After n cards have been taken, the next unused card of the original list
      is still there, and taking it is one more step of Take. */
  lemma {:induction false} TakeNext(cards: seq<Card>, pid: nat, n: nat, oid: nat) returns (k: nat)
    requires n < |Unused(cards, pid)|
    ensures var t := Take(cards, pid, n, oid);
            && k < |t| == |cards|
            && t[k] == Unused(cards, pid)[n] && t[k].order == 0
            && t[k := t[k].(order := oid)] == Take(cards, pid, n + 1, oid)
  {
    hide Take, Unused;
    UnusedHead(cards, pid);
    var c := TakeHead(cards, pid, n, oid);
    var c' := TakeHead(cards, pid, n + 1, oid);
    var head := cards[0].product == pid && cards[0].order == 0;
    if head && n == 0 {
      k := 0;
      TakeNone(cards[1..], pid, oid);
    } else {
      var m := if head then n - 1 else n;
      var j := TakeNext(cards[1..], pid, m, oid);
      k := j + 1;
      var rest := Take(cards[1..], pid, m, oid);
      assert ([c] + rest)[k := rest[j].(order := oid)] == [c] + rest[j := rest[j].(order := oid)];
    }
  }

  lemma UnusedHead(cards: seq<Card>, pid: nat)
    requires Unused(cards, pid) != []
    ensures cards != []
    ensures Unused(cards, pid) ==
            (if cards[0].product == pid && cards[0].order == 0 then [cards[0]] else []) + Unused(cards[1..], pid)
  {
  }

  /** Take works on the list from left to right. */
  lemma TakeHead(cards: seq<Card>, pid: nat, n: nat, oid: nat) returns (c: Card)
    requires cards != []
    ensures var head := cards[0].product == pid && cards[0].order == 0;
            && c == (if head && n > 0 then cards[0].(order := oid) else cards[0])
            && Take(cards, pid, n, oid) == [c] + Take(cards[1..], pid, if head && n > 0 then n - 1 else n, oid)
  {
    c := if cards[0].product == pid && cards[0].order == 0 && n > 0 then cards[0].(order := oid) else cards[0];
    if n == 0 {
      assert Take(cards[1..], pid, 0, oid) == cards[1..];
    }
  }

  lemma TakeNone(cards: seq<Card>, pid: nat, oid: nat)
    ensures Take(cards, pid, 0, oid) == cards && Contents([]) == []
  {
  }

  /** One round of the allocation loop always finds its card unused. */
  lemma AssignNext(start: seq<Card>, next: nat, pid: nat, i: nat, oid: nat)
    requires CardsSorted(start, next) && oid != 0 && i < |Unused(start, pid)|
    ensures var t, cd := Take(start, pid, i, oid), Unused(start, pid)[i];
            var k := FindUnused(t, cd.id);
            && k >= 0
            && t[k := t[k].(order := oid)] == Take(start, pid, i + 1, oid)
    ensures Contents(Unused(start, pid)[..i + 1]) == Contents(Unused(start, pid)[..i]) + [Unused(start, pid)[i].content]
  {
    var t, cd := Take(start, pid, i, oid), Unused(start, pid)[i];
    var j := TakeNext(start, pid, i, oid);
    TakePointwise(start, pid, i, oid);
    hide Take, Unused, Contents;
    var k := FindUnused(t, cd.id);
    assert t[j].id == cd.id && t[j].order == 0;
    assert start[k].id == t[k].id && start[j].id == t[j].id;
    assert k == j;
    ContentsPrefix(Unused(start, pid), i);
    ContentsPrefix(Unused(start, pid), i + 1);
    ContentsAt(Unused(start, pid), i);
  }

  /** A refund refused as a duplicate was noticed before any write. */
  lemma RefundDuplicate(b: Bank, o: Order)
    ensures Judge(b, RefundOp(o)) == Duplicate ==> HasKey(b.ledger, RefundOp(o).key)
  {
    hide KeyOf;
    RefundKeyFits(o.orderNo);
  }

  class Store {
    const bank: Ledger
    var products: map<nat, Product>
    var cards: seq<Card>
    var nextCard: nat
    var orders: seq<Order>

    function View(): State
      reads this, bank
    {
      State(bank.View(), products, cards, nextCard, orders)
    }

    /** Card ids are a primary key. */
    ghost predicate Valid()
      reads this
    {
      CardsSorted(cards, nextCard)
    }

    constructor (bank: Ledger)
      ensures this.bank == bank && View() == State(bank.View(), map[], [], 1, []) && Valid()
    {
      this.bank := bank;
      products, cards, nextCard, orders := map[], [], 1, [];
    }

    method Rollback(s: State)
      modifies this, bank
      ensures View() == s
    {
      bank.Restore(s.bank);
      products, cards, nextCard, orders := s.products, s.cards, s.nextCard, s.orders;
    }

    /** UPDATE product_cards SET order_id = oid WHERE id = ? AND order_id = 0. */
    method AssignCard(id: nat, oid: nat) returns (affected: bool)
      modifies this`cards
      ensures affected == (FindUnused(old(cards), id) >= 0)
      ensures affected ==>
                var k := FindUnused(old(cards), id);
                cards == old(cards)[k := old(cards)[k].(order := oid)]
      ensures !affected ==> cards == old(cards)
    {
      var k := FindUnused(cards, id);
      if k < 0 {
        return false;
      }
      cards := cards[k := cards[k].(order := oid)];
      return true;
    }

    /** The allocation loop of placeOrder: looks at up to 3q unused cards in id
        order until q of them have been assigned. */
    method AllocateCards(pid: nat, q: nat, oid: nat) returns (picked: seq<string>)
      requires Valid() && oid != 0
      modifies this`cards
      ensures |Unused(old(cards), pid)| < q <==> |picked| < q
      ensures |picked| <= q
      ensures |picked| == q ==>
                && cards == Take(old(cards), pid, q, oid)
                && picked == Contents(Unused(old(cards), pid)[..q])
    {
      hide Take, Contents, CardsSorted;
      var unused := Unused(cards, pid);
      var found := unused[..if |unused| < 3 * q then |unused| else 3 * q];
      ghost var start := cards;
      picked := [];
      var i := 0;
      TakeNone(start, pid, oid);
      while i < |found|
        invariant 0 <= i <= |found| && |picked| == i <= q
        invariant cards == Take(start, pid, i, oid)
        invariant picked == Contents(found[..i])
      {
        if |picked| == q {
          break;
        }
        AssignNext(start, nextCard, pid, i, oid);
        assert found[i] == unused[i] && found[..i] == unused[..i] && found[..i + 1] == unused[..i + 1];
        var affected := AssignCard(found[i].id, oid);
        if affected {
          picked := picked + [found[i].content];
        }
        i := i + 1;
      }
      assert found[..i] == unused[..i];
    }

    /** The stock part of placeOrder's transaction: cards or a counter, and the
        sold count. */
    method TakeStock(pid: nat, q: nat, oid: nat) returns (ok: bool, content: string)
      requires Valid() && pid in products && oid != 0
      modifies this`cards, this`products
      ensures var p := old(products)[pid];
              && (ok <==> if p.delivery.Cdk? then |Unused(old(cards), pid)| >= q else Limited(p) ==> p.stock >= q)
              && (ok ==>
                    && products == old(products)[pid := SoldProduct(p, q)]
                    && cards == (if p.delivery.Cdk? then Take(old(cards), pid, q, oid) else old(cards))
                    && content == if p.delivery.Cdk? then Join(Contents(Unused(old(cards), pid)[..q])) else "")
    {
      hide Take, Unused, Contents, Join, CardsSorted;
      var p := products[pid];
      content := "";
      if p.delivery.Cdk? {
        var picked := AllocateCards(pid, q, oid);
        if |picked| < q {
          return false, "";
        }
        content := Join(picked);
      } else if p.stock >= 0 {
        if p.stock < q {
          return false, "";
        }
        products := products[pid := products[pid].(stock := products[pid].stock - q)];
      }
      products := products[pid := products[pid].(sold := products[pid].sold + q)];
      assert products == old(products)[pid := SoldProduct(p, q)];
      return true, content;
    }

    method PlaceOrder(enabled: bool, user: nat, pid: nat, raw: int, no: OrderNo) returns (error: Option<PlaceError>)
      requires Valid()
      modifies this, bank
      ensures error == PlaceCheck(old(View()), enabled, user, pid, raw, no)
      ensures View() == Place(old(View()), enabled, user, pid, raw, no)
    {
      hide Judge, Post, Take, Unused, LiveQty, Contents, Join, NumberTaken, CardsSorted, ChargeOp, HasKey, Truncate;
      hide Moved, AccountOf, SoldProduct;
      if !enabled {
        return Some(PointsOff);
      }
      var q := if raw <= 0 then 1 else raw;
      if q > MAX_QUANTITY {
        return Some(TooMany);
      }
      var before := View();
      if pid !in products || !products[pid].enabled {
        return Some(NoProduct);
      }
      var p := products[pid];
      if p.perUserLimit > 0 {
        var bought := LiveQty(orders, pid, Some(user));
        if bought + q > p.perUserLimit {
          return Some(OverLimit);
        }
      }
      var total := p.price * q;
      if NumberTaken(orders, no) {
        return Some(DuplicateNo);
      }
      orders := orders + [Order(no, user, pid, p.delivery, q, p.price, total, FirstStatus(p.delivery), "")];
      var oid := |orders|;
      var ok, content := TakeStock(pid, q, oid);
      if !ok {
        Rollback(before);
        return Some(OutOfStock);
      }
      var v := bank.ApplyPoints(ChargeOp(user, total, no));
      if v != Applied {
        Rollback(before);
        return Some(NotPaid(v));
      }
      orders := orders[oid - 1 := orders[oid - 1].(content := content)];
      return None;
    }

    method FinishOrder(id: nat, t: Target) returns (reply: FinishReply)
      modifies this, bank
      ensures reply == FinishSerialReply(old(View()), id, t)
      ensures View() == FinishSerial(old(View()), id, t)
    {
      hide Judge, Post, KeyOf, RefundOp, HasKey, Truncate;
      if !(1 <= id <= |orders|) {
        return NotFound;
      }
      var before := View();
      var o := orders[id - 1];
      if !Open(o.status) {
        return NotOpen;
      }
      orders := orders[id - 1 := Closed(orders[id - 1], t)];
      if !t.Deliver? {
        if o.product in products && !products[o.product].delivery.Cdk? && products[o.product].stock >= 0 {
          var p := products[o.product];
          products := products[o.product := p.(stock := p.stock + o.quantity)];
        }
        if o.product in products && products[o.product].sold >= o.quantity {
          var p := products[o.product];
          products := products[o.product := p.(sold := p.sold - o.quantity)];
        }
        assert products == Restocked(before.products, o);
        RefundDuplicate(before.bank, o);
        var v := bank.ApplyPoints(RefundOp(o));
        if v != Applied && v != Duplicate {
          Rollback(before);
          return NotRefunded(v);
        }
      }
      return Finished;
    }
  }

  lemma {:induction false} ContentsAt(cards: seq<Card>, i: nat)
    requires i < |cards|
    ensures |Contents(cards)| == |cards| && Contents(cards)[i] == cards[i].content
  {
    ContentsPrefix(cards, 0);
    if i > 0 {
      ContentsAt(cards[1..], i - 1);
    }
  }
}
