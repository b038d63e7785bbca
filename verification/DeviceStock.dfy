// Stock is conserved: what leaves it is in live order items, and what is cancelled comes back once.
module DeviceStock {
  import opened Groups
  import opened DeviceOrders
  import opened DeviceRuns

  // Quantity of product p in a live item, in an order, and in all orders.
  function QuantityOf(p: nat): Item -> int {
    (i: Item) => if Live(i) && i.productId == p then i.quantity else 0
  }

  function OrderQuantity(p: nat): Order -> int {
    (o: Order) => Sum(o.items, QuantityOf(p))
  }

  function Outstanding(orders: seq<Order>, p: nat): int {
    Sum(orders, OrderQuantity(p))
  }

  // Product p keeps its settings; with inventory tracking, stock and live quantities keep their sum, and without it
  // the stock does not change.
  ghost predicate Conserves(before: Db, after: Db, p: nat) {
    && (p in after.products <==> p in before.products)
    && (p in before.products ==>
          var b, a := before.products[p], after.products[p];
          && a == b.(stock := a.stock)
          && (if b.trackInventory then a.stock + Outstanding(after.orders, p) == b.stock + Outstanding(before.orders, p)
              else a.stock == b.stock))
  }

  lemma OrderReplaced(orders: seq<Order>, o: nat, order: Order, p: nat)
    requires o < |orders|
    ensures Outstanding(orders[o := order], p) ==
      Outstanding(orders, p) - Sum(orders[o].items, QuantityOf(p)) + Sum(order.items, QuantityOf(p))
  {
    SumUpdate(orders, o, order, OrderQuantity(p));
  }

  lemma AddItemConserves(db: Db, o: nat, dto: ItemDto, chargePfand: bool, p: nat)
    requires o < |db.orders| && CanAdd(db, db.orders[o].event, dto)
    ensures Conserves(db, AddItem(db, o, dto, chargePfand), p)
  {
    var order := db.orders[o];
    var item := NewItem(db.products[dto.productId], dto, chargePfand);
    OrderReplaced(db.orders, o, order.(items := order.items + [item]), p);
    SumAppend(order.items, item, QuantityOf(p));
  }

  lemma {:induction false} AddItemsConserve(db: Db, o: nat, dtos: seq<ItemDto>, chargePfand: bool, p: nat)
    requires o < |db.orders|
    ensures Conserves(db, AddItems(db, o, dtos, chargePfand).0, p)
  {
    if dtos != [] {
      AddItemsConserve(db, o, dtos[..|dtos| - 1], chargePfand, p);
      var (d, ok) := AddItems(db, o, dtos[..|dtos| - 1], chargePfand);
      var dto := dtos[|dtos| - 1];
      if ok && CanAdd(d, d.orders[o].event, dto) {
        AddItemConserves(d, o, dto, chargePfand, p);
      }
    }
  }

  lemma CreateConserves(db: Db, dto: OrderDto, p: nat)
    ensures Conserves(db, AfterCreateOrder(db, dto).0, p)
  {
    if dto.eventAccepts {
      var o, start := |db.orders|, db.(orders := db.orders + [EmptyOrder(dto)]);
      SumAppend(db.orders, EmptyOrder(dto), OrderQuantity(p));
      AddItemsConserve(start, o, dto.items, dto.chargePfand, p);
      var d := AddItems(start, o, dto.items, dto.chargePfand).0;
      OrderReplaced(d.orders, o, SettleIfFree(d.orders[o]), p);
      OrderReplaced(d.orders, o, SettleIfFree(Recalculate(d.orders[o])), p);
    }
  }

  lemma SameQuantities(a: seq<Item>, b: seq<Item>, p: nat)
    requires |a| == |b|
    requires forall i :: 0 <= i < |a| ==> b[i] == a[i].(paidQuantity := b[i].paidQuantity)
    ensures Sum(a, QuantityOf(p)) == Sum(b, QuantityOf(p))
  {
  }

  lemma PaymentConserves(db: Db, o: nat, amount: int, p: nat)
    ensures Conserves(db, AfterPayment(db, o, amount).0, p)
  {
    var after := AfterPayment(db, o, amount).0;
    if after != db {
      SameQuantities(db.orders[o].items, Map(db.orders[o].items, PayInFull), p);
      OrderReplaced(db.orders, o, after.orders[o], p);
    }
  }

  lemma SplitConserves(db: Db, o: nat, amount: int, split: seq<SplitItem>, p: nat)
    ensures Conserves(db, AfterSplitPayment(db, o, amount, split).0, p)
  {
    var after := AfterSplitPayment(db, o, amount, split).0;
    if after != db {
      SameQuantities(db.orders[o].items, AddPaid(db.orders[o].items, split), p);
      OrderReplaced(db.orders, o, after.orders[o], p);
    }
  }

  lemma {:induction false} RestockAdds(products: map<nat, Product>, items: seq<Item>, p: nat)
    ensures var after := Restock(products, items);
      && after.Keys == products.Keys
      && (p in products ==> after[p] == products[p].(stock := products[p].stock +
            if products[p].trackInventory then Sum(items, QuantityOf(p)) else 0))
  {
    if items != [] {
      RestockAdds(products, items[..|items| - 1], p);
      RestockAdds(products, items[..|items| - 1], items[|items| - 1].productId);
    }
  }

  lemma {:induction false} CancelledQuantity(items: seq<Item>, p: nat)
    ensures Sum(Map(items, CancelItem), QuantityOf(p)) == 0
  {
    if items != [] {
      var n := |items| - 1;
      CancelledQuantity(items[..n], p);
      assert Map(items, CancelItem)[..n] == Map(items[..n], CancelItem);
    }
  }

  lemma CancelConserves(db: Db, o: nat, signed: nat -> bool, p: nat)
    ensures Conserves(db, AfterCancel(db, o, signed).0, p)
  {
    var after, result := AfterCancel(db, o, signed).0, AfterCancel(db, o, signed).1;
    if result == Done {
      RestockAdds(db.products, db.orders[o].items, p);
      CancelledQuantity(db.orders[o].items, p);
      OrderReplaced(db.orders, o, after.orders[o], p);
    }
  }

  lemma StepConserves(db: Db, op: Op, p: nat)
    ensures Conserves(db, Apply(db, op), p)
  {
    match op
    case Create(dto) => CreateConserves(db, dto, p);
    case Pay(o, amount) => PaymentConserves(db, o, amount, p);
    case Split(o, amount, items) => SplitConserves(db, o, amount, items, p);
    case Cancel(o, signed) => CancelConserves(db, o, signed, p);
  }

  // Over every serial run, including orders that fail after some of their items were added: the stock of a tracked
  // product plus its live quantities is what it was at the start, and untracked products keep their stock.
  lemma {:induction false} StockIsConserved(db: Db, ops: seq<Op>, p: nat)
    ensures Conserves(db, Run(db, ops), p)
  {
    if ops != [] {
      StockIsConserved(db, ops[..|ops| - 1], p);
      StepConserves(Run(db, ops[..|ops| - 1]), ops[|ops| - 1], p);
    }
  }

  // ----- stock stays non-negative -----

  ghost predicate Positive(items: seq<Item>) {
    forall i :: 0 <= i < |items| ==> items[i].quantity >= 1
  }

  ghost predicate StockInv(db: Db) {
    && (forall p :: p in db.products && db.products[p].trackInventory ==> db.products[p].stock >= 0)
    && (forall o :: 0 <= o < |db.orders| ==> Positive(db.orders[o].items))
  }

  lemma {:induction false} AddItemsKeepStock(db: Db, o: nat, dtos: seq<ItemDto>, chargePfand: bool)
    requires o < |db.orders| && StockInv(db) && forall i :: 0 <= i < |dtos| ==> dtos[i].Valid()
    ensures StockInv(AddItems(db, o, dtos, chargePfand).0)
  {
    if dtos != [] {
      AddItemsKeepStock(db, o, dtos[..|dtos| - 1], chargePfand);
    }
  }

  lemma PositiveSum(items: seq<Item>, p: nat)
    requires Positive(items)
    ensures Sum(items, QuantityOf(p)) >= 0
  {
  }

  lemma CreateKeepsStock(db: Db, dto: OrderDto)
    requires StockInv(db) && dto.Valid()
    ensures StockInv(AfterCreateOrder(db, dto).0)
  {
    if dto.eventAccepts {
      AddItemsKeepStock(db.(orders := db.orders + [EmptyOrder(dto)]), |db.orders|, dto.items, dto.chargePfand);
    }
  }

  lemma PaymentKeepsStock(db: Db, o: nat, amount: int)
    requires StockInv(db)
    ensures StockInv(AfterPayment(db, o, amount).0)
  {
    if o < |db.orders| {
      var items := db.orders[o].items;
      assert forall i :: 0 <= i < |items| ==> Map(items, PayInFull)[i] == PayInFull(items[i]);
    }
  }

  lemma RestockKeepsStock(products: map<nat, Product>, items: seq<Item>)
    requires Positive(items) && forall p :: p in products && products[p].trackInventory ==> products[p].stock >= 0
    ensures forall p :: p in Restock(products, items) && Restock(products, items)[p].trackInventory ==> Restock(products, items)[p].stock >= 0
  {
    forall p | p in Restock(products, items) && Restock(products, items)[p].trackInventory
      ensures Restock(products, items)[p].stock >= 0
    {
      RestockAdds(products, items, p);
      PositiveSum(items, p);
    }
  }

  lemma CancelKeepsStock(db: Db, o: nat, signed: nat -> bool)
    requires StockInv(db)
    ensures StockInv(AfterCancel(db, o, signed).0)
  {
    if AfterCancel(db, o, signed).1 == Done {
      var items := db.orders[o].items;
      RestockKeepsStock(db.products, items);
      assert forall i :: 0 <= i < |items| ==> Map(items, CancelItem)[i] == CancelItem(items[i]);
    }
  }

  lemma StepKeepsStock(db: Db, op: Op)
    requires StockInv(db) && op.Valid()
    ensures StockInv(Apply(db, op))
  {
    match op
    case Create(dto) => CreateKeepsStock(db, dto);
    case Pay(o, amount) => PaymentKeepsStock(db, o, amount);
    case Split(_, _, _) =>
    case Cancel(o, signed) => CancelKeepsStock(db, o, signed);
  }

  // Stock that starts non-negative stays so.
  lemma {:induction false} StockStaysNonNegative(db: Db, ops: seq<Op>)
    requires StockInv(db) && AllValid(ops)
    ensures StockInv(Run(db, ops))
  {
    if ops != [] {
      StockStaysNonNegative(db, ops[..|ops| - 1]);
      StepKeepsStock(Run(db, ops[..|ops| - 1]), ops[|ops| - 1]);
    }
  }

  // ----- an item is restored at most once -----

  // Items keep their product and quantity, and a cancelled item stays cancelled; only live items are restored.
  ghost predicate ItemPersists(b: Item, a: Item) {
    a.productId == b.productId && a.quantity == b.quantity && (b.status.ItemCancelled? ==> a.status.ItemCancelled?)
  }

  ghost predicate OrderPersists(b: Order, a: Order) {
    |b.items| <= |a.items| && forall i :: 0 <= i < |b.items| ==> ItemPersists(b.items[i], a.items[i])
  }

  ghost predicate ItemsPersist(before: Db, after: Db) {
    |before.orders| <= |after.orders| && forall o :: 0 <= o < |before.orders| ==> OrderPersists(before.orders[o], after.orders[o])
  }

  lemma PersistsAcross(a: Db, b: Db, c: Db)
    requires ItemsPersist(a, b) && ItemsPersist(b, c)
    ensures ItemsPersist(a, c)
  {
  }

  lemma {:induction false} AddItemsPersist(db: Db, o: nat, dtos: seq<ItemDto>, chargePfand: bool)
    requires o < |db.orders|
    ensures ItemsPersist(db, AddItems(db, o, dtos, chargePfand).0)
  {
    if dtos != [] {
      var init := AddItems(db, o, dtos[..|dtos| - 1], chargePfand).0;
      AddItemsPersist(db, o, dtos[..|dtos| - 1], chargePfand);
      PersistsAcross(db, init, AddItems(db, o, dtos, chargePfand).0);
    }
  }

  lemma StepPersists(db: Db, op: Op)
    ensures ItemsPersist(db, Apply(db, op))
  {
    match op
    case Create(dto) =>
      if dto.eventAccepts {
        AddItemsPersist(db.(orders := db.orders + [EmptyOrder(dto)]), |db.orders|, dto.items, dto.chargePfand);
      }
    case Pay(o, amount) =>
      if o < |db.orders| {
        var items := db.orders[o].items;
        assert forall i :: 0 <= i < |items| ==> Map(items, PayInFull)[i] == PayInFull(items[i]);
      }
    case Split(o, amount, items) =>
    case Cancel(o, signed) =>
      if o < |db.orders| {
        var items := db.orders[o].items;
        assert forall i :: 0 <= i < |items| ==> Map(items, CancelItem)[i] == CancelItem(items[i]);
      }
  }

  lemma {:induction false} CancelledStaysCancelled(db: Db, ops: seq<Op>)
    ensures ItemsPersist(db, Run(db, ops))
  {
    if ops != [] {
      var init := Run(db, ops[..|ops| - 1]);
      CancelledStaysCancelled(db, ops[..|ops| - 1]);
      StepPersists(init, ops[|ops| - 1]);
      PersistsAcross(db, init, Run(db, ops));
    }
  }

  predicate CancelledAt(db: Db, o: nat, i: nat) {
    o < |db.orders| && i < |db.orders[o].items| && !Live(db.orders[o].items[i])
  }

  // The request cancels the order while the item is live, and so puts its quantity back.
  predicate Restores(db: Db, op: Op, o: nat, i: nat) {
    && op.Cancel? && op.order == o && AfterCancel(db, o, op.signed).1 == Done
    && i < |db.orders[o].items| && Live(db.orders[o].items[i])
  }

  function Restorations(db: Db, ops: seq<Op>, o: nat, i: nat): nat {
    if ops == [] then 0
    else
      var init := ops[..|ops| - 1];
      Restorations(db, init, o, i) + if Restores(Run(db, init), ops[|ops| - 1], o, i) then 1 else 0
  }

  lemma {:induction false} AddItemsLive(db: Db, o: nat, dtos: seq<ItemDto>, chargePfand: bool)
    requires o < |db.orders| && forall i :: 0 <= i < |db.orders[o].items| ==> Live(db.orders[o].items[i])
    ensures forall i :: 0 <= i < |AddItems(db, o, dtos, chargePfand).0.orders[o].items| ==>
      Live(AddItems(db, o, dtos, chargePfand).0.orders[o].items[i])
  {
    if dtos != [] {
      AddItemsLive(db, o, dtos[..|dtos| - 1], chargePfand);
    }
  }

  lemma StepCancels(db: Db, op: Op, o: nat, i: nat)
    ensures CancelledAt(Apply(db, op), o, i) <==> CancelledAt(db, o, i) || Restores(db, op, o, i)
  {
    match op
    case Create(dto) =>
      if dto.eventAccepts {
        AddItemsLive(db.(orders := db.orders + [EmptyOrder(dto)]), |db.orders|, dto.items, dto.chargePfand);
      }
    case Pay(p, amount) =>
      if p < |db.orders| {
        var items := db.orders[p].items;
        assert forall k :: 0 <= k < |items| ==> Map(items, PayInFull)[k] == PayInFull(items[k]);
      }
    case Split(_, _, _) =>
    case Cancel(p, signed) =>
      if p < |db.orders| {
        var items := db.orders[p].items;
        assert forall k :: 0 <= k < |items| ==> Map(items, CancelItem)[k] == CancelItem(items[k]);
      }
  }

  // Over every run each item is put back at most once: once if it is cancelled in the end, and not at all otherwise.
  lemma {:induction false} RestoredOnce(products: map<nat, Product>, ops: seq<Op>, o: nat, i: nat)
    ensures Restorations(Start(products), ops, o, i) == if CancelledAt(Run(Start(products), ops), o, i) then 1 else 0
  {
    if ops != [] {
      hide Apply, Restores;
      var init := ops[..|ops| - 1];
      RestoredOnce(products, init, o, i);
      StepCancels(Run(Start(products), init), ops[|ops| - 1], o, i);
      CancelledIsNotRestored(Run(Start(products), init), ops[|ops| - 1], o, i);
    }
  }

  lemma CancelledIsNotRestored(db: Db, op: Op, o: nat, i: nat)
    ensures !(CancelledAt(db, o, i) && Restores(db, op, o, i))
  {
  }
}
