// What each request of the device API does and when it is accepted, in terms of the request, of the database before it,
// and of what happened to the order before.
module DeviceRequests {
  import opened Options
  import opened Groups
  import opened DeviceOrders
  import opened DeviceRuns
  import opened DevicePayments

  // ----- creating an order -----

  // What the request charges for an entry, what deposit it carries, and how much of a product it asks for.
  function Charge(products: map<nat, Product>): ItemDto -> int {
    (d: ItemDto) =>
      if d.productId in products then (products[d.productId].price + Sum(d.options, Itself())) * d.quantity else 0
  }

  function Deposit(products: map<nat, Product>): ItemDto -> int {
    (d: ItemDto) => if d.productId in products && !d.isRefill then products[d.productId].pfand * d.quantity else 0
  }

  function Ordered(p: nat): ItemDto -> int {
    (d: ItemDto) => if d.productId == p then d.quantity else 0
  }

  // The k-th entry asks for a product of the event that is on sale, and all entries up to it fit into its stock.
  ghost predicate CanBeSold(products: map<nat, Product>, event: nat, dtos: seq<ItemDto>, k: nat)
    requires k < |dtos|
  {
    && dtos[k].productId in products
    && var p := products[dtos[k].productId];
       p.event == event && p.isActive && p.isAvailable &&
       (p.trackInventory ==> Sum(dtos[..k + 1], Ordered(dtos[k].productId)) <= p.stock)
  }

  // The item that an entry becomes.
  ghost predicate Becomes(d: ItemDto, p: Product, chargePfand: bool, i: Item) {
    && i.productId == d.productId && i.quantity == d.quantity && i.isRefill == d.isRefill
    && i.unitPrice == p.price && i.optionsPrice == Sum(d.options, Itself())
    && i.totalPrice == (p.price + Sum(d.options, Itself())) * d.quantity
    && i.depositAmount == (if chargePfand && !d.isRefill then p.pfand else 0)
    && i.status == Pending && i.hasStation == p.hasStation && i.paidQuantity == 0
  }

  ghost predicate TakenFrom(before: map<nat, Product>, after: map<nat, Product>, dtos: seq<ItemDto>) {
    && after.Keys == before.Keys
    && forall p :: p in before ==>
         after[p] == before[p].(stock := before[p].stock - if before[p].trackInventory then Sum(dtos, Ordered(p)) else 0)
  }

  // The first n entries were added: they became the items of order o, and left the stock.
  ghost predicate Added(db: Db, after: Db, o: nat, dtos: seq<ItemDto>, chargePfand: bool, n: nat)
    requires o < |after.orders| && n <= |dtos|
  {
    && (forall k :: 0 <= k < n ==> dtos[k].productId in db.products)
    && |after.orders[o].items| == n
    && (forall k :: 0 <= k < n ==> Becomes(dtos[k], db.products[dtos[k].productId], chargePfand, after.orders[o].items[k]))
    && TakenFrom(db.products, after.products, dtos[..n])
  }

  // Entries are added up to the first one that cannot be sold.
  ghost predicate Stops(products: map<nat, Product>, event: nat, dtos: seq<ItemDto>, n: nat) {
    && n <= |dtos|
    && (forall k :: 0 <= k < n ==> CanBeSold(products, event, dtos, k))
    && (n < |dtos| ==> !CanBeSold(products, event, dtos, n))
  }

  lemma TakingOne(db: Db, d: Db, event: nat, dtos: seq<ItemDto>)
    requires dtos != [] && TakenFrom(db.products, d.products, dtos[..|dtos| - 1])
    ensures CanAdd(d, event, dtos[|dtos| - 1]) <==> CanBeSold(db.products, event, dtos, |dtos| - 1)
    ensures CanAdd(d, event, dtos[|dtos| - 1]) ==> TakenFrom(db.products, TakeStock(d, dtos[|dtos| - 1]), dtos)
  {
    assert dtos[..|dtos|] == dtos;
  }

  lemma PrefixCanBeSold(products: map<nat, Product>, event: nat, dtos: seq<ItemDto>, n: nat, k: nat)
    requires k < n <= |dtos|
    ensures CanBeSold(products, event, dtos[..n], k) <==> CanBeSold(products, event, dtos, k)
  {
    assert dtos[..n][..k + 1] == dtos[..k + 1];
  }

  lemma StopsAtOrBeyond(products: map<nat, Product>, event: nat, dtos: seq<ItemDto>, n: nat)
    requires dtos != [] && Stops(products, event, dtos[..|dtos| - 1], n)
    ensures var last: nat := |dtos| - 1;
      Stops(products, event, dtos, if n == last && CanBeSold(products, event, dtos, last) then |dtos| else n)
  {
    hide CanBeSold;
    forall k: nat | k < |dtos| - 1
      ensures CanBeSold(products, event, dtos[..|dtos| - 1], k) <==> CanBeSold(products, event, dtos, k)
    {
      PrefixCanBeSold(products, event, dtos, |dtos| - 1, k);
    }
  }

  lemma AddedPrefix(db: Db, after: Db, o: nat, dtos: seq<ItemDto>, m: nat, chargePfand: bool, n: nat)
    requires o < |after.orders| && n <= m <= |dtos| && Added(db, after, o, dtos[..m], chargePfand, n)
    ensures Added(db, after, o, dtos, chargePfand, n)
  {
    hide TakenFrom, Becomes;
    assert dtos[..m][..n] == dtos[..n];
  }

  lemma {:induction false} AddingStops(db: Db, o: nat, dtos: seq<ItemDto>, chargePfand: bool) returns (n: nat)
    requires o < |db.orders| && db.orders[o].items == []
    ensures Stops(db.products, db.orders[o].event, dtos, n)
    ensures AddItems(db, o, dtos, chargePfand).1 <==> n == |dtos|
    ensures Added(db, AddItems(db, o, dtos, chargePfand).0, o, dtos, chargePfand, n)
  {
    if dtos == [] {
      n := 0;
    } else {
      var m: nat := |dtos| - 1;
      var init, event := dtos[..m], db.orders[o].event;
      n := AddingStops(db, o, init, chargePfand);
      var (d, ok) := AddItems(db, o, init, chargePfand);
      StopsAtOrBeyond(db.products, event, dtos, n);
      AddedPrefix(db, d, o, dtos, m, chargePfand, n);
      if ok {
        TakenIn(db, d, o, init, chargePfand);
        TakingOne(db, d, event, dtos);
        if CanAdd(d, event, dtos[m]) {
          n := |dtos|;
          AddsOne(db, d, o, dtos, chargePfand);
        }
      }
      hide CanBeSold, CanAdd, Added, Stops, AddItem;
    }
  }

  lemma TakenIn(db: Db, d: Db, o: nat, dtos: seq<ItemDto>, chargePfand: bool)
    requires o < |d.orders| && Added(db, d, o, dtos, chargePfand, |dtos|)
    ensures TakenFrom(db.products, d.products, dtos)
  {
    hide TakenFrom, Becomes;
    assert dtos[..|dtos|] == dtos;
  }

  lemma AddsOne(db: Db, d: Db, o: nat, dtos: seq<ItemDto>, chargePfand: bool)
    requires dtos != [] && o < |d.orders| && CanAdd(d, d.orders[o].event, dtos[|dtos| - 1])
    requires Added(db, d, o, dtos[..|dtos| - 1], chargePfand, |dtos| - 1)
    requires TakenFrom(db.products, TakeStock(d, dtos[|dtos| - 1]), dtos)
    ensures Added(db, AddItem(d, o, dtos[|dtos| - 1], chargePfand), o, dtos, chargePfand, |dtos|)
  {
    hide Sum, TakeStock;
    assert dtos[..|dtos|] == dtos;
  }

  // When an order is created, and what is left if an entry cannot be sold: its entries up to the first such one.
  lemma CreateOrderAcceptedIff(db: Db, dto: OrderDto) returns (n: nat)
    ensures var result := AfterCreateOrder(db, dto).1;
      && Stops(db.products, dto.event, dto.items, n)
      && (result == Rejected <==> !dto.eventAccepts)
      && (result == Done <==> dto.eventAccepts && n == |dto.items|)
    ensures AfterCreateOrder(db, dto).1 != Rejected ==>
      && |AfterCreateOrder(db, dto).0.orders| == |db.orders| + 1
      && Added(db, AfterCreateOrder(db, dto).0, |db.orders|, dto.items, dto.chargePfand, n)
  {
    n := AddingStops(db.(orders := db.orders + [EmptyOrder(dto)]), |db.orders|, dto.items, dto.chargePfand);
    hide Becomes, TakenFrom, CanBeSold;
  }

  // What an order costs: every completed createOrder charges unit price and options of each entry times its quantity,
  // deposits where they are charged, a discount of at most that, and the tip; without entries it charges nothing.
  lemma CreatedOrderCharges(db: Db, dto: OrderDto)
    requires AfterCreateOrder(db, dto).1 == Done
    ensures var order := AfterCreateOrder(db, dto).0.orders[|db.orders|];
      var gross := Sum(dto.items, Charge(db.products));
      && order.event == dto.event && order.status == Open && order.paidAmount == 0 && order.tip == dto.tip
      && order.subtotal == gross
      && order.pfandTotal == (if dto.chargePfand then Sum(dto.items, Deposit(db.products)) else 0)
      && order.discount == (if dto.items == [] || dto.discount <= gross then dto.discount else gross)
      && order.total == (if dto.items == [] then 0 else gross - order.discount + dto.tip + order.pfandTotal)
      && order.paymentStatus == (if order.total <= 0 then Paid else Unpaid)
  {
    var n := CreateOrderAcceptedIff(db, dto);
    var order := AfterCreateOrder(db, dto).0.orders[|db.orders|];
    ItemsCharge(db.products, dto.items, dto.chargePfand, order.items);
    CreatedOrderFields(db, dto);
    hide AfterCreateOrder, Becomes, CanBeSold, TakenFrom;
  }

  lemma CreatedOrderFields(db: Db, dto: OrderDto)
    requires AfterCreateOrder(db, dto).1 == Done
    ensures var order := AfterCreateOrder(db, dto).0.orders[|db.orders|];
      var subtotal, pfand := Sum(order.items, PriceOf), Sum(order.items, DepositOf);
      && order.event == dto.event && order.status == Open && order.paidAmount == 0 && order.tip == dto.tip
      && order.paymentStatus == (if order.total <= 0 then Paid else Unpaid)
      && (dto.items == [] ==> order.subtotal == order.pfandTotal == order.total == 0 && order.discount == dto.discount)
      && (dto.items != [] ==>
           && order.subtotal == subtotal && order.pfandTotal == pfand
           && order.discount == (if dto.discount <= subtotal then dto.discount else subtotal)
           && order.total == subtotal - order.discount + dto.tip + pfand)
  {
    hide Sum;
  }

  lemma ItemsCharge(products: map<nat, Product>, dtos: seq<ItemDto>, chargePfand: bool, items: seq<Item>)
    requires |items| == |dtos| && forall k :: 0 <= k < |dtos| ==> dtos[k].productId in products
    requires forall k :: 0 <= k < |dtos| ==> Becomes(dtos[k], products[dtos[k].productId], chargePfand, items[k])
    ensures Sum(items, PriceOf) == Sum(dtos, Charge(products))
    ensures Sum(items, DepositOf) == if chargePfand then Sum(dtos, Deposit(products)) else 0
  {
    SumEqual(items, dtos, PriceOf, Charge(products));
    if chargePfand {
      SumEqual(items, dtos, DepositOf, Deposit(products));
    } else {
      NoDeposits(items);
    }
  }

  lemma {:induction false} NoDeposits(items: seq<Item>)
    requires forall i :: 0 <= i < |items| ==> items[i].depositAmount == 0
    ensures Sum(items, DepositOf) == 0
  {
    if items != [] {
      NoDeposits(items[..|items| - 1]);
    }
  }

  // Recalculating charges the items that are not cancelled, at their own totals and deposits.
  lemma RecalculationSkipsCancelled(o: Order)
    ensures var live := Filter(o.items, (i: Item) => i.status != ItemCancelled);
      && Recalculate(o).subtotal == Sum(live, (i: Item) => i.totalPrice)
      && Recalculate(o).pfandTotal == Sum(live, (i: Item) => i.depositAmount * i.quantity)
      && Recalculate(o).total == Recalculate(o).subtotal - Recalculate(o).discount + o.tip + Recalculate(o).pfandTotal
      && (Recalculate(o).discount == o.discount || Recalculate(o).discount == Recalculate(o).subtotal < o.discount)
  {
    SumFilter(o.items, (i: Item) => i.status != ItemCancelled, (i: Item) => i.totalPrice, PriceOf);
    SumFilter(o.items, (i: Item) => i.status != ItemCancelled, (i: Item) => i.depositAmount * i.quantity, DepositOf);
  }

  // ----- payments -----

  // The item still goes through a production station.
  predicate AwaitsProduction(i: Item) {
    i.hasStation && i.status == Pending
  }

  ghost predicate NothingAwaited(items: seq<Item>) {
    forall i :: 0 <= i < |items| ==> !AwaitsProduction(items[i])
  }

  // What every accepted payment does, whole or split: it is recorded, added to the paid amount and compared with the
  // total. It completes the order exactly if the total is reached and no item awaits production.
  ghost predicate Receives(db: Db, after: Db, o: nat, amount: int)
    requires o < |db.orders|
  {
    && |after.orders| == |db.orders| && after.products == db.products
    && after.payments == db.payments + [Payment(o, amount, None)]
    && (forall k :: 0 <= k < |db.orders| && k != o ==> after.orders[k] == db.orders[k])
    && var b, a := db.orders[o], after.orders[o];
       && a == b.(status := a.status, paymentStatus := a.paymentStatus, paidAmount := a.paidAmount, items := a.items)
       && a.paidAmount == b.paidAmount + amount
       && (a.paymentStatus == Paid <==> a.paidAmount >= a.total)
       && (a.paymentStatus == PartlyPaid <==> 0 < a.paidAmount < a.total)
       && a.status == (if a.paidAmount >= a.total && NothingAwaited(b.items) then Completed else b.status)
       && |a.items| == |b.items|
       && (forall i :: 0 <= i < |b.items| ==> a.items[i] == b.items[i].(paidQuantity := a.items[i].paidQuantity))
  }

  lemma WholePaymentReceives(db: Db, o: nat, amount: int)
    requires AfterPayment(db, o, amount).1 == Done
    ensures o < |db.orders| && Receives(db, AfterPayment(db, o, amount).0, o, amount)
    ensures var b, a := db.orders[o], AfterPayment(db, o, amount).0.orders[o];
      forall i :: 0 <= i < |b.items| ==>
        a.items[i].paidQuantity == if b.paidAmount + amount >= b.total then b.items[i].quantity else b.items[i].paidQuantity
  {
    MapsItems(db.orders[o].items, PayInFull);
  }

  lemma SplitPaymentReceives(db: Db, o: nat, amount: int, split: seq<SplitItem>)
    requires AfterSplitPayment(db, o, amount, split).1 == Done
    ensures o < |db.orders| && Receives(db, AfterSplitPayment(db, o, amount, split).0, o, amount)
  {
    hide AddPaid, Expected;
    assert forall i :: 0 <= i < |db.orders[o].items| ==>
      AddPaid(db.orders[o].items, split)[i] == db.orders[o].items[i].(paidQuantity := AddPaid(db.orders[o].items, split)[i].paidQuantity);
  }

  // The value of the entries of a split request.
  function EntryValue(items: seq<Item>): SplitItem -> int {
    (s: SplitItem) => if s.item < |items| then (items[s.item].unitPrice + items[s.item].optionsPrice) * s.quantity else 0
  }

  lemma {:induction false} ExpectedIsValue(items: seq<Item>, split: seq<SplitItem>)
    requires CanSplit(items, split)
    ensures Expected(items, split) == Sum(split, EntryValue(items))
  {
    if split != [] {
      ExpectedIsValue(items, split[..|split| - 1]);
    }
  }

  // When a payment is accepted: an order that is not settled takes any whole payment of at most one cent more than is
  // left, and any split payment that names unpaid quantities, entry by entry, at their value give or take a cent.
  lemma PaymentsAcceptedIff(db: Db, o: nat, amount: int, split: seq<SplitItem>)
    requires o < |db.orders|
    ensures var order := db.orders[o];
      && (AfterPayment(db, o, amount).1 == Done <==>
           order.paymentStatus != Paid && order.paidAmount + amount <= order.total + 1)
      && (AfterSplitPayment(db, o, amount, split).1 == Done <==>
           && order.paymentStatus != Paid
           && (forall k :: 0 <= k < |split| ==> split[k].item < |order.items|)
           && (forall k :: 0 <= k < |split| ==>
                order.items[split[k].item].paidQuantity + split[k].quantity <= order.items[split[k].item].quantity)
           && -1 <= amount - Sum(split, EntryValue(order.items)) <= 1)
  {
    if CanSplit(db.orders[o].items, split) {
      ExpectedIsValue(db.orders[o].items, split);
    }
    hide Expected, AddPaid, Sum;
  }

  // After any valid run an order counts as settled exactly if its total is paid, unless its creation failed and nothing
  // has been accepted since. So a whole payment is accepted on what is left and at most a cent more.
  lemma PaymentAcceptedOnOutstanding(products: map<nat, Product>, ops: seq<Op>, o: nat, amount: int)
    requires AllValid(ops) && o < |Run(Start(products), ops).orders|
    ensures var db := Run(Start(products), ops);
      AfterPayment(db, o, amount).1 == Done <==>
        && (db.orders[o].paidAmount < db.orders[o].total || exists n: nat :: LeftBehindBy(products, ops, o, n))
        && db.orders[o].paidAmount + amount <= db.orders[o].total + 1
  {
    var db := Run(Start(products), ops);
    StatusDepartsIff(products, ops, o);
    BooksBalance(products, ops);
    PaymentsAcceptedIff(db, o, amount, []);
    assert StatusExact(db.orders[o]);
    hide Run, AfterPayment, LeftBehindBy, Books;
  }

  // ----- completion -----

  ghost predicate CompletedAwaitNothing(db: Db) {
    forall o :: 0 <= o < |db.orders| && db.orders[o].status == Completed ==> NothingAwaited(db.orders[o].items)
  }

  lemma ReceivingAwaitsNothing(db: Db, after: Db, o: nat, amount: int)
    requires CompletedAwaitNothing(db) && o < |db.orders| && Receives(db, after, o, amount)
    ensures CompletedAwaitNothing(after)
  {
  }

  lemma StepAwaitsNothing(db: Db, op: Op)
    requires CompletedAwaitNothing(db)
    ensures CompletedAwaitNothing(Apply(db, op))
  {
    match op
    case Create(dto) =>
      if dto.eventAccepts { assert AfterCreateOrder(db, dto).0.orders[|db.orders|].status == Open; }
    case Pay(o, amount) =>
      if AfterPayment(db, o, amount).1 == Done {
        WholePaymentReceives(db, o, amount);
        ReceivingAwaitsNothing(db, AfterPayment(db, o, amount).0, o, amount);
      }
    case Split(o, amount, split) =>
      if AfterSplitPayment(db, o, amount, split).1 == Done {
        SplitPaymentReceives(db, o, amount, split);
        ReceivingAwaitsNothing(db, AfterSplitPayment(db, o, amount, split).0, o, amount);
      }
    case Cancel(o, signed) =>
  }

  // Over every run no completed order holds an item that awaits production.
  lemma {:induction false} CompletedOrdersAwaitNothing(products: map<nat, Product>, ops: seq<Op>)
    ensures CompletedAwaitNothing(Run(Start(products), ops))
  {
    if ops != [] {
      CompletedOrdersAwaitNothing(products, ops[..|ops| - 1]);
      StepAwaitsNothing(Run(Start(products), ops[..|ops| - 1]), ops[|ops| - 1]);
    }
  }

  // ----- cancelling -----

  // A cancellation is accepted on orders that are neither completed nor cancelled. It cancels the order and every item,
  // and changes nothing else about any order.
  lemma CancelEffect(db: Db, o: nat, signed: nat -> bool)
    ensures var (after, result) := AfterCancel(db, o, signed);
      && (result == Done <==> o < |db.orders| && db.orders[o].status != Completed && db.orders[o].status != Cancelled)
      && |after.orders| == |db.orders|
      && (forall k :: 0 <= k < |db.orders| && (k != o || result != Done) ==> after.orders[k] == db.orders[k])
      && (result == Done ==>
           && after.orders[o] == db.orders[o].(status := Cancelled, items := after.orders[o].items)
           && |after.orders[o].items| == |db.orders[o].items|
           && forall i :: 0 <= i < |db.orders[o].items| ==>
                after.orders[o].items[i] == db.orders[o].items[i].(status := ItemCancelled))
  {
    if o < |db.orders| { MapsItems(db.orders[o].items, CancelItem); }
  }

  // The request closes the order: it cancels it, or pays for it in full while nothing awaits production.
  ghost predicate Closes(db: Db, op: Op, o: nat) {
    || (op.Cancel? && op.order == o && AfterCancel(db, o, op.signed).1 == Done)
    || (PaysFor(db, op, o) && o < |db.orders| && db.orders[o].paidAmount + op.amount >= db.orders[o].total &&
        NothingAwaited(db.orders[o].items))
  }

  lemma StepClosesIff(db: Db, op: Op, o: nat)
    requires o < |Apply(db, op).orders|
    ensures Closed(Apply(db, op).orders[o]) <==> (o < |db.orders| && Closed(db.orders[o])) || Closes(db, op, o)
  {
    match op
    case Create(dto) =>
      if AfterCreateOrder(db, dto).1 != Rejected { assert AfterCreateOrder(db, dto).0.orders[|db.orders|].status == Open; }
    case Pay(p, amount) =>
      if AfterPayment(db, p, amount).1 == Done { WholePaymentReceives(db, p, amount); }
      hide AfterPayment, NothingAwaited;
    case Split(p, amount, split) =>
      if AfterSplitPayment(db, p, amount, split).1 == Done { SplitPaymentReceives(db, p, amount, split); }
      hide AfterSplitPayment, NothingAwaited;
    case Cancel(p, signed) => CancelEffect(db, p, signed);
  }

  // Closed orders have been closed by some request.
  ghost predicate ClosedBy(products: map<nat, Product>, ops: seq<Op>, o: nat, n: nat) {
    n < |ops| && Closes(Run(Start(products), ops[..n]), ops[n], o)
  }

  lemma {:induction false} ClosedIff(products: map<nat, Product>, ops: seq<Op>, o: nat)
    requires o < |Run(Start(products), ops).orders|
    ensures Closed(Run(Start(products), ops).orders[o]) <==> exists n: nat :: ClosedBy(products, ops, o, n)
  {
    var init, op := ops[..|ops| - 1], ops[|ops| - 1];
    var db := Run(Start(products), init);
    assert init + [op] == ops;
    RunAppend(Start(products), init, op);
    StepClosesIff(db, op, o);
    hide Closed, Closes, Run, Start, Apply;
    forall n: nat
      ensures ClosedBy(products, ops, o, n) <==> ClosedBy(products, init, o, n) || (n == |init| && Closes(db, op, o))
    {
      if n < |init| { assert init[..n] == ops[..n]; }
    }
    assert ClosedBy(products, ops, o, |init|) <==> ClosedBy(products, init, o, |init|) || Closes(db, op, o);
    if o < |db.orders| {
      ClosedIff(products, init, o);
      if n: nat :| ClosedBy(products, init, o, n) {
        assert ClosedBy(products, ops, o, n);
      }
    } else {
      NotClosedBefore(products, init, o);
    }
  }

  lemma {:induction false} NotClosedBefore(products: map<nat, Product>, ops: seq<Op>, o: nat)
    requires o >= |Run(Start(products), ops).orders|
    ensures forall n: nat :: !ClosedBy(products, ops, o, n)
  {
    if ops != [] {
      var init, op := ops[..|ops| - 1], ops[|ops| - 1];
      assert init + [op] == ops;
      RunAppend(Start(products), init, op);
      OrdersStay(Run(Start(products), init), op);
      NotClosedBefore(products, init, o);
      if Closes(Run(Start(products), init), op, o) { ClosesExisting(Run(Start(products), init), op, o); }
      hide Closes, Run, Start, Apply;
      forall n: nat
        ensures !ClosedBy(products, ops, o, n)
      {
        if n < |init| { assert init[..n] == ops[..n] && !ClosedBy(products, init, o, n); }
      }
    }
  }

  lemma ClosesExisting(db: Db, op: Op, o: nat)
    requires Closes(db, op, o)
    ensures o < |db.orders|
  {
  }

  // Over every run a cancellation is accepted exactly if no request has closed the order before, so at most once.
  lemma CancelAcceptedIff(products: map<nat, Product>, ops: seq<Op>, o: nat, signed: nat -> bool)
    requires o < |Run(Start(products), ops).orders|
    ensures AfterCancel(Run(Start(products), ops), o, signed).1 == Done <==> forall n: nat :: !ClosedBy(products, ops, o, n)
  {
    ClosedIff(products, ops, o);
    CancelEffect(Run(Start(products), ops), o, signed);
    hide AfterCancel, Run, ClosedBy;
  }
}
