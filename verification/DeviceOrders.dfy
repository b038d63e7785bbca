// Orders, payments and stock as the device API changes them. Amounts are integer cents. Orders, payments and the items
// of an order are identified by their positions.
module DeviceOrders {
  import opened Options
  import opened Groups

  datatype OrderStatus = Open | InProgress | Ready | Completed | Cancelled
  datatype PaymentStatus = Unpaid | PartlyPaid | Paid

  // Only the two item states the handlers here distinguish: a production step may still be due, or the item is cancelled.
  datatype ItemStatus = Pending | Delivered | ItemCancelled

  datatype Product = Product(event: nat, isActive: bool, isAvailable: bool, trackInventory: bool, stock: int,
                             price: int, pfand: nat, hasStation: bool)

  datatype Item = Item(productId: nat, quantity: int, unitPrice: int, optionsPrice: int, totalPrice: int,
                       depositAmount: int, isRefill: bool, status: ItemStatus, hasStation: bool, paidQuantity: int)

  datatype Order = Order(event: nat, status: OrderStatus, paymentStatus: PaymentStatus, subtotal: int, pfandTotal: int,
                         discount: int, tip: int, total: int, paidAmount: int, items: seq<Item>)

  // A captured payment; a reversal points at the payment it reverses.
  datatype Payment = Payment(order: nat, amount: int, reverses: Option<nat>)

  datatype ItemDto = ItemDto(productId: nat, quantity: int, options: seq<int>, isRefill: bool) {
    predicate Valid() { quantity >= 1 }
  }

  // A validated request: the event accepts orders or not, and deposits are charged for this fulfilment or not.
  datatype OrderDto = OrderDto(event: nat, eventAccepts: bool, discount: nat, tip: nat, chargePfand: bool, items: seq<ItemDto>) {
    predicate Valid() { forall i :: 0 <= i < |items| ==> items[i].Valid() }
  }

  datatype SplitItem = SplitItem(item: nat, quantity: int)

  datatype Db = Db(products: map<nat, Product>, orders: seq<Order>, payments: seq<Payment>) {
    function WithOrder(o: nat, order: Order): Db
      requires o < |orders|
    {
      this.(orders := orders[o := order])
    }
  }

  datatype Result = Rejected | Failed | Done

  // ----- what each handler does -----

  function NewItem(p: Product, dto: ItemDto, chargePfand: bool): Item {
    var optionsPrice := Sum(dto.options, Itself());
    Item(dto.productId, dto.quantity, p.price, optionsPrice, (p.price + optionsPrice) * dto.quantity,
         if chargePfand && !dto.isRefill then p.pfand else 0, dto.isRefill, Pending, p.hasStation, 0)
  }

  // The checks of addItemToOrder, in its order; false where it throws.
  predicate CanAdd(db: Db, event: nat, dto: ItemDto) {
    && dto.productId in db.products
    && var p := db.products[dto.productId];
       && p.event == event
       && p.isActive && p.isAvailable
       && !(p.trackInventory && p.stock < dto.quantity)
  }

  function TakeStock(db: Db, dto: ItemDto): map<nat, Product>
    requires dto.productId in db.products
  {
    var p := db.products[dto.productId];
    if p.trackInventory then db.products[dto.productId := p.(stock := p.stock - dto.quantity)] else db.products
  }

  function AddItem(db: Db, o: nat, dto: ItemDto, chargePfand: bool): Db
    requires o < |db.orders| && CanAdd(db, db.orders[o].event, dto)
  {
    var order := db.orders[o];
    var item := NewItem(db.products[dto.productId], dto, chargePfand);
    db.WithOrder(o, order.(items := order.items + [item])).(products := TakeStock(db, dto))
  }

  // Items are added until one throws; what was added before it stays.
  function AddItems(db: Db, o: nat, dtos: seq<ItemDto>, chargePfand: bool): (r: (Db, bool))
    requires o < |db.orders|
    ensures |r.0.orders| == |db.orders| && r.0.payments == db.payments
    ensures forall i :: 0 <= i < |db.orders| ==> r.0.orders[i] == db.orders[i].(items := r.0.orders[i].items)
    ensures forall i :: 0 <= i < |db.orders| && i != o ==> r.0.orders[i] == db.orders[i]
  {
    if dtos == [] then (db, true)
    else
      var (d, ok) := AddItems(db, o, dtos[..|dtos| - 1], chargePfand);
      var dto := dtos[|dtos| - 1];
      if ok && CanAdd(d, d.orders[o].event, dto) then (AddItem(d, o, dto, chargePfand), true) else (d, false)
  }

  predicate Live(i: Item) {
    i.status != ItemCancelled
  }

  function PriceOf(i: Item): int { if Live(i) then i.totalPrice else 0 }

  function DepositOf(i: Item): int { if Live(i) then i.depositAmount * i.quantity else 0 }

  function Min(a: int, b: int): int { if a < b then a else b }

  function Recalculate(o: Order): Order {
    var subtotal, pfand := Sum(o.items, PriceOf), Sum(o.items, DepositOf);
    var discount := Min(o.discount, subtotal);
    o.(subtotal := subtotal, pfandTotal := pfand, discount := discount, total := subtotal - discount + o.tip + pfand)
  }

  // An order with nothing to pay is paid at once.
  function SettleIfFree(o: Order): Order {
    if o.total <= 0 then o.(paymentStatus := Paid, paidAmount := 0) else o
  }

  function EmptyOrder(dto: OrderDto): Order {
    Order(dto.event, Open, Unpaid, 0, 0, dto.discount, dto.tip, 0, 0, [])
  }

  function AfterCreateOrder(db: Db, dto: OrderDto): (Db, Result) {
    if !dto.eventAccepts then (db, Rejected)
    else
      var o := |db.orders|;
      var (d, ok) := AddItems(db.(orders := db.orders + [EmptyOrder(dto)]), o, dto.items, dto.chargePfand);
      if !ok then (d, Failed)
      else
        var order := if dto.items != [] then Recalculate(d.orders[o]) else d.orders[o];
        (d.WithOrder(o, SettleIfFree(order)), Done)
  }

  function StatusOf(paid: int, total: int): PaymentStatus {
    if paid >= total then Paid else if paid > 0 then PartlyPaid else Unpaid
  }

  predicate WorkflowDone(items: seq<Item>) {
    forall i :: 0 <= i < |items| && Live(items[i]) ==> !items[i].hasStation || items[i].status == Delivered
  }

  function CompleteIfDone(o: Order): Order {
    if o.paidAmount >= o.total && WorkflowDone(o.items) then o.(status := Completed) else o
  }

  function Receive(o: Order, amount: int): Order {
    var paid := o.paidAmount + amount;
    o.(paidAmount := paid, paymentStatus := StatusOf(paid, o.total))
  }

  function PayInFull(i: Item): Item { i.(paidQuantity := i.quantity) }

  function AfterPayment(db: Db, o: nat, amount: int): (Db, Result) {
    if o >= |db.orders| || db.orders[o].paymentStatus == Paid || amount > db.orders[o].total - db.orders[o].paidAmount + 1 then
      (db, Rejected)
    else
      var order := Receive(db.orders[o], amount);
      var settled := if order.paidAmount >= order.total then order.(items := Map(order.items, PayInFull)) else order;
      (db.WithOrder(o, CompleteIfDone(settled)).(payments := db.payments + [Payment(o, amount, None)]), Done)
  }

  // Price of one unit, options included and deposit excluded.
  function UnitPrice(i: Item): int { i.unitPrice + i.optionsPrice }

  predicate CanSplit(items: seq<Item>, split: seq<SplitItem>) {
    forall k :: 0 <= k < |split| ==>
      split[k].item < |items| && split[k].quantity <= items[split[k].item].quantity - items[split[k].item].paidQuantity
  }

  function Expected(items: seq<Item>, split: seq<SplitItem>): int
    requires CanSplit(items, split)
  {
    if split == [] then 0
    else
      var s := split[|split| - 1];
      Expected(items, split[..|split| - 1]) + UnitPrice(items[s.item]) * s.quantity
  }

  function AddPaid(items: seq<Item>, split: seq<SplitItem>): (r: seq<Item>)
    requires forall k :: 0 <= k < |split| ==> split[k].item < |items|
    ensures |r| == |items| && forall i :: 0 <= i < |items| ==> r[i] == items[i].(paidQuantity := r[i].paidQuantity)
  {
    if split == [] then items
    else
      var before, s := AddPaid(items, split[..|split| - 1]), split[|split| - 1];
      before[s.item := before[s.item].(paidQuantity := before[s.item].paidQuantity + s.quantity)]
  }

  function AfterSplitPayment(db: Db, o: nat, amount: int, split: seq<SplitItem>): (Db, Result) {
    if o >= |db.orders| || db.orders[o].paymentStatus == Paid || !CanSplit(db.orders[o].items, split) then (db, Rejected)
    else
      var order, expected := db.orders[o], Expected(db.orders[o].items, split);
      if amount - expected > 1 || expected - amount > 1 then (db, Rejected)
      else
        var paid := Receive(order.(items := AddPaid(order.items, split)), amount);
        (db.WithOrder(o, CompleteIfDone(paid)).(payments := db.payments + [Payment(o, amount, None)]), Done)
  }

  // Cancelling the items one by one, putting each back into stock first if its product tracks inventory.
  function Restock(products: map<nat, Product>, items: seq<Item>): (r: map<nat, Product>) {
    if items == [] then products
    else
      var before, i := Restock(products, items[..|items| - 1]), items[|items| - 1];
      if Live(i) && i.productId in before && before[i.productId].trackInventory then
        before[i.productId := before[i.productId].(stock := before[i.productId].stock + i.quantity)]
      else before
  }

  function CancelItem(i: Item): Item { i.(status := ItemCancelled) }

  // Positions of the captured payments of an order.
  function PaymentsOf(payments: seq<Payment>, o: nat): (r: seq<nat>)
    ensures forall i :: 0 <= i < |r| ==> r[i] < |payments|
  {
    if payments == [] then []
    else
      var n := |payments| - 1;
      PaymentsOf(payments[..n], o) + if payments[n].order == o then [n] else []
  }

  // A reversal of each given payment.
  function ReversalsOf(payments: seq<Payment>, ps: seq<nat>): seq<Payment>
    requires forall i :: 0 <= i < |ps| ==> ps[i] < |payments|
  {
    seq(|ps|, i requires 0 <= i < |ps| => Payment(payments[ps[i]].order, -payments[ps[i]].amount, Some(ps[i])))
  }

  // A reversal for each payment whose signing raised no error.
  function Reversals(payments: seq<Payment>, ps: seq<nat>, signed: nat -> bool): seq<Payment>
    requires forall i :: 0 <= i < |ps| ==> ps[i] < |payments|
  {
    ReversalsOf(payments, FilteredBelow(ps, signed, |payments|))
  }

  function FilteredBelow(ps: seq<nat>, signed: nat -> bool, n: nat): (r: seq<nat>)
    requires forall i :: 0 <= i < |ps| ==> ps[i] < n
    ensures r == Filter(ps, signed) && forall i :: 0 <= i < |r| ==> r[i] < n
  {
    FilterKeeps(ps, signed);
    assert forall i :: 0 <= i < |Filter(ps, signed)| ==> Filter(ps, signed)[i] in ps;
    Filter(ps, signed)
  }

  function AfterCancel(db: Db, o: nat, signed: nat -> bool): (Db, Result) {
    if o >= |db.orders| || db.orders[o].status == Completed || db.orders[o].status == Cancelled then (db, Rejected)
    else
      var order := db.orders[o];
      (Db(Restock(db.products, order.items),
          db.orders[o := order.(status := Cancelled, items := Map(order.items, CancelItem))],
          db.payments + Reversals(db.payments, PaymentsOf(db.payments, o), signed)), Done)
  }

  lemma {:induction false} AddItemsStops(db: Db, o: nat, dtos: seq<ItemDto>, chargePfand: bool, n: nat)
    requires o < |db.orders| && n <= |dtos| && !AddItems(db, o, dtos[..n], chargePfand).1
    ensures AddItems(db, o, dtos, chargePfand) == AddItems(db, o, dtos[..n], chargePfand)
    decreases |dtos|
  {
    if n < |dtos| {
      var init := dtos[..|dtos| - 1];
      assert init[..n] == dtos[..n];
      AddItemsStops(db, o, init, chargePfand, n);
    } else {
      assert dtos[..n] == dtos;
    }
  }
}
