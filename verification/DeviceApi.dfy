// The device API controller: the handlers with their loops, each proved to change the state as specified.
module DeviceApi {
  import opened Options
  import opened Groups
  import opened DeviceOrders

  lemma NextReversal(payments: seq<Payment>, captured: seq<nat>, i: nat, signed: nat -> bool)
    requires i < |captured| && forall j :: 0 <= j < |captured| ==> captured[j] < |payments|
    ensures Reversals(payments, captured[..i + 1], signed) == Reversals(payments, captured[..i], signed) +
      if signed(captured[i]) then [Payment(payments[captured[i]].order, -payments[captured[i]].amount, Some(captured[i]))] else []
  {
    assert captured[..i + 1] == captured[..i] + [captured[i]];
    FilterAppend(captured[..i], captured[i], signed);
  }

  lemma NoReversals(payments: seq<Payment>, signed: nat -> bool)
    ensures Reversals(payments, [], signed) == []
  {
  }

  class DeviceApiController {
    var products: map<nat, Product>
    var orders: seq<Order>
    var payments: seq<Payment>

    function State(): Db
      reads this
    {
      Db(products, orders, payments)
    }

    constructor (products: map<nat, Product>)
      ensures State() == Db(products, [], [])
    {
      this.products := products;
      orders := [];
      payments := [];
    }

    // False where the handler throws; then nothing has changed.
    method AddItemToOrder(o: nat, dto: ItemDto, chargePfand: bool) returns (ok: bool)
      requires o < |orders|
      modifies this
      ensures ok == CanAdd(old(State()), old(orders)[o].event, dto)
      ensures State() == if ok then AddItem(old(State()), o, dto, chargePfand) else old(State())
    {
      if dto.productId !in products || products[dto.productId].event != orders[o].event {
        return false;
      }
      var product := products[dto.productId];
      if !product.isActive || !product.isAvailable {
        return false;
      }
      if product.trackInventory && product.stock < dto.quantity {
        return false;
      }
      var optionsPrice := 0;
      for i := 0 to |dto.options|
        invariant optionsPrice == Sum(dto.options[..i], Itself())
      {
        assert dto.options[..i + 1][..i] == dto.options[..i];
        optionsPrice := optionsPrice + dto.options[i];
      }
      assert dto.options[..|dto.options|] == dto.options;
      var totalPrice := (product.price + optionsPrice) * dto.quantity;
      var depositAmount := if chargePfand && !dto.isRefill then product.pfand else 0;
      var item := Item(dto.productId, dto.quantity, product.price, optionsPrice, totalPrice, depositAmount, dto.isRefill,
                       Pending, product.hasStation, 0);
      orders := orders[o := orders[o].(items := orders[o].items + [item])];
      if product.trackInventory {
        products := products[dto.productId := product.(stock := product.stock - dto.quantity)];
      }
      ok := true;
    }

    method RecalculateOrderTotals(o: nat)
      requires o < |orders|
      modifies this
      ensures State() == old(State()).WithOrder(o, Recalculate(old(orders)[o]))
    {
      var order := orders[o];
      var subtotal, pfandTotal := 0, 0;
      for i := 0 to |order.items|
        invariant subtotal == Sum(order.items[..i], PriceOf)
        invariant pfandTotal == Sum(order.items[..i], DepositOf)
      {
        var item := order.items[i];
        assert order.items[..i + 1][..i] == order.items[..i];
        if item.status != ItemCancelled {
          subtotal := subtotal + item.totalPrice;
          pfandTotal := pfandTotal + item.depositAmount * item.quantity;
        }
      }
      assert order.items[..|order.items|] == order.items;
      var effectiveDiscount := if order.discount < subtotal then order.discount else subtotal;
      orders := orders[o := order.(subtotal := subtotal, pfandTotal := pfandTotal, discount := effectiveDiscount,
                                   total := subtotal - effectiveDiscount + order.tip + pfandTotal)];
    }

    method AddItemsToOrder(o: nat, items: seq<ItemDto>, chargePfand: bool) returns (ok: bool)
      requires o < |orders|
      modifies this
      ensures (State(), ok) == AddItems(old(State()), o, items, chargePfand)
    {
      for i := 0 to |items|
        invariant (State(), true) == AddItems(old(State()), o, items[..i], chargePfand)
      {
        assert items[..i + 1][..i] == items[..i];
        var added := AddItemToOrder(o, items[i], chargePfand);
        if !added {
          AddItemsStops(old(State()), o, items, chargePfand, i + 1);
          return false;
        }
      }
      assert items[..|items|] == items;
      ok := true;
    }

    method CreateOrder(dto: OrderDto) returns (result: Result)
      modifies this
      ensures (State(), result) == AfterCreateOrder(old(State()), dto)
    {
      if !dto.eventAccepts {
        return Rejected;
      }
      var o := |orders|;
      orders := orders + [EmptyOrder(dto)];
      var ok := AddItemsToOrder(o, dto.items, dto.chargePfand);
      if !ok {
        return Failed;
      }
      if |dto.items| > 0 {
        RecalculateOrderTotals(o);
      }
      if orders[o].total <= 0 {
        orders := orders[o := orders[o].(paymentStatus := Paid, paidAmount := 0)];
      }
      assert orders == AfterCreateOrder(old(State()), dto).0.orders;
      result := Done;
    }

    method UpdateOrderPaymentStatus(o: nat)
      requires o < |orders|
      modifies this
      ensures State() == old(State()).WithOrder(o, old(orders)[o].(paymentStatus := StatusOf(old(orders)[o].paidAmount, old(orders)[o].total)))
    {
      var status := Unpaid;
      if orders[o].paidAmount >= orders[o].total {
        status := Paid;
      } else if orders[o].paidAmount > 0 {
        status := PartlyPaid;
      }
      orders := orders[o := orders[o].(paymentStatus := status)];
    }

    method CompleteWhenWorkflowDone(o: nat)
      requires o < |orders|
      modifies this
      ensures State() == old(State()).WithOrder(o,
        if WorkflowDone(old(orders)[o].items) then old(orders)[o].(status := Completed) else old(orders)[o])
    {
      var items := orders[o].items;
      if forall i :: 0 <= i < |items| && items[i].status != ItemCancelled ==> !items[i].hasStation || items[i].status == Delivered {
        orders := orders[o := orders[o].(status := Completed)];
      }
    }

    method MarkItemsPaid(o: nat)
      requires o < |orders|
      modifies this
      ensures State() == old(State()).WithOrder(o, old(orders)[o].(items := Map(old(orders)[o].items, PayInFull)))
    {
      var items := orders[o].items;
      for i := 0 to |items|
        invariant products == old(products) && payments == old(payments)
        invariant |orders| == |old(orders)| && orders == old(orders)[o := old(orders)[o].(items := orders[o].items)]
        invariant |orders[o].items| == |items|
        invariant forall j :: 0 <= j < |items| ==> orders[o].items[j] == if j < i then PayInFull(items[j]) else items[j]
      {
        var current := orders[o].items;
        orders := orders[o := orders[o].(items := current[i := current[i].(paidQuantity := current[i].quantity)])];
      }
      assert orders[o].items == Map(items, PayInFull);
    }

    method CreatePayment(o: nat, amount: int) returns (result: Result)
      modifies this
      ensures (State(), result) == AfterPayment(old(State()), o, amount)
    {
      if o >= |orders| || orders[o].paymentStatus == Paid {
        return Rejected;
      }
      var remainingAmount := orders[o].total - orders[o].paidAmount;
      if amount > remainingAmount + 1 {
        return Rejected;
      }
      payments := payments + [Payment(o, amount, None)];
      orders := orders[o := orders[o].(paidAmount := orders[o].paidAmount + amount)];
      UpdateOrderPaymentStatus(o);
      if orders[o].paidAmount >= orders[o].total {
        MarkItemsPaid(o);
        CompleteWhenWorkflowDone(o);
      }
      assert orders == AfterPayment(old(State()), o, amount).0.orders;
      result := Done;
    }

    // The first loop of a split payment: the checks and the expected amount. None where the handler throws.
    method ExpectedAmount(items: seq<Item>, split: seq<SplitItem>) returns (r: Option<int>)
      ensures r == if CanSplit(items, split) then Some(Expected(items, split)) else None
    {
      var expectedAmount := 0;
      for k := 0 to |split|
        invariant CanSplit(items, split[..k])
        invariant expectedAmount == Expected(items, split[..k])
      {
        if split[k].item >= |items| {
          return None;
        }
        var item := items[split[k].item];
        if split[k].quantity > item.quantity - item.paidQuantity {
          return None;
        }
        assert split[..k + 1][..k] == split[..k];
        assert forall j :: 0 <= j < k ==> split[..k + 1][j] == split[..k][j];
        expectedAmount := expectedAmount + (item.unitPrice + item.optionsPrice) * split[k].quantity;
      }
      assert split[..|split|] == split;
      r := Some(expectedAmount);
    }

    // The second loop: the paid quantities.
    method AddPaidQuantities(o: nat, split: seq<SplitItem>)
      requires o < |orders| && forall k :: 0 <= k < |split| ==> split[k].item < |orders[o].items|
      modifies this
      ensures State() == old(State()).WithOrder(o, old(orders)[o].(items := AddPaid(old(orders)[o].items, split)))
    {
      ghost var items := orders[o].items;
      for k := 0 to |split|
        invariant products == old(products) && payments == old(payments)
        invariant |orders| == |old(orders)| && orders == old(orders)[o := old(orders)[o].(items := orders[o].items)]
        invariant orders[o].items == AddPaid(items, split[..k])
      {
        assert split[..k + 1][..k] == split[..k];
        var current := orders[o].items;
        var at := split[k].item;
        orders := orders[o := orders[o].(items := current[at := current[at].(paidQuantity := current[at].paidQuantity + split[k].quantity)])];
      }
      assert split[..|split|] == split;
    }

    method CreateSplitPayment(o: nat, amount: int, split: seq<SplitItem>) returns (result: Result)
      modifies this
      ensures (State(), result) == AfterSplitPayment(old(State()), o, amount, split)
    {
      if o >= |orders| || orders[o].paymentStatus == Paid {
        return Rejected;
      }
      var expected := ExpectedAmount(orders[o].items, split);
      if expected.None? || amount - expected.value > 1 || expected.value - amount > 1 {
        return Rejected;
      }
      payments := payments + [Payment(o, amount, None)];
      orders := orders[o := orders[o].(paidAmount := orders[o].paidAmount + amount)];
      AddPaidQuantities(o, split);
      UpdateOrderPaymentStatus(o);
      if orders[o].paidAmount >= orders[o].total {
        CompleteWhenWorkflowDone(o);
      }
      assert orders == AfterSplitPayment(old(State()), o, amount, split).0.orders;
      result := Done;
    }

    // The first loop of a cancellation: each live item is put back into stock and cancelled.
    method RestockItems(o: nat)
      requires o < |orders|
      modifies this
      ensures products == Restock(old(products), old(orders)[o].items) && payments == old(payments)
      ensures orders == old(orders)[o := old(orders)[o].(items := Map(old(orders)[o].items, CancelItem))]
    {
      var items := orders[o].items;
      for i := 0 to |items|
        invariant payments == old(payments) && products == Restock(old(products), items[..i])
        invariant |orders| == |old(orders)| && orders == old(orders)[o := old(orders)[o].(items := orders[o].items)]
        invariant |orders[o].items| == |items|
        invariant forall j :: 0 <= j < |items| ==> orders[o].items[j] == if j < i then CancelItem(items[j]) else items[j]
      {
        var item := items[i];
        assert items[..i + 1][..i] == items[..i];
        if item.status == ItemCancelled {
          continue;
        }
        if item.productId in products && products[item.productId].trackInventory {
          var product := products[item.productId];
          products := products[item.productId := product.(stock := product.stock + item.quantity)];
        }
        var current := orders[o].items;
        orders := orders[o := orders[o].(items := current[i := current[i].(status := ItemCancelled)])];
      }
      assert items[..|items|] == items;
      assert orders[o].items == Map(items, CancelItem);
    }

    // The second loop: a reversal for each captured payment that was found, unless its signing raises an error.
    method ReversePayments(o: nat, signed: nat -> bool)
      modifies this
      ensures products == old(products) && orders == old(orders)
      ensures payments == old(payments) + Reversals(old(payments), PaymentsOf(old(payments), o), signed)
    {
      hide Reversals;
      var originals := payments;
      NoReversals(originals, signed);
      var captured := PaymentsOf(originals, o);
      for i := 0 to |captured|
        invariant products == old(products) && orders == old(orders)
        invariant payments == originals + Reversals(originals, captured[..i], signed)
      {
        NextReversal(originals, captured, i, signed);
        var original := captured[i];
        if signed(original) {
          payments := payments + [Payment(originals[original].order, -originals[original].amount, Some(original))];
        }
      }
      assert captured[..|captured|] == captured;
    }

    method CancelOrder(o: nat, signed: nat -> bool) returns (result: Result)
      modifies this
      ensures (State(), result) == AfterCancel(old(State()), o, signed)
    {
      if o >= |orders| || orders[o].status == Completed || orders[o].status == Cancelled {
        return Rejected;
      }
      RestockItems(o);
      orders := orders[o := orders[o].(status := Cancelled)];
      ReversePayments(o, signed);
      assert orders == AfterCancel(old(State()), o, signed).0.orders;
      result := Done;
    }
  }
}
