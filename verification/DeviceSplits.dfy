// Runs in which orders are paid by split payments only: how far the paid amount drifts from the value of the items
// that are marked as paid.
module DeviceSplits {
  import opened Options
  import opened Groups
  import opened DeviceOrders
  import opened DeviceRuns
  import opened DevicePayments

  ghost predicate DistinctItems(split: seq<SplitItem>) {
    forall i, j :: 0 <= i < j < |split| ==> split[i].item != split[j].item
  }

  // No whole payment names this order.
  ghost predicate OnlySplitsOn(ops: seq<Op>, o: nat) {
    forall i :: 0 <= i < |ops| ==> !(ops[i].Pay? && ops[i].order == o)
  }

  // The quantity that a request names for an item, in one entry or in several.
  function Named(i: nat): SplitItem -> int {
    (s: SplitItem) => if s.item == i then s.quantity else 0
  }

  // For each item the request names at most its unpaid quantity in all.
  ghost predicate NamesUnpaidOnly(items: seq<Item>, split: seq<SplitItem>) {
    forall i :: 0 <= i < |items| ==> Sum(split, Named(i)) <= items[i].quantity - items[i].paidQuantity
  }

  // The value of what is marked as paid: price of a unit with options, times paid quantity.
  function PaidValue(i: Item): int { UnitPrice(i) * i.paidQuantity }

  // How many payments were received on an order.
  function CountOf(o: nat): Payment -> int {
    (p: Payment) => if p.order == o && p.reverses.None? then 1 else 0
  }

  // What the last entry of a split request adds to the paid quantities and to the expected amount.
  lemma LastSplitItem(items: seq<Item>, split: seq<SplitItem>)
    requires CanSplit(items, split) && split != []
    ensures var init, s := split[..|split| - 1], split[|split| - 1];
      && CanSplit(items, init)
      && s.item < |items|
      && var i := AddPaid(items, init)[s.item];
      && UnitPrice(i) == UnitPrice(items[s.item])
      && AddPaid(items, split) == AddPaid(items, init)[s.item := i.(paidQuantity := i.paidQuantity + s.quantity)]
      && Expected(items, split) == Expected(items, init) + UnitPrice(i) * s.quantity
  {
    assert forall k :: 0 <= k < |split| - 1 ==> split[..|split| - 1][k] == split[k];
  }

  lemma {:induction false} SplitValue(items: seq<Item>, split: seq<SplitItem>)
    requires CanSplit(items, split)
    ensures Sum(AddPaid(items, split), PaidValue) == Sum(items, PaidValue) + Expected(items, split)
  {
    if split != [] {
      hide AddPaid, Expected, CanSplit, Sum, UnitPrice;
      var init, s := split[..|split| - 1], split[|split| - 1];
      LastSplitItem(items, split);
      SplitValue(items, init);
      var before := AddPaid(items, init);
      var i := before[s.item];
      SumUpdate(before, s.item, i.(paidQuantity := i.paidQuantity + s.quantity), PaidValue);
      PaidValueGrows(i, s.quantity);
    }
  }

  lemma PaidValueGrows(i: Item, q: int)
    ensures PaidValue(i.(paidQuantity := i.paidQuantity + q)) == PaidValue(i) + UnitPrice(i) * q
  {
  }

  // Each item is marked as paid for the quantity named for it.
  lemma {:induction false} SplitAdds(items: seq<Item>, split: seq<SplitItem>, i: nat)
    requires CanSplit(items, split) && i < |items|
    ensures AddPaid(items, split)[i].paidQuantity == items[i].paidQuantity + Sum(split, Named(i))
  {
    if split != [] {
      hide AddPaid, Expected, CanSplit;
      LastSplitItem(items, split);
      SplitAdds(items, split[..|split| - 1], i);
    }
  }

  // After an accepted request no item is paid beyond its quantity exactly if it named unpaid quantities only.
  lemma SplitWithinQuantityIff(items: seq<Item>, split: seq<SplitItem>)
    requires CanSplit(items, split)
    ensures WithinQuantity(AddPaid(items, split)) <==> NamesUnpaidOnly(items, split)
  {
    hide AddPaid, Sum;
    forall i | 0 <= i < |items|
      ensures AddPaid(items, split)[i].paidQuantity == items[i].paidQuantity + Sum(split, Named(i))
    {
      SplitAdds(items, split, i);
    }
  }

  lemma {:induction false} NothingNamed(split: seq<SplitItem>, i: nat)
    requires forall k :: 0 <= k < |split| ==> split[k].item != i
    ensures Sum(split, Named(i)) == 0
  {
    if split != [] {
      NothingNamed(split[..|split| - 1], i);
    }
  }

  lemma {:induction false} NamedOnce(split: seq<SplitItem>, k: nat)
    requires DistinctItems(split) && k < |split|
    ensures Sum(split, Named(split[k].item)) == split[k].quantity
  {
    var init := split[..|split| - 1];
    if k < |init| {
      NamedOnce(init, k);
    } else {
      NothingNamed(init, split[k].item);
    }
  }

  // In particular a request that names each item once.
  lemma DistinctItemsNameUnpaidOnly(items: seq<Item>, split: seq<SplitItem>)
    requires WithinQuantity(items) && CanSplit(items, split) && DistinctItems(split)
    ensures NamesUnpaidOnly(items, split)
  {
    hide Sum;
    forall i | 0 <= i < |items|
      ensures Sum(split, Named(i)) <= items[i].quantity - items[i].paidQuantity
    {
      if k :| 0 <= k < |split| && split[k].item == i {
        NamedOnce(split, k);
      } else {
        NothingNamed(split, i);
      }
    }
  }

  ghost predicate WithinQuantity(items: seq<Item>) {
    forall i :: 0 <= i < |items| ==> items[i].paidQuantity <= items[i].quantity
  }

  ghost predicate WithinCents(order: Order, k: int) {
    -k <= order.paidAmount - Sum(order.items, PaidValue) <= k
  }

  // After k payments on the order its paid amount is within k cents of the value of what is marked as paid.
  ghost predicate Drift(db: Db, o: nat) {
    o < |db.orders| ==> WithinCents(db.orders[o], Sum(db.payments, CountOf(o)))
  }

  ghost predicate NothingOverpaid(db: Db) {
    forall o :: 0 <= o < |db.orders| ==> WithinQuantity(db.orders[o].items)
  }

  // ----- steps -----

  ghost predicate NothingPaid(items: seq<Item>) {
    forall i :: 0 <= i < |items| ==> items[i].paidQuantity == 0 && items[i].quantity >= 1
  }

  lemma {:induction false} AddItemsUnpaid(db: Db, o: nat, dtos: seq<ItemDto>, chargePfand: bool)
    requires o < |db.orders| && NothingPaid(db.orders[o].items) && forall i :: 0 <= i < |dtos| ==> dtos[i].Valid()
    ensures NothingPaid(AddItems(db, o, dtos, chargePfand).0.orders[o].items)
  {
    if dtos != [] {
      AddItemsUnpaid(db, o, dtos[..|dtos| - 1], chargePfand);
    }
  }

  lemma {:induction false} UnpaidIsWorthNothing(items: seq<Item>)
    requires NothingPaid(items)
    ensures Sum(items, PaidValue) == 0
  {
    if items != [] {
      UnpaidIsWorthNothing(items[..|items| - 1]);
    }
  }

  lemma {:induction false} NothingCounted(payments: seq<Payment>, o: nat)
    requires forall p :: 0 <= p < |payments| ==> payments[p].order < o || payments[p].reverses.Some?
    ensures Sum(payments, CountOf(o)) == 0
  {
    if payments != [] {
      NothingCounted(payments[..|payments| - 1], o);
    }
  }

  lemma CreatedOrderWithinCents(db: Db, dto: OrderDto)
    requires dto.Valid() && AfterCreateOrder(db, dto).1 != Rejected
    ensures var order := AfterCreateOrder(db, dto).0.orders[|db.orders|]; WithinQuantity(order.items) && WithinCents(order, 0)
  {
    var o, start := |db.orders|, db.(orders := db.orders + [EmptyOrder(dto)]);
    if AfterCreateOrder(db, dto).1 == Done { CreatedOrderTotals(db, dto); } else { FailedOrderTotals(db, dto); }
    AddItemsUnpaid(start, o, dto.items, dto.chargePfand);
    UnpaidIsWorthNothing(AddItems(start, o, dto.items, dto.chargePfand).0.orders[o].items);
  }

  lemma CreateLeavesOthers(db: Db, dto: OrderDto)
    requires AfterCreateOrder(db, dto).1 != Rejected
    ensures var after := AfterCreateOrder(db, dto).0;
      |after.orders| == |db.orders| + 1 && after.orders[..|db.orders|] == db.orders && after.payments == db.payments
  {
  }

  lemma CreateKeepsDrift(db: Db, dto: OrderDto, o: nat)
    requires Books(db) && Drift(db, o) && dto.Valid()
    ensures Drift(AfterCreateOrder(db, dto).0, o)
  {
    var after := AfterCreateOrder(db, dto).0;
    if AfterCreateOrder(db, dto).1 != Rejected {
      CreatedOrderWithinCents(db, dto);
      CreateLeavesOthers(db, dto);
      NothingCounted(db.payments, |db.orders|);
      hide AfterCreateOrder, WithinQuantity, WithinCents;
      assert o < |db.orders| ==> after.orders[o] == after.orders[..|db.orders|][o] == db.orders[o];
    }
  }

  lemma PaymentElsewhereKeepsDrift(db: Db, p: nat, amount: int, o: nat)
    requires Drift(db, o) && p != o
    ensures Drift(AfterPayment(db, p, amount).0, o)
  {
    SumAppend(db.payments, Payment(p, amount, None), CountOf(o));
  }

  lemma SplitAddsACent(order: Order, amount: int, split: seq<SplitItem>, k: int)
    requires CanSplit(order.items, split) && -1 <= amount - Expected(order.items, split) <= 1 && WithinCents(order, k)
    ensures WithinCents(order.(items := AddPaid(order.items, split), paidAmount := order.paidAmount + amount), k + 1)
  {
    hide AddPaid, Expected, CanSplit, Sum;
    SplitValue(order.items, split);
  }

  lemma SplitEffect(db: Db, p: nat, amount: int, split: seq<SplitItem>)
    requires AfterSplitPayment(db, p, amount, split).1 == Done
    ensures p < |db.orders| && CanSplit(db.orders[p].items, split)
    ensures -1 <= amount - Expected(db.orders[p].items, split) <= 1
    ensures var after, order := AfterSplitPayment(db, p, amount, split).0, db.orders[p];
      && after.payments == db.payments + [Payment(p, amount, None)] && |after.orders| == |db.orders|
      && after.orders[p].items == AddPaid(order.items, split) && after.orders[p].paidAmount == order.paidAmount + amount
      && forall o :: 0 <= o < |db.orders| && o != p ==> after.orders[o] == db.orders[o]
  {
    hide AddPaid, Expected, WorkflowDone;
  }

  lemma SplitKeepsDrift(db: Db, p: nat, amount: int, split: seq<SplitItem>, o: nat)
    requires Drift(db, o)
    ensures Drift(AfterSplitPayment(db, p, amount, split).0, o)
  {
    if AfterSplitPayment(db, p, amount, split).1 == Done {
      SplitEffect(db, p, amount, split);
      hide AfterSplitPayment, AddPaid, Expected, Sum;
      SumAppend(db.payments, Payment(p, amount, None), CountOf(o));
      if p == o {
        SplitAddsACent(db.orders[o], amount, split, Sum(db.payments, CountOf(o)));
      }
    }
  }

  lemma ReversalsAreNotCounted(payments: seq<Payment>, ps: seq<nat>, o: nat)
    requires forall i :: 0 <= i < |ps| ==> ps[i] < |payments|
    ensures Sum(payments + ReversalsOf(payments, ps), CountOf(o)) == Sum(payments, CountOf(o))
  {
    var rs := ReversalsOf(payments, ps);
    SumConcat(payments, rs, CountOf(o));
    assert forall k :: 0 <= k < |rs| ==> rs[k].reverses.Some?;
    NothingCounted(rs, o);
  }

  lemma CancellingKeepsPaidQuantities(items: seq<Item>)
    ensures Sum(Map(items, CancelItem), PaidValue) == Sum(items, PaidValue)
    ensures WithinQuantity(items) ==> WithinQuantity(Map(items, CancelItem))
  {
    assert forall i :: 0 <= i < |items| ==> Map(items, CancelItem)[i] == CancelItem(items[i]);
    SumEqual(items, Map(items, CancelItem), PaidValue, PaidValue);
  }

  lemma CancelKeepsDrift(db: Db, p: nat, signed: nat -> bool, o: nat)
    requires Drift(db, o)
    ensures Drift(AfterCancel(db, p, signed).0, o)
  {
    if AfterCancel(db, p, signed).1 == Done {
      ReversedExact(db.payments, p, signed);
      CancellingKeepsPaidQuantities(db.orders[p].items);
      hide Reversals, Reversed, ReversalsOf, Restock, PaymentsOf, Map, Sum;
      ReversalsAreNotCounted(db.payments, Reversed(db.payments, p, signed), o);
    }
  }

  // Over every run an order that is paid by split payments only, whatever they name and whatever happens to other
  // orders: after k payments on it its paid amount is within k cents of the value of what is marked as paid.
  lemma {:induction false} SplitDrift(products: map<nat, Product>, ops: seq<Op>, o: nat)
    requires AllValid(ops) && OnlySplitsOn(ops, o)
    ensures Drift(Run(Start(products), ops), o)
  {
    if ops != [] {
      var init, op := ops[..|ops| - 1], ops[|ops| - 1];
      var db := Run(Start(products), init);
      SplitDrift(products, init, o);
      BooksBalance(products, init);
      match op
      case Create(dto) => CreateKeepsDrift(db, dto, o);
      case Pay(p, amount) => PaymentElsewhereKeepsDrift(db, p, amount, o);
      case Split(p, amount, items) => SplitKeepsDrift(db, p, amount, items, o);
      case Cancel(p, signed) => CancelKeepsDrift(db, p, signed, o);
    }
  }

  // ----- quantities -----

  // The request is no split payment, or is rejected, or names unpaid quantities only.
  ghost predicate Harmless(db: Db, op: Op) {
    op.Split? && AfterSplitPayment(db, op.order, op.amount, op.items).1 == Done ==>
      NamesUnpaidOnly(db.orders[op.order].items, op.items)
  }

  lemma CreateOverpaysNothing(db: Db, dto: OrderDto)
    requires NothingOverpaid(db) && dto.Valid()
    ensures NothingOverpaid(AfterCreateOrder(db, dto).0)
  {
    var after := AfterCreateOrder(db, dto).0;
    if AfterCreateOrder(db, dto).1 != Rejected {
      CreatedOrderWithinCents(db, dto);
      CreateLeavesOthers(db, dto);
      hide AfterCreateOrder, WithinQuantity, WithinCents;
      assert forall k :: 0 <= k < |db.orders| ==> after.orders[k] == after.orders[..|db.orders|][k] == db.orders[k];
    }
  }

  lemma StepOverpaysNothingIff(db: Db, op: Op)
    requires NothingOverpaid(db) && op.Valid()
    ensures NothingOverpaid(Apply(db, op)) <==> Harmless(db, op)
  {
    match op
    case Create(dto) => CreateOverpaysNothing(db, dto);
    case Pay(o, amount) =>
      if o < |db.orders| { MapsItems(db.orders[o].items, PayInFull); }
    case Split(o, amount, split) =>
      if AfterSplitPayment(db, o, amount, split).1 == Done {
        SplitWithinQuantityIff(db.orders[o].items, split);
        SplitOverpaysNothingIff(db, o, amount, split);
      }
    case Cancel(o, signed) =>
      if o < |db.orders| { CancellingKeepsPaidQuantities(db.orders[o].items); }
  }

  lemma SplitOverpaysNothingIff(db: Db, o: nat, amount: int, split: seq<SplitItem>)
    requires NothingOverpaid(db) && AfterSplitPayment(db, o, amount, split).1 == Done
    ensures NothingOverpaid(AfterSplitPayment(db, o, amount, split).0) <==> WithinQuantity(AddPaid(db.orders[o].items, split))
  {
    SplitEffect(db, o, amount, split);
    hide AfterSplitPayment, AddPaid, Expected, WithinQuantity;
  }

  // At no point of the run is an item paid beyond its quantity; and every request is harmless where it arrives.
  ghost predicate NeverOverpays(products: map<nat, Product>, ops: seq<Op>) {
    forall n :: 0 <= n <= |ops| ==> NothingOverpaid(Run(Start(products), ops[..n]))
  }

  ghost predicate AllHarmless(products: map<nat, Product>, ops: seq<Op>) {
    forall n :: 0 <= n < |ops| ==> Harmless(Run(Start(products), ops[..n]), ops[n])
  }

  lemma RunsGrow(products: map<nat, Product>, ops: seq<Op>, op: Op)
    ensures NeverOverpays(products, ops + [op]) <==> NeverOverpays(products, ops) && NothingOverpaid(Run(Start(products), ops + [op]))
    ensures AllHarmless(products, ops + [op]) <==> AllHarmless(products, ops) && Harmless(Run(Start(products), ops), op)
    ensures NeverOverpays(products, ops) ==> NothingOverpaid(Run(Start(products), ops))
    ensures Run(Start(products), ops + [op]) == Apply(Run(Start(products), ops), op)
  {
    hide NothingOverpaid, Harmless, Apply, Run, Start;
    RunAppend(Start(products), ops, op);
    var more, n := ops + [op], |ops|;
    assert more[..n + 1] == more && more[..n] == ops && ops[..n] == ops;
    assert forall k :: 0 <= k <= n ==> more[..k] == ops[..k];
    assert NeverOverpays(products, more) ==> NothingOverpaid(Run(Start(products), more[..n + 1]));
    assert AllHarmless(products, more) ==> Harmless(Run(Start(products), more[..n]), more[n]);
  }

  // Over every run, whole payments included: no item is ever paid beyond its quantity if and only if every accepted
  // split payment names for each item at most its unpaid quantity in all.
  lemma {:induction false} QuantitiesAreRespectedIff(products: map<nat, Product>, ops: seq<Op>)
    requires AllValid(ops)
    ensures NeverOverpays(products, ops) <==> AllHarmless(products, ops)
  {
    if ops == [] {
      assert ops[..0] == [];
    } else {
      var init, op := ops[..|ops| - 1], ops[|ops| - 1];
      assert ops == init + [op];
      QuantitiesAreRespectedIff(products, init);
      RunsGrow(products, init, op);
      hide NeverOverpays, AllHarmless, NothingOverpaid, Harmless, Apply, Run;
      if NothingOverpaid(Run(Start(products), init)) {
        StepOverpaysNothingIff(Run(Start(products), init), op);
      }
    }
  }

  // Each entry is checked against the same unpaid quantity, so naming an item twice is accepted and pays it beyond its
  // quantity: one piece is ordered, and paid for twice.
  lemma ItemNamedTwiceIsOverpaid()
    ensures var db := Run(Start(OneEuroProducts()), [Create(OnePiece())]);
      var (after, result) := AfterSplitPayment(db, 0, 200, [SplitItem(0, 1), SplitItem(0, 1)]);
      result == Done && after.orders[0].items[0].quantity == 1 && after.orders[0].items[0].paidQuantity == 2
  {
    OnePieceCreated();
    var item, split := OnePieceOrder().items[0], [SplitItem(0, 1), SplitItem(0, 1)];
    NamedTwice(item);
    hide AddPaid, Expected, Run, Sum;
    var db := Db(OneEuroProducts(), [OnePieceOrder()], []);
    assert OnePieceOrder().items == [item] && UnitPrice(item) == 100;
    assert AfterSplitPayment(db, 0, 200, split).0.orders[0].items == AddPaid([item], split);
  }

  lemma NamedTwice(i: Item)
    requires i.quantity == 1 && i.paidQuantity == 0
    ensures var split := [SplitItem(0, 1), SplitItem(0, 1)];
      CanSplit([i], split) && Expected([i], split) == 2 * UnitPrice(i) && AddPaid([i], split) == [i.(paidQuantity := 2)]
  {
    var one, split := [SplitItem(0, 1)], [SplitItem(0, 1), SplitItem(0, 1)];
    assert split[..1] == one && one[..0] == [];
    LastSplitItem([i], one);
    LastSplitItem([i], split);
    hide UnitPrice;
    assert AddPaid([i], one) == [i.(paidQuantity := 1)];
  }
}
