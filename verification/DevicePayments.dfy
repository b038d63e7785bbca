// Money: what an order costs, what was paid on it, and what its payment status says, over every serial run.
module DevicePayments {
  import opened Options
  import opened Groups
  import opened DeviceOrders
  import opened DeviceRuns

  // ----- order totals -----

  lemma RecalculationIsIdempotent(o: Order)
    ensures Recalculate(Recalculate(o)) == Recalculate(o)
  {
  }

  // The discount is capped at the subtotal, so it never eats into tip and deposits, even if options have negative prices.
  lemma DiscountIsCapped(o: Order)
    ensures Recalculate(o).total >= Recalculate(o).tip + Recalculate(o).pfandTotal
  {
  }

  ghost predicate Sellable(items: seq<Item>) {
    forall i :: 0 <= i < |items| ==> items[i].quantity >= 1 && items[i].depositAmount >= 0
  }

  lemma {:induction false} AddItemsSellable(db: Db, o: nat, dtos: seq<ItemDto>, chargePfand: bool)
    requires o < |db.orders| && Sellable(db.orders[o].items) && forall i :: 0 <= i < |dtos| ==> dtos[i].Valid()
    ensures Sellable(AddItems(db, o, dtos, chargePfand).0.orders[o].items)
  {
    if dtos != [] {
      AddItemsSellable(db, o, dtos[..|dtos| - 1], chargePfand);
    }
  }

  lemma {:induction false} DepositsNonNegative(items: seq<Item>)
    requires Sellable(items)
    ensures Sum(items, DepositOf) >= 0
  {
    if items != [] {
      DepositsNonNegative(items[..|items| - 1]);
      ProductNonNegative(items[|items| - 1].depositAmount, items[|items| - 1].quantity);
    }
  }

  lemma ProductNonNegative(a: int, b: int)
    requires a >= 0 && b >= 0
    ensures a * b >= 0
  {
  }

  // A completed createOrder never has a negative total. The total covers tip and deposits if and only if the order has
  // items or no tip: without items the totals are never calculated, and the tip is dropped.
  lemma CreatedOrderTotals(db: Db, dto: OrderDto)
    requires dto.Valid() && AfterCreateOrder(db, dto).1 == Done
    ensures var order := AfterCreateOrder(db, dto).0.orders[|db.orders|];
      && order.total >= 0 && order.pfandTotal >= 0 && order.tip == dto.tip
      && order.paidAmount == 0 && order.paymentStatus == StatusOf(0, order.total) && order.status == Open
      && (order.total >= order.tip + order.pfandTotal <==> dto.items != [] || dto.tip == 0)
  {
    var o, start := |db.orders|, db.(orders := db.orders + [EmptyOrder(dto)]);
    AddItemsSellable(start, o, dto.items, dto.chargePfand);
    var order := AddItems(start, o, dto.items, dto.chargePfand).0.orders[o];
    DepositsNonNegative(order.items);
    DiscountIsCapped(order);
  }

  lemma FailedOrderTotals(db: Db, dto: OrderDto)
    requires AfterCreateOrder(db, dto).1 == Failed
    ensures var order := AfterCreateOrder(db, dto).0.orders[|db.orders|];
      order.total == 0 && order.paidAmount == 0 && order.paymentStatus == Unpaid && order.status == Open
  {
  }

  // ----- the books -----

  predicate Closed(o: Order) {
    o.status == Completed || o.status == Cancelled
  }

  // What was received on an order, reversals not counted; and everything captured on it, reversals included.
  function Received(o: nat): Payment -> int {
    (p: Payment) => if p.order == o && p.reverses.None? then p.amount else 0
  }

  function Captured(o: nat): Payment -> int {
    (p: Payment) => if p.order == o then p.amount else 0
  }

  // The payment status is the comparison of paid amount and total, or the order says unpaid although it has nothing to
  // pay. Which orders do is StatusDepartsIff below.
  ghost predicate StatusExact(o: Order) {
    o.paymentStatus == StatusOf(o.paidAmount, o.total) || (o.paymentStatus == Unpaid && o.paidAmount == 0 && o.total == 0)
  }

  // A reversal undoes an earlier payment of the same, closed order.
  ghost predicate Reverses(payments: seq<Payment>, r: nat, q: nat)
    requires r < |payments|
  {
    q < r && payments[q].reverses.None? && payments[q].order == payments[r].order && payments[q].amount == -payments[r].amount
  }

  ghost predicate PaymentsInv(db: Db) {
    && (forall p :: 0 <= p < |db.payments| ==> db.payments[p].order < |db.orders|)
    && (forall r :: 0 <= r < |db.payments| && db.payments[r].reverses.Some? ==>
          Reverses(db.payments, r, db.payments[r].reverses.value) && Closed(db.orders[db.payments[r].order]))
    && (forall r, s :: 0 <= r < s < |db.payments| && db.payments[r].reverses.Some? ==> db.payments[r].reverses != db.payments[s].reverses)
  }

  ghost predicate OrdersInv(db: Db) {
    forall o :: 0 <= o < |db.orders| ==>
      && db.orders[o].paidAmount == Sum(db.payments, Received(o))
      && StatusExact(db.orders[o])
      && db.orders[o].total >= 0
      && (db.orders[o].status == Completed ==> db.orders[o].paymentStatus == Paid && db.orders[o].paidAmount >= db.orders[o].total)
  }

  ghost predicate Books(db: Db) {
    PaymentsInv(db) && OrdersInv(db)
  }

  lemma {:induction false} NothingReceived(payments: seq<Payment>, o: nat)
    requires forall p :: 0 <= p < |payments| ==> payments[p].order < o || payments[p].reverses.Some?
    ensures Sum(payments, Received(o)) == 0
  {
    if payments != [] {
      NothingReceived(payments[..|payments| - 1], o);
    }
  }

  lemma CreateKeepsBooks(db: Db, dto: OrderDto)
    requires Books(db) && dto.Valid()
    ensures Books(AfterCreateOrder(db, dto).0)
  {
    var after, result := AfterCreateOrder(db, dto).0, AfterCreateOrder(db, dto).1;
    if result != Rejected {
      if result == Done { CreatedOrderTotals(db, dto); } else { FailedOrderTotals(db, dto); }
      NothingReceived(db.payments, |db.orders|);
      assert forall o :: 0 <= o < |db.orders| ==> after.orders[o] == db.orders[o];
    }
  }

  // A received payment, whether for the whole order or for items.
  lemma ReceiptKeepsBooks(db: Db, o: nat, amount: int, order: Order)
    requires Books(db) && o < |db.orders|
    requires order.paidAmount == db.orders[o].paidAmount + amount && order.total == db.orders[o].total
    requires order.paymentStatus == StatusOf(order.paidAmount, order.total)
    requires Closed(db.orders[o]) ==> Closed(order)
    requires order.status == Completed ==> order.paidAmount >= order.total
    ensures Books(db.WithOrder(o, order).(payments := db.payments + [Payment(o, amount, None)]))
  {
    var after := db.WithOrder(o, order).(payments := db.payments + [Payment(o, amount, None)]);
    forall k | 0 <= k < |db.orders|
      ensures after.orders[k].paidAmount == Sum(after.payments, Received(k))
    {
      SumAppend(db.payments, Payment(o, amount, None), Received(k));
    }
    forall r | 0 <= r < |after.payments| && after.payments[r].reverses.Some?
      ensures Reverses(after.payments, r, after.payments[r].reverses.value) && Closed(after.orders[after.payments[r].order])
    {
      assert after.payments[r] == db.payments[r];
      assert Reverses(db.payments, r, db.payments[r].reverses.value);
    }
  }

  // ----- cancelling -----

  lemma {:induction false} PaymentsOfExact(payments: seq<Payment>, o: nat)
    ensures var ps := PaymentsOf(payments, o);
      && (forall p :: p in ps <==> 0 <= p < |payments| && payments[p].order == o)
      && (forall i, j :: 0 <= i < j < |ps| ==> ps[i] < ps[j])
  {
    if payments != [] {
      PaymentsOfExact(payments[..|payments| - 1], o);
    }
  }

  ghost predicate Increasing(ps: seq<nat>) {
    forall i, j :: 0 <= i < j < |ps| ==> ps[i] < ps[j]
  }

  lemma {:induction false} FilterIncreasing(ps: seq<nat>, keep: nat -> bool)
    requires Increasing(ps)
    ensures Increasing(Filter(ps, keep))
  {
    if ps != [] {
      var init := ps[..|ps| - 1];
      FilterIncreasing(init, keep);
      FilterKeeps(init, keep);
      assert forall i :: 0 <= i < |Filter(init, keep)| ==> Filter(init, keep)[i] in init;
    }
  }

  // The payments that a cancellation reverses: the signed ones of the order, each once.
  function Reversed(payments: seq<Payment>, o: nat, signed: nat -> bool): seq<nat> {
    Filter(PaymentsOf(payments, o), signed)
  }

  lemma ReversedExact(payments: seq<Payment>, o: nat, signed: nat -> bool)
    ensures var ps := Reversed(payments, o, signed);
      && (forall p :: p in ps <==> 0 <= p < |payments| && payments[p].order == o && signed(p))
      && (forall i :: 0 <= i < |ps| ==> ps[i] < |payments| && payments[ps[i]].order == o)
      && Increasing(ps)
      && Reversals(payments, PaymentsOf(payments, o), signed) == ReversalsOf(payments, ps)
  {
    PaymentsOfExact(payments, o);
    FilterKeeps(PaymentsOf(payments, o), signed);
    FilterIncreasing(PaymentsOf(payments, o), signed);
    assert forall i :: 0 <= i < |Reversed(payments, o, signed)| ==> Reversed(payments, o, signed)[i] in Reversed(payments, o, signed);
  }

  lemma AppendKeepsPaymentsInv(db: Db, o: nat, order: Order, products: map<nat, Product>, ps: seq<nat>)
    requires PaymentsInv(db) && o < |db.orders| && !Closed(db.orders[o]) && Closed(order)
    requires (forall i :: 0 <= i < |ps| ==> ps[i] < |db.payments| && db.payments[ps[i]].order == o) && Increasing(ps)
    ensures PaymentsInv(Db(products, db.orders[o := order], db.payments + ReversalsOf(db.payments, ps)))
  {
    var payments, n := db.payments + ReversalsOf(db.payments, ps), |db.payments|;
    OpenOrderHasNoReversal(db, o);
    forall r | 0 <= r < |payments| && payments[r].reverses.Some?
      ensures Reverses(payments, r, payments[r].reverses.value)
    {
      if r < n {
        assert Reverses(db.payments, r, db.payments[r].reverses.value);
      } else {
        assert payments[r].reverses == Some(ps[r - n]);
      }
    }
    forall r, s | 0 <= r < s < |payments| && payments[r].reverses.Some?
      ensures payments[r].reverses != payments[s].reverses
    {
      if s >= n {
        assert payments[s].reverses == Some(ps[s - n]);
        if r < n {
          assert Reverses(db.payments, r, db.payments[r].reverses.value);
        } else {
          assert payments[r].reverses == Some(ps[r - n]);
        }
      }
    }
  }

  lemma OpenOrderHasNoReversal(db: Db, o: nat)
    requires PaymentsInv(db) && o < |db.orders| && !Closed(db.orders[o])
    ensures forall p :: 0 <= p < |db.payments| && db.payments[p].order == o ==> db.payments[p].reverses.None?
  {
  }

  lemma ReversingKeepsBooks(db: Db, o: nat, order: Order, products: map<nat, Product>, ps: seq<nat>)
    requires Books(db) && o < |db.orders| && !Closed(db.orders[o]) && Closed(order)
    requires order == db.orders[o].(status := Cancelled, items := order.items)
    requires (forall i :: 0 <= i < |ps| ==> ps[i] < |db.payments| && db.payments[ps[i]].order == o) && Increasing(ps)
    ensures Books(Db(products, db.orders[o := order], db.payments + ReversalsOf(db.payments, ps)))
  {
    AppendKeepsPaymentsInv(db, o, order, products, ps);
    hide PaymentsInv, ReversalsOf, Sum;
    forall k | 0 <= k < |db.orders|
      ensures Sum(db.payments + ReversalsOf(db.payments, ps), Received(k)) == Sum(db.payments, Received(k))
    {
      ReversalsAreNotReceived(db.payments, ps, k);
    }
  }

  lemma CancelKeepsBooks(db: Db, o: nat, signed: nat -> bool)
    requires Books(db)
    ensures Books(AfterCancel(db, o, signed).0)
  {
    if AfterCancel(db, o, signed).1 == Done {
      var after, ps := AfterCancel(db, o, signed).0, Reversed(db.payments, o, signed);
      ReversedExact(db.payments, o, signed);
      hide Books, Reversals, ReversalsOf, PaymentsOf, Restock, Reversed;
      ReversingKeepsBooks(db, o, after.orders[o], after.products, ps);
    }
  }

  lemma ReversalsAreNotReceived(payments: seq<Payment>, ps: seq<nat>, o: nat)
    requires forall i :: 0 <= i < |ps| ==> ps[i] < |payments|
    ensures Sum(payments + ReversalsOf(payments, ps), Received(o)) == Sum(payments, Received(o))
  {
    var rs := ReversalsOf(payments, ps);
    SumConcat(payments, rs, Received(o));
    assert forall k :: 0 <= k < |rs| ==> rs[k].reverses.Some?;
    NothingReceived(rs, o);
  }

  lemma StepKeepsBooks(db: Db, op: Op)
    requires Books(db) && op.Valid()
    ensures Books(Apply(db, op))
  {
    match op
    case Create(dto) => CreateKeepsBooks(db, dto);
    case Pay(o, amount) =>
      if AfterPayment(db, o, amount).1 == Done {
        ReceiptKeepsBooks(db, o, amount, AfterPayment(db, o, amount).0.orders[o]);
      }
    case Split(o, amount, items) =>
      if AfterSplitPayment(db, o, amount, items).1 == Done {
        ReceiptKeepsBooks(db, o, amount, AfterSplitPayment(db, o, amount, items).0.orders[o]);
      }
    case Cancel(o, signed) => CancelKeepsBooks(db, o, signed);
  }

  // Over every serial run: an order's paid amount is what was received on it, its payment status is the comparison of
  // paid amount and total, completed orders are paid in full, and reversals undo payments of closed orders, each at
  // most once.
  lemma {:induction false} BooksBalance(products: map<nat, Product>, ops: seq<Op>)
    requires AllValid(ops)
    ensures Books(Run(Start(products), ops))
  {
    if ops != [] {
      BooksBalance(products, ops[..|ops| - 1]);
      StepKeepsBooks(Run(Start(products), ops[..|ops| - 1]), ops[|ops| - 1]);
    }
  }

  // ----- the payment status -----

  predicate Departs(o: Order) {
    o.paymentStatus != StatusOf(o.paidAmount, o.total)
  }

  // The request tries to create order o and fails after some items; or it is a payment on o that is accepted.
  predicate FailsToCreate(db: Db, op: Op, o: nat) {
    op.Create? && o == |db.orders| && AfterCreateOrder(db, op.dto).1 == Failed
  }

  predicate PaysFor(db: Db, op: Op, o: nat) {
    || (op.Pay? && op.order == o && AfterPayment(db, o, op.amount).1 == Done)
    || (op.Split? && op.order == o && AfterSplitPayment(db, o, op.amount, op.items).1 == Done)
  }

  lemma StepDepartsIff(db: Db, op: Op, o: nat)
    requires op.Valid() && o < |Apply(db, op).orders|
    ensures Departs(Apply(db, op).orders[o]) <==>
      if o < |db.orders| then Departs(db.orders[o]) && !PaysFor(db, op, o) else FailsToCreate(db, op, o)
  {
    match op
    case Create(dto) =>
      if o >= |db.orders| {
        if AfterCreateOrder(db, dto).1 == Done { CreatedOrderTotals(db, dto); } else { FailedOrderTotals(db, dto); }
      }
    case Pay(_, _) =>
    case Split(_, _, _) =>
    case Cancel(_, _) =>
  }

  // The n-th request failed to create the order, and no payment on the order has been accepted since.
  predicate LeftBehindBy(products: map<nat, Product>, ops: seq<Op>, o: nat, n: nat) {
    && n < |ops| && FailsToCreate(Run(Start(products), ops[..n]), ops[n], o)
    && forall m :: n < m < |ops| ==> !PaysFor(Run(Start(products), ops[..m]), ops[m], o)
  }

  lemma LeftBehindByStep(products: map<nat, Product>, ops: seq<Op>, op: Op, o: nat, n: nat)
    ensures var db := Run(Start(products), ops);
      LeftBehindBy(products, ops + [op], o, n) <==>
        if n < |ops| then LeftBehindBy(products, ops, o, n) && !PaysFor(db, op, o) else n == |ops| && FailsToCreate(db, op, o)
  {
    hide FailsToCreate, PaysFor, Run, Start;
    var more := ops + [op];
    assert more[..|ops|] == ops;
    assert forall k :: 0 <= k <= |ops| ==> more[..k] == ops[..k];
    if LeftBehindBy(products, more, o, n) && n < |ops| {
      assert !PaysFor(Run(Start(products), more[..|ops|]), more[|ops|], o);
      assert forall m :: n < m < |ops| ==> !PaysFor(Run(Start(products), more[..m]), more[m], o);
    }
  }

  lemma OrdersStay(db: Db, op: Op)
    ensures |db.orders| <= |Apply(db, op).orders| <= |db.orders| + 1
  {
  }

  // Only an order that does not exist yet can fail to be created.
  lemma {:induction false} LeftBehindExists(products: map<nat, Product>, ops: seq<Op>, o: nat, n: nat)
    requires LeftBehindBy(products, ops, o, n)
    ensures o < |Run(Start(products), ops).orders|
  {
    var init, op := ops[..|ops| - 1], ops[|ops| - 1];
    assert init + [op] == ops;
    LeftBehindByStep(products, init, op, o, n);
    OrdersStay(Run(Start(products), init), op);
    if n < |init| {
      hide LeftBehindBy;
      LeftBehindExists(products, init, o, n);
    }
  }

  // Over every valid run the payment status of an order is not the comparison of paid amount and total if and only if
  // its creation failed and no payment on it has been accepted since.
  lemma {:induction false} StatusDepartsIff(products: map<nat, Product>, ops: seq<Op>, o: nat)
    requires AllValid(ops) && o < |Run(Start(products), ops).orders|
    ensures Departs(Run(Start(products), ops).orders[o]) <==> exists n: nat :: LeftBehindBy(products, ops, o, n)
  {
    var init, op := ops[..|ops| - 1], ops[|ops| - 1];
    var db := Run(Start(products), init);
    assert init + [op] == ops;
    RunAppend(Start(products), init, op);
    StepDepartsIff(db, op, o);
    forall n: nat
      ensures LeftBehindBy(products, ops, o, n) <==>
        if n < |init| then LeftBehindBy(products, init, o, n) && !PaysFor(db, op, o) else n == |init| && FailsToCreate(db, op, o)
      ensures LeftBehindBy(products, init, o, n) ==> n < |init| && o < |db.orders|
    {
      LeftBehindByStep(products, init, op, o, n);
      if LeftBehindBy(products, init, o, n) { LeftBehindExists(products, init, o, n); }
    }
    if o < |db.orders| {
      StatusDepartsIff(products, init, o);
    }
    hide Departs, FailsToCreate, PaysFor, LeftBehindBy, Run, Start, Apply;
    if o < |db.orders| {
      assert !FailsToCreate(db, op, o) by { NotCreatedTwice(db, op, o); }
      if n: nat :| LeftBehindBy(products, init, o, n) {
        assert LeftBehindBy(products, ops, o, n) <==> !PaysFor(db, op, o);
      }
    } else {
      assert LeftBehindBy(products, ops, o, |init|) <==> FailsToCreate(db, op, o);
    }
  }

  lemma NotCreatedTwice(db: Db, op: Op, o: nat)
    requires o < |db.orders|
    ensures !FailsToCreate(db, op, o)
  {
  }

  // ----- cancellation nets to zero -----

  // What stays captured on an order: the payments whose reversal could not be signed.
  function Unsigned(payments: seq<Payment>, o: nat, signed: nat -> bool): int {
    if payments == [] then 0
    else
      var n: nat := |payments| - 1;
      Unsigned(payments[..n], o, signed) + if payments[n].order == o && !signed(n) then payments[n].amount else 0
  }

  lemma {:induction false} CapturedSplits(payments: seq<Payment>, o: nat, signed: nat -> bool)
    requires forall i :: 0 <= i < |Reversed(payments, o, signed)| ==> Reversed(payments, o, signed)[i] < |payments|
    ensures Sum(payments, Captured(o)) + Sum(ReversalsOf(payments, Reversed(payments, o, signed)), Captured(o)) ==
      Unsigned(payments, o, signed)
  {
    if payments != [] {
      var n: nat := |payments| - 1;
      var init, before := payments[..n], Reversed(payments[..n], o, signed);
      ReversedExact(init, o, signed);
      CapturedSplits(init, o, signed);
      ReversedStep(payments, o, signed);
      CapturedGrows(payments, before, o);
      hide Reversed, ReversalsOf, Sum, PaymentsOf, Increasing, Reversals;
    }
  }

  lemma CapturedGrows(payments: seq<Payment>, ps: seq<nat>, o: nat)
    requires payments != [] && forall i :: 0 <= i < |ps| ==> ps[i] < |payments| - 1
    ensures var n: nat := |payments| - 1;
      && Sum(payments, Captured(o)) == Sum(payments[..n], Captured(o)) + Captured(o)(payments[n])
      && Sum(ReversalsOf(payments, ps), Captured(o)) == Sum(ReversalsOf(payments[..n], ps), Captured(o))
      && Sum(ReversalsOf(payments, ps + [n]), Captured(o)) == Sum(ReversalsOf(payments[..n], ps), Captured(o)) - Captured(o)(payments[n])
  {
    var n: nat := |payments| - 1;
    ReversalsOfMore(payments, ps);
    hide ReversalsOf;
    SumAppend(ReversalsOf(payments[..n], ps), Payment(payments[n].order, -payments[n].amount, Some(n)), Captured(o));
  }

  lemma ReversalsOfMore(payments: seq<Payment>, ps: seq<nat>)
    requires payments != [] && forall i :: 0 <= i < |ps| ==> ps[i] < |payments| - 1
    ensures var n := |payments| - 1;
      && ReversalsOf(payments, ps) == ReversalsOf(payments[..n], ps)
      && ReversalsOf(payments, ps + [n]) == ReversalsOf(payments, ps) + [Payment(payments[n].order, -payments[n].amount, Some(n))]
  {
  }

  lemma ReversedStep(payments: seq<Payment>, o: nat, signed: nat -> bool)
    requires payments != []
    ensures var n: nat := |payments| - 1;
      Reversed(payments, o, signed) == if payments[n].order == o && signed(n) then Reversed(payments[..n], o, signed) + [n]
                                       else Reversed(payments[..n], o, signed)
  {
    var n: nat := |payments| - 1;
    var before := PaymentsOf(payments[..n], o);
    if payments[n].order == o {
      assert PaymentsOf(payments, o) == before + [n];
      FilterAppend(before, n, signed);
    } else {
      assert PaymentsOf(payments, o) == before;
    }
  }

  lemma {:induction false} NothingUnsigned(payments: seq<Payment>, o: nat, signed: nat -> bool)
    requires forall p :: 0 <= p < |payments| && payments[p].order == o ==> signed(p)
    ensures Unsigned(payments, o, signed) == 0
  {
    if payments != [] {
      NothingUnsigned(payments[..|payments| - 1], o, signed);
    }
  }

  // Earlier payments stay as they were and are originals; each signed one gets exactly one reversal of the opposite
  // amount that points at it.
  ghost predicate ReversedOnce(before: seq<Payment>, after: seq<Payment>, o: nat, signed: nat -> bool) {
    && before <= after
    && (forall p :: 0 <= p < |before| && before[p].order == o ==> before[p].reverses.None?)
    && (forall p :: 0 <= p < |before| && before[p].order == o && signed(p) ==> Payment(o, -before[p].amount, Some(p)) in after)
    && (forall r, s :: 0 <= r < s < |after| && after[r].reverses.Some? ==> after[r].reverses != after[s].reverses)
  }

  lemma CancelAppends(db: Db, o: nat, signed: nat -> bool)
    requires AfterCancel(db, o, signed).1 == Done
    ensures var after := AfterCancel(db, o, signed).0.payments;
      && db.payments <= after
      && Sum(after, Captured(o)) == Unsigned(db.payments, o, signed)
      && (forall p :: 0 <= p < |db.payments| && db.payments[p].order == o && signed(p) ==>
            Payment(o, -db.payments[p].amount, Some(p)) in after)
  {
    var after, ps := AfterCancel(db, o, signed).0.payments, Reversed(db.payments, o, signed);
    ReversedExact(db.payments, o, signed);
    CapturedSplits(db.payments, o, signed);
    assert after == db.payments + ReversalsOf(db.payments, ps);
    hide AfterCancel, Reversals, ReversalsOf, Reversed, PaymentsOf, Unsigned, Restock, Sum, Increasing;
    SumConcat(db.payments, ReversalsOf(db.payments, ps), Captured(o));
    forall p | 0 <= p < |db.payments| && db.payments[p].order == o && signed(p)
      ensures Payment(o, -db.payments[p].amount, Some(p)) in after
    {
      ReversalOfEach(db.payments, ps, p);
    }
  }

  lemma ReversalOfEach(payments: seq<Payment>, ps: seq<nat>, p: nat)
    requires p in ps && forall i :: 0 <= i < |ps| ==> ps[i] < |payments|
    ensures p < |payments| && Payment(payments[p].order, -payments[p].amount, Some(p)) in ReversalsOf(payments, ps)
  {
    var i :| 0 <= i < |ps| && ps[i] == p;
    assert ReversalsOf(payments, ps)[i].reverses == Some(p);
  }

  // After any valid run, a cancellation that goes through reverses every signed payment of the order once. What stays
  // captured on the order is what could not be signed: nothing, if no signing failed.
  lemma CancellationNetsOut(products: map<nat, Product>, ops: seq<Op>, o: nat, signed: nat -> bool)
    requires AllValid(ops) && AfterCancel(Run(Start(products), ops), o, signed).1 == Done
    ensures var before := Run(Start(products), ops).payments;
      var after := AfterCancel(Run(Start(products), ops), o, signed).0.payments;
      && ReversedOnce(before, after, o, signed)
      && Sum(after, Captured(o)) == Unsigned(before, o, signed)
      && ((forall p :: 0 <= p < |before| && before[p].order == o ==> signed(p)) ==> Sum(after, Captured(o)) == 0)
  {
    BooksBalance(products, ops);
    var db := Run(Start(products), ops);
    CancelNets(db, o, signed);
    hide AfterCancel, Run, Books, ReversedOnce, Unsigned;
    if forall p :: 0 <= p < |db.payments| && db.payments[p].order == o ==> signed(p) {
      NothingUnsigned(db.payments, o, signed);
    }
  }

  lemma CancelNets(db: Db, o: nat, signed: nat -> bool)
    requires Books(db) && AfterCancel(db, o, signed).1 == Done
    ensures var after := AfterCancel(db, o, signed).0.payments;
      ReversedOnce(db.payments, after, o, signed) && Sum(after, Captured(o)) == Unsigned(db.payments, o, signed)
  {
    hide AfterCancel, Unsigned, PaymentsInv, OrdersInv, Sum;
    OnlyOpenOrdersAreCancelled(db, o, signed);
    CancelKeepsBooks(db, o, signed);
    ReversalsDiffer(AfterCancel(db, o, signed).0);
    OpenOrderHasNoReversal(db, o);
    CancelAppends(db, o, signed);
  }

  lemma OnlyOpenOrdersAreCancelled(db: Db, o: nat, signed: nat -> bool)
    requires AfterCancel(db, o, signed).1 == Done
    ensures o < |db.orders| && !Closed(db.orders[o])
  {
  }

  lemma ReversalsDiffer(db: Db)
    requires PaymentsInv(db)
    ensures forall r, s :: 0 <= r < s < |db.payments| && db.payments[r].reverses.Some? ==>
      db.payments[r].reverses != db.payments[s].reverses
  {
  }

  // ----- whole payments -----

  // No split payment names this order.
  predicate NoSplitsOn(ops: seq<Op>, o: nat) {
    forall i :: 0 <= i < |ops| ==> !(ops[i].Split? && ops[i].order == o)
  }

  ghost predicate NotOverpaid(o: Order) {
    0 <= o.paidAmount <= o.total + 1
  }

  lemma StepNeverOverpays(db: Db, op: Op, o: nat)
    requires op.Valid() && !(op.Split? && op.order == o) && o < |Apply(db, op).orders|
    requires o < |db.orders| ==> NotOverpaid(db.orders[o])
    ensures NotOverpaid(Apply(db, op).orders[o])
  {
    match op
    case Create(dto) =>
      if o >= |db.orders| {
        if AfterCreateOrder(db, dto).1 == Done { CreatedOrderTotals(db, dto); } else { FailedOrderTotals(db, dto); }
      }
    case Pay(_, _) =>
    case Cancel(_, _) =>
    case Split(_, _, _) =>
  }

  // An order without split payments is never overpaid by more than one cent.
  lemma {:induction false} WholePaymentsNeverOverpay(products: map<nat, Product>, ops: seq<Op>, o: nat)
    requires AllValid(ops) && NoSplitsOn(ops, o) && o < |Run(Start(products), ops).orders|
    ensures var order := Run(Start(products), ops).orders[o]; 0 <= order.paidAmount <= order.total + 1
  {
    hide Apply;
    if ops != [] {
      var init, op := ops[..|ops| - 1], ops[|ops| - 1];
      var db := Run(Start(products), init);
      if o < |db.orders| {
        WholePaymentsNeverOverpay(products, init, o);
      }
      StepNeverOverpays(db, op, o);
    }
  }

  // Paying what remains, or one cent more, is always accepted; it settles the order and marks every item as paid.
  lemma PayingTheRemainderSettles(db: Db, o: nat, amount: int)
    requires o < |db.orders| && db.orders[o].paymentStatus != Paid
    requires 0 <= amount - (db.orders[o].total - db.orders[o].paidAmount) <= 1
    ensures var (after, result) := AfterPayment(db, o, amount);
      && result == Done && after.orders[o].paymentStatus == Paid
      && |after.orders[o].items| == |db.orders[o].items|
      && forall i :: 0 <= i < |after.orders[o].items| ==> after.orders[o].items[i].paidQuantity == db.orders[o].items[i].quantity
  {
    var items := db.orders[o].items;
    assert forall i :: 0 <= i < |items| ==> Map(items, PayInFull)[i] == PayInFull(items[i]);
  }

  // ----- totals are fixed at creation -----

  predicate SameTotals(a: Order, b: Order) {
    a.subtotal == b.subtotal && a.discount == b.discount && a.tip == b.tip && a.pfandTotal == b.pfandTotal && a.total == b.total
  }

  // No later operation changes what an order costs.
  lemma {:induction false} TotalsNeverChange(db: Db, ops: seq<Op>, o: nat)
    requires o < |db.orders|
    ensures o < |Run(db, ops).orders| && SameTotals(Run(db, ops).orders[o], db.orders[o])
  {
    if ops != [] {
      var init, op := Run(db, ops[..|ops| - 1]), ops[|ops| - 1];
      TotalsNeverChange(db, ops[..|ops| - 1], o);
      match op
      case Create(_) =>
      case Pay(_, _) =>
      case Split(_, _, _) =>
      case Cancel(_, _) =>
    }
  }

  // ----- payments on cancelled orders -----

  ghost predicate CancelledOrdersHaveNoLiveItem(db: Db) {
    forall o, i :: 0 <= o < |db.orders| && db.orders[o].status == Cancelled && 0 <= i < |db.orders[o].items| ==>
      !Live(db.orders[o].items[i])
  }

  lemma StepKeepsItemsCancelled(db: Db, op: Op)
    requires CancelledOrdersHaveNoLiveItem(db)
    ensures CancelledOrdersHaveNoLiveItem(Apply(db, op))
  {
    match op
    case Create(dto) =>
    case Pay(o, amount) =>
      if o < |db.orders| { MapsItems(db.orders[o].items, PayInFull); }
    case Split(o, amount, items) =>
    case Cancel(o, signed) =>
      if o < |db.orders| { MapsItems(db.orders[o].items, CancelItem); }
  }

  lemma MapsItems(items: seq<Item>, f: Item -> Item)
    ensures forall i :: 0 <= i < |items| ==> Map(items, f)[i] == f(items[i])
  {
  }

  lemma {:induction false} CancelledOrdersStayEmpty(products: map<nat, Product>, ops: seq<Op>)
    ensures CancelledOrdersHaveNoLiveItem(Run(Start(products), ops))
  {
    if ops != [] {
      CancelledOrdersStayEmpty(products, ops[..|ops| - 1]);
      StepKeepsItemsCancelled(Run(Start(products), ops[..|ops| - 1]), ops[|ops| - 1]);
    }
  }

  // Payments are not refused on cancelled orders. After any run an accepted payment on a cancelled order, whole or split,
  // completes the order exactly if it brings the paid amount to the total.
  lemma PayingCancelledOrderCompletesIff(products: map<nat, Product>, ops: seq<Op>, o: nat, amount: int, split: seq<SplitItem>)
    requires o < |Run(Start(products), ops).orders| && Run(Start(products), ops).orders[o].status == Cancelled
    ensures var db := Run(Start(products), ops);
      var next := if db.orders[o].paidAmount + amount >= db.orders[o].total then Completed else Cancelled;
      && (AfterPayment(db, o, amount).1 == Done ==> AfterPayment(db, o, amount).0.orders[o].status == next)
      && (AfterSplitPayment(db, o, amount, split).1 == Done ==> AfterSplitPayment(db, o, amount, split).0.orders[o].status == next)
  {
    var db := Run(Start(products), ops);
    CancelledOrdersStayEmpty(products, ops);
    hide Run;
    MapsItems(db.orders[o].items, PayInFull);
  }

  // ----- where these properties end -----

  // An order for one piece of a product at 1 euro.
  function OnePiece(): OrderDto { OrderDto(0, true, 0, 0, false, [ItemDto(0, 1, [], false)]) }

  function OneEuroProducts(): map<nat, Product> { map[0 := Product(0, true, true, false, 0, 100, 0, false)] }

  function OnePieceOrder(): Order {
    Order(0, Open, Unpaid, 100, 0, 0, 0, 100, 0, [Item(0, 1, 100, 0, 100, 0, false, Pending, false, 0)])
  }

  lemma OnePieceCreated()
    ensures Run(Start(OneEuroProducts()), [Create(OnePiece())]) == Db(OneEuroProducts(), [OnePieceOrder()], [])
  {
    var db, dto := Start(OneEuroProducts()), OnePiece();
    OnePieceAdded();
    assert db.orders + [EmptyOrder(dto)] == [EmptyOrder(dto)];
    assert AfterCreateOrder(db, dto).0.orders == [OnePieceOrder()];
    assert AfterCreateOrder(db, dto).0 == Db(OneEuroProducts(), [OnePieceOrder()], []);
    assert [Create(dto)][..0] == [];
    assert Run(db, []) == db;
  }

  lemma OnePieceAdded()
    ensures var open := Db(OneEuroProducts(), [EmptyOrder(OnePiece())], []);
      var (d, ok) := AddItems(open, 0, OnePiece().items, false);
      ok && d.products == OneEuroProducts() && d.payments == [] && |d.orders| == 1 && Recalculate(d.orders[0]) == OnePieceOrder()
  {
    var dto := OnePiece();
    var open := Db(OneEuroProducts(), [EmptyOrder(dto)], []);
    assert dto.items[..0] == [];
    assert AddItems(open, 0, [], false) == (open, true);
    assert AddItems(open, 0, dto.items, false) == (AddItem(open, 0, dto.items[0], false), true);
    var item := NewItem(OneEuroProducts()[0], dto.items[0], false);
    assert AddItem(open, 0, dto.items[0], false).orders[0].items == [item];
    assert Sum([item], PriceOf) == 100 && Sum([item], DepositOf) == 0 by { assert [item][..0] == []; }
  }

  function SigningWorks(): nat -> bool { p => true }

  lemma OnePieceCancelled()
    ensures var (after, result) := AfterCancel(Db(OneEuroProducts(), [OnePieceOrder()], []), 0, SigningWorks());
      && result == Done && |after.orders| == 1 && after.payments == []
      && after.orders[0] == OnePieceOrder().(status := Cancelled, items := after.orders[0].items)
  {
    FilterNone([], SigningWorks());
  }

  // An order is created, cancelled, and then paid: it ends up completed.
  lemma PayingCompletesCancelledOrder()
    ensures var ops := [Create(OnePiece()), Cancel(0, SigningWorks())];
      var before, after := Run(Start(OneEuroProducts()), ops), Run(Start(OneEuroProducts()), ops + [Pay(0, 100)]);
      && |before.orders| == |after.orders| == 1
      && before.orders[0].status == Cancelled && before.orders[0].paymentStatus == Unpaid
      && after.orders[0].status == Completed && after.payments == [Payment(0, 100, None)]
  {
    var ops := [Create(OnePiece()), Cancel(0, SigningWorks())];
    OnePieceCreated();
    OnePieceCancelled();
    hide AfterCancel, Run, Start, OnePiece;
    RunAppend(Start(OneEuroProducts()), [Create(OnePiece())], Cancel(0, SigningWorks()));
    assert [Create(OnePiece())] + [Cancel(0, SigningWorks())] == ops;
    RunAppend(Start(OneEuroProducts()), ops, Pay(0, 100));
    PayingCancelledOrderCompletesIff(OneEuroProducts(), ops, 0, 100, []);
  }
}
