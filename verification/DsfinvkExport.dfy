// The loops that assemble an export, proved to produce the tables of the list of its receipts.
module DsfinvkExport {
  import opened Options
  import opened Groups
  import opened VatRounding
  import opened DsfinvkTables

  datatype Outcome = NothingToExport | UnmappedRate | Exported(tables: Export)

  method BuildLinesRows(bonId: string, posZeile: string, quantity: int, unitGrossPrice: int, depositAmount: int,
                        isRefill: bool, isStorno: bool)
    returns (rows: seq<LineRow>)
    ensures rows == [LineRow(bonId, posZeile, Umsatz, isStorno, quantity, unitGrossPrice)] +
      if depositAmount > 0 && !isRefill then [LineRow(bonId, posZeile + "-pfand", Pfand, isStorno, quantity, depositAmount)] else []
  {
    rows := [LineRow(bonId, posZeile, Umsatz, isStorno, quantity, unitGrossPrice)];
    if depositAmount > 0 && !isRefill {
      rows := rows + [LineRow(bonId, posZeile + "-pfand", Pfand, isStorno, quantity, depositAmount)];
    }
  }

  function BuildLinesVatRow(bonId: string, posZeile: string, key: UstSchluessel, brutto: int, rate: nat): LineVatRow {
    var netto := Netto(brutto, rate);
    LineVatRow(bonId, posZeile, key, brutto, netto, brutto - netto)
  }

  // One pass of the Map loop that both tax tables run: add to an existing group, or open a new one.
  method BookEntries<K(==)>(entries: seq<Entry<K>>) returns (totals: seq<Group<K>>)
    ensures totals == GroupAll(entries)
  {
    totals := [];
    for i := 0 to |entries|
      invariant totals == GroupAll(entries[..i])
    {
      assert entries[..i + 1][..i] == entries[..i];
      var line := entries[i];
      var at := Find(totals, line.key);
      if at < |totals| {
        totals := totals[at := totals[at].(total := totals[at].total + line.amount)];
      } else {
        totals := totals + [Group(line.key, line.rate, line.amount)];
      }
    }
    assert entries[..|entries|] == entries;
  }

  method BuildTransactionsVatRows(bonId: string, lines: seq<Entry<UstSchluessel>>) returns (rows: seq<TransactionVatRow>)
    ensures rows == Map(GroupAll(lines), ToTransactionVatRow(bonId))
  {
    var totals := BookEntries(lines);
    rows := Map(totals, ToTransactionVatRow(bonId));
  }

  method BuildBusinessCaseRows(lines: seq<Entry<(GvTyp, UstSchluessel)>>) returns (rows: seq<BusinessCaseRow>)
    ensures rows == Map(GroupAll(lines), ToBusinessCaseRow)
  {
    var totals := BookEntries(lines);
    rows := Map(totals, ToBusinessCaseRow);
  }

  method CollectNames(payments: seq<Paid>) returns (nameByTyp: map<ZahlartTyp, string>)
    ensures forall j :: 0 <= j < |payments| ==> ZahlartTypOf(payments[j].paymentMethod) in nameByTyp
    ensures forall t :: t in nameByTyp ==> nameByTyp[t] == LastName(payments, t)
  {
    nameByTyp := map[];
    for i := 0 to |payments|
      invariant forall j :: 0 <= j < i ==> ZahlartTypOf(payments[j].paymentMethod) in nameByTyp
      invariant forall t :: t in nameByTyp ==> nameByTyp[t] == LastName(payments[..i], t)
    {
      assert payments[..i + 1][..i] == payments[..i];
      nameByTyp := nameByTyp[ZahlartTypOf(payments[i].paymentMethod) := ZahlartNameOf(payments[i].paymentMethod)];
    }
    assert payments[..|payments|] == payments;
  }

  method BuildPaymentRows(payments: seq<Paid>) returns (rows: seq<PaymentRow>)
    ensures rows == PaymentRows(payments)
  {
    hide LastName, Sum, GroupAll, Distinct, Find;
    var totals := BookEntries(Map(payments, ToPaymentEntry));
    var nameByTyp := CollectNames(payments);
    GroupsFoot(Map(payments, ToPaymentEntry));
    assert forall i :: 0 <= i < |totals| ==> Booked(Map(payments, ToPaymentEntry), totals[i]);
    assert forall i :: 0 <= i < |totals| ==> totals[i].key in nameByTyp;
    rows := seq(|totals|, i requires 0 <= i < |totals| && totals[i].key in nameByTyp =>
      PaymentRow(totals[i].key, nameByTyp[totals[i].key], totals[i].total));
  }

  // What the item loop of one order pushes into the tables.
  datatype Booking = Booking(lines: seq<LineRow>, linesVat: seq<LineVatRow>, vat: seq<Entry<UstSchluessel>>,
                             business: seq<Entry<(GvTyp, UstSchluessel)>>)

  function BookingOf(bonId: string, lines: seq<SaleLine>): Booking {
    Booking(Map(lines, ToLineRow(bonId)), Map(lines, ToLineVatRow(bonId)), Map(lines, ToVatEntry), Map(lines, ToBusinessEntry))
  }

  lemma BookingAppend(bonId: string, a: seq<SaleLine>, b: seq<SaleLine>)
    ensures var x, y := BookingOf(bonId, a), BookingOf(bonId, b);
      BookingOf(bonId, a + b) == Booking(x.lines + y.lines, x.linesVat + y.linesVat, x.vat + y.vat, x.business + y.business)
  {
  }

  lemma BookingOne(bonId: string, l: SaleLine)
    ensures BookingOf(bonId, [l]) == Booking([ToLineRow(bonId)(l)], [ToLineVatRow(bonId)(l)], [ToVatEntry(l)], [ToBusinessEntry(l)])
  {
  }

  lemma NoBooking(bonId: string)
    ensures BookingOf(bonId, []) == Booking([], [], [], [])
  {
  }

  predicate Mapped(items: seq<Item>, vatExempt: bool) {
    forall i :: 0 <= i < |items| ==> UstSchluesselFor(items[i].taxRate, vatExempt).Some?
  }

  method BookItem(bonId: string, item: Item, key: UstSchluessel, vatExempt: bool) returns (b: Booking)
    requires UstSchluesselFor(item.taxRate, vatExempt) == Some(key)
    ensures b == BookingOf(bonId, ItemLines(vatExempt)(item))
  {
    hide Netto, BookingOf;
    var unitGrossPrice := item.unitPrice + item.optionsPrice;
    var rows := BuildLinesRows(bonId, item.id, item.quantity, unitGrossPrice, item.depositAmount, item.isRefill, item.cancelled);
    var productBrutto := unitGrossPrice * item.quantity;
    b := Booking(rows, [BuildLinesVatRow(bonId, item.id, key, productBrutto, item.taxRate)],
                 [Entry(key, item.taxRate, productBrutto)],
                 [Entry((rows[0].gvTyp, key), item.taxRate, productBrutto)]);
    ghost var product := SaleLine(item.id, Umsatz, item.cancelled, item.quantity, unitGrossPrice, key, item.taxRate);
    BookingOne(bonId, product);
    if item.depositAmount > 0 && !item.isRefill {
      var pfandRate := if vatExempt then 0 else 1900;
      var pfandKey := UstSchluesselFor(pfandRate, vatExempt).value;
      var pfandBrutto := item.depositAmount * item.quantity;
      b := b.(linesVat := b.linesVat + [BuildLinesVatRow(bonId, item.id + "-pfand", pfandKey, pfandBrutto, pfandRate)],
              vat := b.vat + [Entry(pfandKey, pfandRate, pfandBrutto)],
              business := b.business + [Entry((rows[1].gvTyp, pfandKey), pfandRate, pfandBrutto)]);
      ghost var deposit := SaleLine(item.id + "-pfand", Pfand, item.cancelled, item.quantity, item.depositAmount, pfandKey, pfandRate);
      BookingOne(bonId, deposit);
      BookingAppend(bonId, [product], [deposit]);
      assert ItemLines(vatExempt)(item) == [product] + [deposit];
    } else {
      assert ItemLines(vatExempt)(item) == [product];
    }
  }

  // The item loop of one order; None where a rate has no key and the export throws.
  method BookItems(bonId: string, items: seq<Item>, vatExempt: bool) returns (r: Option<Booking>)
    ensures r == if Mapped(items, vatExempt) then Some(BookingOf(bonId, FlatMap(items, ItemLines(vatExempt)))) else None
  {
    hide UstSchluesselFor, ItemLines, BookingOf;
    var all := Booking([], [], [], []);
    NoBooking(bonId);
    for i := 0 to |items|
      invariant Mapped(items[..i], vatExempt)
      invariant all == BookingOf(bonId, FlatMap(items[..i], ItemLines(vatExempt)))
    {
      var key := UstSchluesselFor(items[i].taxRate, vatExempt);
      if key.None? {
        return None;
      }
      FlatMapStep(items, i, ItemLines(vatExempt));
      BookingAppend(bonId, FlatMap(items[..i], ItemLines(vatExempt)), ItemLines(vatExempt)(items[i]));
      assert forall j :: 0 <= j < i ==> items[..i + 1][j] == items[..i][j];
      var b := BookItem(bonId, items[i], key.value, vatExempt);
      all := Booking(all.lines + b.lines, all.linesVat + b.linesVat, all.vat + b.vat, all.business + b.business);
    }
    assert items[..|items|] == items;
    r := Some(all);
  }

  // The row arrays as the export fills them, in the order in which receipts are pushed.
  datatype Rows = Rows(transactions: seq<TransactionRow>, transactionsVat: seq<TransactionVatRow>,
                       datapayment: seq<DatapaymentRow>, lines: seq<LineRow>, linesVat: seq<LineVatRow>,
                       business: seq<Entry<(GvTyp, UstSchluessel)>>, payments: seq<Paid>)

  function RowsOf(bons: seq<Bon>): Rows {
    Rows(Transactions(bons), FlatMap(bons, BonTransactionsVat), FlatMap(bons, BonDatapayment),
         FlatMap(bons, BonLines), FlatMap(bons, BonLinesVat), FlatMap(bons, BonBusinessEntries), FlatMap(bons, BonPayments))
  }

  // What the loops push for one receipt.
  function PushBon(rows: Rows, bonId: string, bonNr: int, storno: bool, payments: seq<Paid>, booked: Booking,
                   vatRows: seq<TransactionVatRow>): Rows {
    Rows(rows.transactions + [TransactionRow(bonId, bonNr, storno, Sum(payments, AmountOf))],
         rows.transactionsVat + vatRows,
         rows.datapayment + Map(payments, ToDatapaymentRow(bonId)),
         rows.lines + booked.lines, rows.linesVat + booked.linesVat, rows.business + booked.business,
         rows.payments + payments)
  }

  lemma PushBonAppends(bons: seq<Bon>, b: Bon)
    ensures var booked := BookingOf(b.id, b.lines);
      RowsOf(bons + [b]) == PushBon(RowsOf(bons), b.id, |bons| + 1, b.storno, b.payments, booked,
                                    Map(GroupAll(booked.vat), ToTransactionVatRow(b.id)))
  {
  }

  // The order loop; None where a rate has no key and the export throws.
  method BookOrders(qualifying: seq<Order>, vatExempt: bool) returns (r: Option<Rows>)
    ensures r == if forall j :: 0 <= j < |qualifying| ==> Mapped(qualifying[j].items, vatExempt)
      then Some(RowsOf(Map(qualifying, OrderBon(vatExempt)))) else None
  {
    hide RowsOf, BookingOf, Mapped, Filter, FlatMap;
    ghost var bons: seq<Bon> := [];
    var rows := Rows([], [], [], [], [], [], []);
    var bonNr := 0;
    NoRows();
    for i := 0 to |qualifying|
      invariant forall j :: 0 <= j < i ==> Mapped(qualifying[j].items, vatExempt)
      invariant bons == Map(qualifying[..i], OrderBon(vatExempt))
      invariant rows == RowsOf(bons) && bonNr == i
    {
      var order := qualifying[i];
      bonNr := bonNr + 1;
      var capturedPayments := Map(Filter(order.payments, Original), ToPaid);
      var booked := BookItems(order.id, order.items, vatExempt);
      if booked.None? {
        return None;
      }
      var vatRows := BuildTransactionsVatRows(order.id, booked.value.vat);
      rows := PushBon(rows, order.id, bonNr, false, capturedPayments, booked.value, vatRows);
      PushBonAppends(bons, OrderBon(vatExempt)(order));
      bons := bons + [OrderBon(vatExempt)(order)];
    }
    assert qualifying[..|qualifying|] == qualifying;
    r := Some(rows);
  }

  // The reversal loop, which continues the numbering of the order loop.
  method BookReversals(start: Rows, ghost before: seq<Bon>, startNr: int, reversals: seq<Payment>, vatExempt: bool)
    returns (rows: Rows, referenceRows: seq<ReferenceRow>)
    requires start == RowsOf(before) && startNr == |before|
    ensures rows == RowsOf(before + Map(reversals, ReversalBon(vatExempt)))
    ensures referenceRows == Map(reversals, ToReference)
  {
    hide RowsOf, BookingOf;
    ghost var bons := before;
    rows := start;
    referenceRows := [];
    var bonNr := startNr;
    for i := 0 to |reversals|
      invariant bons == before + Map(reversals[..i], ReversalBon(vatExempt))
      invariant rows == RowsOf(bons) && bonNr == |bons|
      invariant referenceRows == Map(reversals[..i], ToReference)
    {
      var reversal := reversals[i];
      bonNr := bonNr + 1;
      var rate := if vatExempt then 0 else 1900;
      var key := UstSchluesselFor(rate, vatExempt).value;
      var lineRows := BuildLinesRows(reversal.id, "1", 1, reversal.amount, 0, false, true);
      var booked := Booking(lineRows, [BuildLinesVatRow(reversal.id, "1", key, reversal.amount, rate)],
                            [Entry(key, rate, reversal.amount)], [Entry((Umsatz, key), rate, reversal.amount)]);
      ReversalBooking(reversal, vatExempt, booked);
      var vatRows := BuildTransactionsVatRows(reversal.id, booked.vat);
      rows := PushBon(rows, reversal.id, bonNr, true, [ToPaid(reversal)], booked, vatRows);
      PushBonAppends(bons, ReversalBon(vatExempt)(reversal));
      bons := bons + [ReversalBon(vatExempt)(reversal)];
      MapStep(reversals, i, ToReference);
      MapStep(reversals, i, ReversalBon(vatExempt));
      referenceRows := referenceRows + [ReferenceRow(reversal.id, reversal.orderId)];
    }
    assert reversals[..|reversals|] == reversals;
  }

  // What an export over the orders and reversals of a period produces.
  function OutcomeOf(orders: seq<Order>, reversals: seq<Payment>, vatExempt: bool): Outcome {
    var q := Filter(orders, Qualifies);
    if q == [] && reversals == [] then NothingToExport
    else if exists i :: 0 <= i < |q| && !Mapped(q[i].items, vatExempt) then UnmappedRate
    else Exported(ExportOf(BonsOf(q, reversals, vatExempt), reversals))
  }

  method GenerateExport(orders: seq<Order>, reversals: seq<Payment>, vatExempt: bool) returns (outcome: Outcome)
    ensures outcome == OutcomeOf(orders, reversals, vatExempt)
  {
    hide Filter, Mapped, OrderBon, ReversalBon, Sum, FlatMap, GroupAll, PaymentRows, Transactions;
    var qualifying := Filter(orders, Qualifies);
    if |qualifying| == 0 && |reversals| == 0 {
      return NothingToExport;
    }
    var orderRows := BookOrders(qualifying, vatExempt);
    if orderRows.None? {
      return UnmappedRate;
    }
    var rows, referenceRows := BookReversals(orderRows.value, Map(qualifying, OrderBon(vatExempt)), |qualifying|, reversals, vatExempt);
    var bonIds := Map(qualifying, OrderId) + Map(reversals, PaymentId);
    BonIds(qualifying, reversals, vatExempt);
    var businesscases := BuildBusinessCaseRows(rows.business);
    var paymentRows := BuildPaymentRows(rows.payments);
    var cash := Sum(rows.payments, CashAmountOf);
    outcome := Exported(Export(
      ClosingRow(bonIds[0], bonIds[|bonIds| - 1], Sum(rows.payments, AmountOf), cash),
      businesscases, paymentRows, cash, rows.transactions, rows.transactionsVat, rows.datapayment,
      rows.lines, rows.linesVat, referenceRows));
  }

  function OrderId(o: Order): string { o.id }

  function PaymentId(p: Payment): string { p.id }

  lemma BonIds(orders: seq<Order>, reversals: seq<Payment>, vatExempt: bool)
    ensures var bons, ids := BonsOf(orders, reversals, vatExempt), Map(orders, OrderId) + Map(reversals, PaymentId);
      |bons| == |ids| && forall i :: 0 <= i < |ids| ==> bons[i].id == ids[i]
  {
    var bons, ids := BonsOf(orders, reversals, vatExempt), Map(orders, OrderId) + Map(reversals, PaymentId);
    forall i | 0 <= i < |ids|
      ensures bons[i].id == ids[i]
    {
      if i < |orders| {
        assert bons[i] == OrderBon(vatExempt)(orders[i]) && ids[i] == OrderId(orders[i]);
      } else {
        assert bons[i] == ReversalBon(vatExempt)(reversals[i - |orders|]) && ids[i] == PaymentId(reversals[i - |orders|]);
      }
    }
  }

  lemma NoRows()
    ensures RowsOf([]) == Rows([], [], [], [], [], [], [])
  {
  }

  lemma ReversalBooking(p: Payment, vatExempt: bool, booked: Booking)
    requires booked == Booking([LineRow(p.id, "1", Umsatz, true, 1, p.amount)],
      [BuildLinesVatRow(p.id, "1", StandardKey(vatExempt), p.amount, StandardRate(vatExempt))],
      [Entry(StandardKey(vatExempt), StandardRate(vatExempt), p.amount)],
      [Entry((Umsatz, StandardKey(vatExempt)), StandardRate(vatExempt), p.amount)])
    ensures booked == BookingOf(p.id, ReversalBon(vatExempt)(p).lines)
  {
    BookingOne(p.id, ReversalBon(vatExempt)(p).lines[0]);
  }
}
