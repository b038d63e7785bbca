// What an export contains, in terms of all orders and reversals of its period: which sales, at which positions, prices
// and tax keys, and which payments.
module DsfinvkContents {
  import opened Options
  import opened Groups
  import opened VatRounding
  import opened DsfinvkTables
  import DsfinvkExport
  import opened DsfinvkFooting

  // Some payment of the order is captured and reverses nothing.
  ghost predicate WasPaid(o: Order) {
    exists p :: p in o.payments && p.captured && p.reverses.None?
  }

  lemma QualifiesIfPaid(o: Order)
    ensures Qualifies(o) <==> WasPaid(o)
  {
    if i :| 0 <= i < |o.payments| && Original(o.payments[i]) {
      assert o.payments[i] in o.payments;
    }
  }

  lemma QualifyingArePaid(orders: seq<Order>)
    ensures forall o :: o in Filter(orders, Qualifies) <==> o in orders && WasPaid(o)
  {
    FilterKeeps(orders, Qualifies);
    forall o: Order
      ensures Qualifies(o) <==> WasPaid(o)
    {
      QualifiesIfPaid(o);
    }
  }

  // ----- whether something is exported -----

  ghost predicate HasRate(o: Order, rates: set<nat>) {
    forall i :: i in o.items ==> i.taxRate in rates
  }

  // Nothing is exported exactly if no order was paid and nothing was reversed. The export fails exactly if a taxable
  // organization sold an item at another rate than 19, 7 or 0 percent on a paid order.
  lemma ExportOutcome(orders: seq<Order>, reversals: seq<Payment>, vatExempt: bool)
    ensures var outcome := DsfinvkExport.OutcomeOf(orders, reversals, vatExempt);
      && (outcome.NothingToExport? <==> reversals == [] && forall o :: o in orders ==> !WasPaid(o))
      && (outcome.UnmappedRate? <==> !vatExempt && exists o :: o in orders && WasPaid(o) && !HasRate(o, {1900, 700, 0}))
  {
    hide WasPaid, Filter, BonsOf, Qualifies;
    QualifyingArePaid(orders);
    var q := Filter(orders, Qualifies);
    forall o: Order
      ensures DsfinvkExport.Mapped(o.items, vatExempt) <==> vatExempt || HasRate(o, {1900, 700, 0})
    {
      assert forall i :: 0 <= i < |o.items| ==> o.items[i] in o.items;
    }
    hide DsfinvkExport.Mapped, HasRate;
    assert forall i :: 0 <= i < |q| ==> q[i] in q;
    if q == [] {
      assert forall o :: o !in q;
    } else {
      assert q[0] in q;
    }
    if o :| o in orders && WasPaid(o) && !DsfinvkExport.Mapped(o.items, vatExempt) {
      assert o in q;
    }
  }

  // ----- receipts -----

  function BonIdOf(r: TransactionRow): string { r.bonId }

  // The receipts of an export are the paid orders, in the order of the query, followed by the reversals, numbered from 1.
  // The closing names the first and the last of them, and each reversal refers to its order.
  lemma ExportReceipts(orders: seq<Order>, reversals: seq<Payment>, vatExempt: bool)
    requires DsfinvkExport.OutcomeOf(orders, reversals, vatExempt).Exported?
    ensures var e := DsfinvkExport.OutcomeOf(orders, reversals, vatExempt).tables;
      var n := |e.transactions| - |reversals|;
      && n >= 0 && |e.transactions| > 0 && |e.references| == |reversals|
      && (forall i :: 0 <= i < |e.transactions| ==> e.transactions[i].bonNr == i + 1 && (e.transactions[i].storno <==> i >= n))
      && (forall id :: id in Map(e.transactions[..n], BonIdOf) <==> exists o :: o in orders && WasPaid(o) && o.id == id)
      && (forall i :: 0 <= i < |reversals| ==> e.transactions[n + i].bonId == reversals[i].id)
      && (forall i :: 0 <= i < |reversals| ==> e.references[i] == ReferenceRow(reversals[i].id, reversals[i].orderId))
      && e.closing.startBonId == e.transactions[0].bonId
      && e.closing.endBonId == e.transactions[|e.transactions| - 1].bonId
  {
    var q := Filter(orders, Qualifies);
    QualifyingArePaid(orders);
    ReceiptsOf(q, reversals, vatExempt);
    hide WasPaid, Qualifies, Filter, FlatMap, Transactions, BonsOf, DsfinvkExport.Mapped;
    var rows := Transactions(BonsOf(q, reversals, vatExempt));
    IdsOf(q, rows[..|q|]);
    var e := DsfinvkExport.OutcomeOf(orders, reversals, vatExempt).tables;
    assert e.transactions == rows;
    assert |rows| - |reversals| == |q|;
    assert forall id :: id in Map(e.transactions[..|q|], BonIdOf) <==> exists o :: o in orders && WasPaid(o) && o.id == id;
    assert forall i :: 0 <= i < |reversals| ==> e.references[i] == ToReference(reversals[i]);
    assert e.closing.startBonId == e.transactions[0].bonId;
  }

  lemma IdsOf(orders: seq<Order>, rows: seq<TransactionRow>)
    requires |rows| == |orders| && forall i :: 0 <= i < |rows| ==> rows[i].bonId == orders[i].id
    ensures forall id :: id in Map(rows, BonIdOf) <==> exists o :: o in orders && o.id == id
  {
    var ids := Map(rows, BonIdOf);
    assert forall i :: 0 <= i < |rows| ==> ids[i] == BonIdOf(rows[i]);
    forall id
      ensures id in ids <==> exists o :: o in orders && o.id == id
    {
      if o :| o in orders && o.id == id {
        var i :| 0 <= i < |orders| && orders[i] == o;
        assert ids[i] == id;
      }
      if i :| 0 <= i < |ids| && ids[i] == id {
        assert orders[i] in orders;
      }
    }
  }

  lemma ReceiptsOf(orders: seq<Order>, reversals: seq<Payment>, vatExempt: bool)
    ensures var bons := BonsOf(orders, reversals, vatExempt);
      var rows, n := Transactions(bons), |orders|;
      && |bons| == |rows| == n + |reversals|
      && (forall i :: 0 <= i < |rows| ==> rows[i].bonId == bons[i].id && rows[i].bonNr == i + 1 && (rows[i].storno <==> i >= n))
      && (forall i :: 0 <= i < n ==> rows[i].bonId == orders[i].id)
      && (forall i :: 0 <= i < |reversals| ==> rows[n + i].bonId == reversals[i].id)
  {
    hide FlatMap, Sum;
  }

  // ----- payments -----

  lemma {:induction false} NothingPaid(payments: seq<Payment>)
    requires forall p :: p in payments ==> !(p.captured && p.reverses.None?)
    ensures Sum(payments, OriginalAmount) == 0
  {
    if payments != [] {
      NothingPaid(payments[..|payments| - 1]);
      assert payments[|payments| - 1] in payments;
    }
  }

  // The closing's payment total is what was paid on all orders of the period, and what was reversed.
  lemma ExportPaymentTotal(orders: seq<Order>, reversals: seq<Payment>, vatExempt: bool)
    requires DsfinvkExport.OutcomeOf(orders, reversals, vatExempt).Exported?
    ensures var e := DsfinvkExport.OutcomeOf(orders, reversals, vatExempt).tables;
      e.closing.zahlungen == Sum(orders, AmountPaid) + Sum(reversals, ReversalAmount)
  {
    var q := Filter(orders, Qualifies);
    forall o | o in orders
      ensures AmountPaid(o) == if Qualifies(o) then AmountPaid(o) else 0
    {
      QualifiesIfPaid(o);
      if !WasPaid(o) { NothingPaid(o.payments); }
    }
    hide AmountPaid, Qualifies, FlatMap;
    SumFilter(orders, Qualifies, AmountPaid, AmountPaid);
    ExportTotals(q, reversals, vatExempt);
  }

  // What a payment row shows: cash as Bar, cards at the till as Unbar, and everything else as a payment provider.
  ghost predicate ShowsPayment(r: DatapaymentRow, bonId: string, m: PaymentMethod, amount: int) {
    && r.bonId == bonId && r.betrag == amount && NamedAs(r.name, m)
    && (r.typ == Bar <==> m == Cash)
    && (r.typ == Unbar <==> m == Card || m == SumupTerminal)
  }

  predicate NamedAs(name: string, m: PaymentMethod) {
    && (name == "Bar" <==> m == Cash) && (name == "Karte" <==> m == Card)
    && (name == "SumUp Kartenterminal" <==> m == SumupTerminal) && (name == "SumUp Online" <==> m == SumupOnline)
    && (name == "PayPal" <==> m == Paypal) && (name == "Google Pay" <==> m == GooglePay) && (name == "Apple Pay" <==> m == ApplePay)
  }

  lemma NameIsUnique(name: string, m: PaymentMethod)
    ensures NamedAs(name, m) <==> name == ZahlartNameOf(m)
  {
    NamesDiffer();
  }

  lemma NamesDiffer()
    ensures forall m, n :: ZahlartNameOf(m) == ZahlartNameOf(n) ==> m == n
  {
    forall m, n | ZahlartNameOf(m) == ZahlartNameOf(n)
      ensures m == n
    {
      assert ZahlartNameOf(m)[0] == ZahlartNameOf(n)[0] && |ZahlartNameOf(m)| == |ZahlartNameOf(n)|;
    }
  }

  // The row shows a captured payment of the order that reverses nothing.
  ghost predicate ShowsPaymentOf(r: DatapaymentRow, o: Order) {
    exists p :: p in o.payments && p.captured && p.reverses.None? && ShowsPayment(r, o.id, p.paymentMethod, p.amount)
  }

  lemma OrderShowsPayments(o: Order, vatExempt: bool, r: DatapaymentRow)
    ensures r in BonDatapayment(OrderBon(vatExempt)(o)) <==> ShowsPaymentOf(r, o)
    ensures ShowsPaymentOf(r, o) ==> WasPaid(o)
  {
    var originals := Filter(o.payments, Original);
    FilterKeeps(o.payments, Original);
    MapMap(originals, ToPaid, ToDatapaymentRow(o.id), (p: Payment) => ToDatapaymentRow(o.id)(ToPaid(p)));
    InMap(originals, (p: Payment) => ToDatapaymentRow(o.id)(ToPaid(p)), r);
    forall p: Payment
      ensures ToDatapaymentRow(o.id)(ToPaid(p)) == r <==> ShowsPayment(r, o.id, p.paymentMethod, p.amount)
    {
      NameIsUnique(r.name, p.paymentMethod);
    }
  }

  // datapayment.csv holds exactly the captured payments of all orders of the period, and the reversals.
  lemma ExportShowsPayments(orders: seq<Order>, reversals: seq<Payment>, vatExempt: bool, r: DatapaymentRow)
    requires DsfinvkExport.OutcomeOf(orders, reversals, vatExempt).Exported?
    ensures var e := DsfinvkExport.OutcomeOf(orders, reversals, vatExempt).tables;
      r in e.datapayment <==>
        || (exists o :: o in orders && ShowsPaymentOf(r, o))
        || (exists p :: p in reversals && ShowsPayment(r, p.id, p.paymentMethod, p.amount))
  {
    var q := Filter(orders, Qualifies);
    RowsOfBons(q, reversals, vatExempt, BonDatapayment, r);
    QualifyingArePaid(orders);
    hide Qualifies, Filter, FlatMap, BonsOf, OrderBon, WasPaid, ShowsPayment, ShowsPaymentOf;
    forall o: Order
      ensures r in BonDatapayment(OrderBon(vatExempt)(o)) <==> ShowsPaymentOf(r, o)
      ensures ShowsPaymentOf(r, o) ==> WasPaid(o)
    {
      OrderShowsPayments(o, vatExempt, r);
    }
    forall p: Payment
      ensures r in BonDatapayment(ReversalBon(vatExempt)(p)) <==> ShowsPayment(r, p.id, p.paymentMethod, p.amount)
    {
      ReversalShowsPayment(p, vatExempt, r);
    }
    hide BonDatapayment, ReversalBon, DsfinvkExport.Mapped;
  }

  lemma ReversalShowsPayment(p: Payment, vatExempt: bool, r: DatapaymentRow)
    ensures r in BonDatapayment(ReversalBon(vatExempt)(p)) <==> ShowsPayment(r, p.id, p.paymentMethod, p.amount)
  {
    NameIsUnique(r.name, p.paymentMethod);
    hide ZahlartNameOf, NamedAs;
    assert BonDatapayment(ReversalBon(vatExempt)(p)) == [ToDatapaymentRow(p.id)(ToPaid(p))];
  }

  function AmountOfType(typ: ZahlartTyp): Paid -> int {
    (p: Paid) => if ZahlartTypOf(p.paymentMethod) == typ then p.amount else 0
  }

  // The k-th payment is the last one of its type.
  predicate IsLastOfType(payments: seq<Paid>, k: nat, typ: ZahlartTyp) {
    && k < |payments| && ZahlartTypOf(payments[k].paymentMethod) == typ
    && forall j :: k < j < |payments| ==> ZahlartTypOf(payments[j].paymentMethod) != typ
  }

  ghost predicate HasType(rows: seq<PaymentRow>, typ: ZahlartTyp) {
    exists i :: 0 <= i < |rows| && rows[i].typ == typ
  }

  lemma {:induction false} LastNameIs(payments: seq<Paid>, k: nat, typ: ZahlartTyp)
    requires IsLastOfType(payments, k, typ)
    ensures LastName(payments, typ) == ZahlartNameOf(payments[k].paymentMethod)
  {
    if k < |payments| - 1 {
      LastNameIs(payments[..|payments| - 1], k, typ);
    }
  }

  // payment.csv has one row for each payment type that occurs, with the sum of its payments and the name of the last one.
  lemma PaymentRowsByType(payments: seq<Paid>)
    ensures var rows := PaymentRows(payments);
      && (forall i, j :: 0 <= i < j < |rows| ==> rows[i].typ != rows[j].typ)
      && (forall k :: 0 <= k < |payments| ==> HasType(rows, ZahlartTypOf(payments[k].paymentMethod)))
      && (forall i :: 0 <= i < |rows| ==> rows[i].betrag == Sum(payments, AmountOfType(rows[i].typ)))
      && (forall i, k: nat :: 0 <= i < |rows| && IsLastOfType(payments, k, rows[i].typ) ==>
            rows[i].name == ZahlartNameOf(payments[k].paymentMethod))
  {
    hide LastName, Sum, Booked, ZahlartTypOf, ZahlartNameOf, GroupAll;
    var entries, rows := Map(payments, ToPaymentEntry), PaymentRows(payments);
    var groups := GroupAll(entries);
    GroupsFoot(entries);
    assert forall i :: 0 <= i < |rows| ==> rows[i] == ToPaymentRow(payments)(groups[i]);
    forall k | 0 <= k < |payments|
      ensures HasType(rows, ZahlartTypOf(payments[k].paymentMethod))
    {
      assert entries[k] == ToPaymentEntry(payments[k]);
      var i := Find(groups, entries[k].key);
      assert i < |groups| && groups[i].key == entries[k].key;
      assert rows[i].typ == entries[k].key;
    }
    forall i | 0 <= i < |rows|
      ensures rows[i].betrag == Sum(payments, AmountOfType(rows[i].typ))
    {
      SumMap(payments, ToPaymentEntry, AmountAt(rows[i].typ), AmountOfType(rows[i].typ));
    }
    forall i, k: nat | 0 <= i < |rows| && IsLastOfType(payments, k, rows[i].typ)
      ensures rows[i].name == ZahlartNameOf(payments[k].paymentMethod)
    {
      LastNameIs(payments, k, rows[i].typ);
    }
  }

  // ----- positions -----

  lemma InMap<S, T>(s: seq<S>, f: S -> T, y: T)
    ensures y in Map(s, f) <==> exists x :: x in s && f(x) == y
  {
    if x :| x in s && f(x) == y {
      var i :| 0 <= i < |s| && s[i] == x;
      assert Map(s, f)[i] == y;
    }
    if i :| 0 <= i < |s| && Map(s, f)[i] == y {
      assert s[i] in s;
    }
  }

  lemma InFlatMapIff<S, T>(s: seq<S>, f: S -> seq<T>, y: T)
    ensures y in FlatMap(s, f) <==> exists x :: x in s && y in f(x)
  {
    if y in FlatMap(s, f) {
      var i := InFlatMap(s, f, y);
      assert s[i] in s;
    }
    if x :| x in s && y in f(x) {
      var i :| 0 <= i < |s| && s[i] == x;
      FlatMapHolds(s, f, i, y);
    }
  }

  lemma {:induction false} FlatMapHolds<S, T>(s: seq<S>, f: S -> seq<T>, i: nat, y: T)
    requires i < |s| && y in f(s[i])
    ensures y in FlatMap(s, f)
  {
    if i < |s| - 1 {
      FlatMapHolds(s[..|s| - 1], f, i, y);
    }
  }

  // A row of a table comes from an order or from a reversal.
  lemma RowsOfBons<T>(orders: seq<Order>, reversals: seq<Payment>, vatExempt: bool, rows: Bon -> seq<T>, r: T)
    ensures r in FlatMap(BonsOf(orders, reversals, vatExempt), rows) <==>
      || (exists o :: o in orders && r in rows(OrderBon(vatExempt)(o)))
      || (exists p :: p in reversals && r in rows(ReversalBon(vatExempt)(p)))
  {
    var a, b := Map(orders, OrderBon(vatExempt)), Map(reversals, ReversalBon(vatExempt));
    hide OrderBon, ReversalBon;
    FlatMapAppend(a, b, rows);
    InFlatMapIff(a, rows, r);
    InFlatMapIff(b, rows, r);
    forall x: Bon
      ensures x in a <==> exists o :: o in orders && OrderBon(vatExempt)(o) == x
      ensures x in b <==> exists p :: p in reversals && ReversalBon(vatExempt)(p) == x
    {
      InMap(orders, OrderBon(vatExempt), x);
      InMap(reversals, ReversalBon(vatExempt), x);
    }
    hide FlatMap, Map;
    if o :| o in orders && r in rows(OrderBon(vatExempt)(o)) {
      assert OrderBon(vatExempt)(o) in a;
    }
    if p :| p in reversals && r in rows(ReversalBon(vatExempt)(p)) {
      assert ReversalBon(vatExempt)(p) in b;
    }
  }

  // What a row of lines.csv shows of an item: its price with options, or its deposit if one is charged.
  ghost predicate ShowsItem(r: LineRow, o: Order, i: Item) {
    || r == LineRow(o.id, i.id, Umsatz, i.cancelled, i.quantity, i.unitPrice + i.optionsPrice)
    || (i.depositAmount > 0 && !i.isRefill && r == LineRow(o.id, i.id + "-pfand", Pfand, i.cancelled, i.quantity, i.depositAmount))
  }

  // And of its tax: the item's own rate under its key, deposits at 19 percent; tax-free for an exempt organization.
  ghost predicate ShowsTax(r: LineVatRow, o: Order, i: Item, vatExempt: bool) {
    || (&& r.bonId == o.id && r.posZeile == i.id && r.brutto == (i.unitPrice + i.optionsPrice) * i.quantity
        && KeyOf(r.key, i.taxRate, vatExempt) && r.netto == Netto(r.brutto, i.taxRate) && r.ust == r.brutto - r.netto)
    || (&& i.depositAmount > 0 && !i.isRefill
        && r.bonId == o.id && r.posZeile == i.id + "-pfand" && r.brutto == i.depositAmount * i.quantity
        && KeyOf(r.key, 1900, vatExempt) && r.netto == Netto(r.brutto, if vatExempt then 0 else 1900) && r.ust == r.brutto - r.netto)
  }

  predicate KeyOf(key: UstSchluessel, rate: int, vatExempt: bool) {
    && (key == Umsatzsteuerfrei <==> vatExempt)
    && (key == Allgemein <==> !vatExempt && rate == 1900)
    && (key == Ermaessigt <==> !vatExempt && rate == 700)
    && (key == NichtSteuerbar <==> !vatExempt && rate == 0)
  }

  lemma KeyIsUnique(key: UstSchluessel, rate: int, vatExempt: bool)
    ensures UstSchluesselFor(rate, vatExempt) == Some(key) <==> KeyOf(key, rate, vatExempt)
  {
  }

  lemma LinesOfItem(i: Item, vatExempt: bool, l: SaleLine)
    requires UstSchluesselFor(i.taxRate, vatExempt).Some?
    ensures l in ItemLines(vatExempt)(i) <==>
      || (KeyOf(l.key, i.taxRate, vatExempt) &&
          l == SaleLine(i.id, Umsatz, i.cancelled, i.quantity, i.unitPrice + i.optionsPrice, l.key, i.taxRate))
      || (i.depositAmount > 0 && !i.isRefill && KeyOf(l.key, 1900, vatExempt) &&
          l == SaleLine(i.id + "-pfand", Pfand, i.cancelled, i.quantity, i.depositAmount, l.key, if vatExempt then 0 else 1900))
  {
    KeyIsUnique(l.key, i.taxRate, vatExempt);
    KeyIsUnique(l.key, 1900, vatExempt);
  }

  lemma LinesOfOrder(o: Order, vatExempt: bool, l: SaleLine)
    ensures l in OrderBon(vatExempt)(o).lines <==> exists i :: i in o.items && l in ItemLines(vatExempt)(i)
  {
    InFlatMapIff(o.items, ItemLines(vatExempt), l);
  }

  lemma OrderShowsItems(o: Order, vatExempt: bool, r: LineRow)
    requires DsfinvkExport.Mapped(o.items, vatExempt)
    ensures r in BonLines(OrderBon(vatExempt)(o)) <==> exists i :: i in o.items && ShowsItem(r, o, i)
  {
    var b := OrderBon(vatExempt)(o);
    InMap(b.lines, ToLineRow(b.id), r);
    forall l: SaleLine
      ensures l in b.lines <==> exists i :: i in o.items && l in ItemLines(vatExempt)(i)
    {
      LinesOfOrder(o, vatExempt, l);
    }
    forall i | i in o.items
      ensures ShowsItem(r, o, i) <==> exists l :: l in ItemLines(vatExempt)(i) && ToLineRow(o.id)(l) == r
    {
      ItemShown(o, i, vatExempt, r);
    }
    hide ItemLines, OrderBon, ShowsItem, DsfinvkExport.Mapped;
  }

  lemma ItemShown(o: Order, i: Item, vatExempt: bool, r: LineRow)
    requires UstSchluesselFor(i.taxRate, vatExempt).Some?
    ensures ShowsItem(r, o, i) <==> exists l :: l in ItemLines(vatExempt)(i) && ToLineRow(o.id)(l) == r
  {
    var lines := ItemLines(vatExempt)(i);
    assert lines[0] in lines;
    if |lines| == 2 { assert lines[1] in lines; }
    if l :| l in lines && ToLineRow(o.id)(l) == r {
      LinesOfItem(i, vatExempt, l);
    }
  }

  // lines.csv holds exactly the items of all paid orders of the period, cancelled ones marked, with their deposits, and
  // one line for each reversal.
  lemma ExportShowsItems(orders: seq<Order>, reversals: seq<Payment>, vatExempt: bool, r: LineRow)
    requires DsfinvkExport.OutcomeOf(orders, reversals, vatExempt).Exported?
    ensures var e := DsfinvkExport.OutcomeOf(orders, reversals, vatExempt).tables;
      r in e.lines <==>
        || (exists o, i :: o in orders && WasPaid(o) && i in o.items && ShowsItem(r, o, i))
        || (exists p :: p in reversals && r == LineRow(p.id, "1", Umsatz, true, 1, p.amount))
  {
    var q := Filter(orders, Qualifies);
    RowsOfBons(q, reversals, vatExempt, BonLines, r);
    QualifyingArePaid(orders);
    forall o | o in q
      ensures r in BonLines(OrderBon(vatExempt)(o)) <==> exists i :: i in o.items && ShowsItem(r, o, i)
    {
      OrderShowsItems(o, vatExempt, r);
    }
    forall p: Payment
      ensures r in BonLines(ReversalBon(vatExempt)(p)) <==> r == LineRow(p.id, "1", Umsatz, true, 1, p.amount)
    {
      var l := ReversalBon(vatExempt)(p).lines[0];
      assert BonLines(ReversalBon(vatExempt)(p)) == [ToLineRow(p.id)(l)];
    }
    hide Qualifies, Filter, FlatMap, BonsOf, OrderBon, ReversalBon, BonLines, ShowsItem, WasPaid;
  }

  lemma TaxShown(o: Order, i: Item, vatExempt: bool, r: LineVatRow)
    requires UstSchluesselFor(i.taxRate, vatExempt).Some?
    ensures ShowsTax(r, o, i, vatExempt) <==> exists l :: l in ItemLines(vatExempt)(i) && ToLineVatRow(o.id)(l) == r
  {
    hide Netto;
    var lines := ItemLines(vatExempt)(i);
    assert lines[0] in lines;
    if |lines| == 2 { assert lines[1] in lines; }
    KeyIsUnique(r.key, i.taxRate, vatExempt);
    KeyIsUnique(r.key, 1900, vatExempt);
    if l :| l in lines && ToLineVatRow(o.id)(l) == r {
      LinesOfItem(i, vatExempt, l);
    }
    if ShowsTax(r, o, i, vatExempt) {
      assert ToLineVatRow(o.id)(lines[0]) == r || (|lines| == 2 && ToLineVatRow(o.id)(lines[1]) == r);
    }
  }

  lemma OrderShowsTax(o: Order, vatExempt: bool, r: LineVatRow)
    requires DsfinvkExport.Mapped(o.items, vatExempt)
    ensures r in BonLinesVat(OrderBon(vatExempt)(o)) <==> exists i :: i in o.items && ShowsTax(r, o, i, vatExempt)
  {
    var b := OrderBon(vatExempt)(o);
    InMap(b.lines, ToLineVatRow(b.id), r);
    forall l: SaleLine
      ensures l in b.lines <==> exists i :: i in o.items && l in ItemLines(vatExempt)(i)
    {
      LinesOfOrder(o, vatExempt, l);
    }
    forall i | i in o.items
      ensures ShowsTax(r, o, i, vatExempt) <==> exists l :: l in ItemLines(vatExempt)(i) && ToLineVatRow(o.id)(l) == r
    {
      TaxShown(o, i, vatExempt, r);
    }
    hide ItemLines, OrderBon, ShowsTax, DsfinvkExport.Mapped, Netto;
  }

  // lines_vat.csv holds exactly the tax of these items and deposits, and of each reversal at the standard rate.
  lemma ExportShowsTax(orders: seq<Order>, reversals: seq<Payment>, vatExempt: bool, r: LineVatRow)
    requires DsfinvkExport.OutcomeOf(orders, reversals, vatExempt).Exported?
    ensures var e := DsfinvkExport.OutcomeOf(orders, reversals, vatExempt).tables;
      r in e.linesVat <==>
        || (exists o, i :: o in orders && WasPaid(o) && i in o.items && ShowsTax(r, o, i, vatExempt))
        || (exists p :: p in reversals && ShowsReversedTax(r, p, vatExempt))
  {
    var q := Filter(orders, Qualifies);
    RowsOfBons(q, reversals, vatExempt, BonLinesVat, r);
    QualifyingArePaid(orders);
    forall o | o in q
      ensures r in BonLinesVat(OrderBon(vatExempt)(o)) <==> exists i :: i in o.items && ShowsTax(r, o, i, vatExempt)
    {
      OrderShowsTax(o, vatExempt, r);
    }
    forall p: Payment
      ensures r in BonLinesVat(ReversalBon(vatExempt)(p)) <==> ShowsReversedTax(r, p, vatExempt)
    {
      ReversalShowsTax(p, vatExempt, r);
    }
    hide Qualifies, Filter, FlatMap, BonsOf, OrderBon, ReversalBon, BonLinesVat, ShowsTax, ShowsReversedTax, WasPaid, Netto;
  }

  ghost predicate ShowsReversedTax(r: LineVatRow, p: Payment, vatExempt: bool) {
    && r.bonId == p.id && r.posZeile == "1" && r.brutto == p.amount && KeyOf(r.key, 1900, vatExempt)
    && r.netto == Netto(r.brutto, if vatExempt then 0 else 1900) && r.ust == r.brutto - r.netto
  }

  lemma ReversalShowsTax(p: Payment, vatExempt: bool, r: LineVatRow)
    ensures r in BonLinesVat(ReversalBon(vatExempt)(p)) <==> ShowsReversedTax(r, p, vatExempt)
  {
    hide Netto;
    var l := ReversalBon(vatExempt)(p).lines[0];
    assert BonLinesVat(ReversalBon(vatExempt)(p)) == [ToLineVatRow(p.id)(l)];
    KeyIsUnique(r.key, 1900, vatExempt);
  }
}
