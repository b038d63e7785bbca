// The tables of an export foot against each other, in total and receipt by receipt.
module DsfinvkFooting {
  import opened Options
  import opened Groups
  import opened VatRounding
  import opened DsfinvkTables
  import DsfinvkExport

  // All rows of a table, or those of one receipt.
  datatype Scope = All | Only(bonId: string) {
    predicate Has(id: string) {
      All? || bonId == id
    }
  }

  // ----- the amount columns -----

  function LineGross(scope: Scope): LineRow -> int { (r: LineRow) => if scope.Has(r.bonId) then r.menge * r.stkBr else 0 }

  function PosBrutto(scope: Scope): LineVatRow -> int { (r: LineVatRow) => if scope.Has(r.bonId) then r.brutto else 0 }

  function PosNetto(r: LineVatRow): int { r.netto }

  function BonBrutto(scope: Scope): TransactionVatRow -> int { (r: TransactionVatRow) => if scope.Has(r.bonId) then r.brutto else 0 }

  function UmsBrutto(scope: Scope): TransactionRow -> int { (r: TransactionRow) => if scope.Has(r.bonId) then r.umsBrutto else 0 }

  function BasiswaehBetrag(scope: Scope): DatapaymentRow -> int { (r: DatapaymentRow) => if scope.Has(r.bonId) then r.betrag else 0 }

  function ZUmsBrutto(r: BusinessCaseRow): int { r.brutto }

  function ZahlartBetrag(r: PaymentRow): int { r.betrag }

  // ----- what the receipts say -----

  function BonTurnover(scope: Scope): Bon -> int { (b: Bon) => if scope.Has(b.id) then Sum(b.lines, Brutto) else 0 }

  function BonPaid(scope: Scope): Bon -> int { (b: Bon) => if scope.Has(b.id) then Sum(b.payments, AmountOf) else 0 }

  // The gross turnover of an item: its price with options, and its deposit where one is charged.
  function ItemTurnover(item: Item): int {
    (item.unitPrice + item.optionsPrice) * item.quantity + if ChargesDeposit(item) then item.depositAmount * item.quantity else 0
  }

  // The turnover of an order's receipt is the turnover of its items, cancelled ones included.
  lemma OrderTurnover(o: Order, vatExempt: bool)
    requires DsfinvkExport.Mapped(o.items, vatExempt)
    ensures Sum(OrderBon(vatExempt)(o).lines, Brutto) == Sum(o.items, ItemTurnover)
  {
    forall i | 0 <= i < |o.items|
      ensures Sum(ItemLines(vatExempt)(o.items[i]), Brutto) == ItemTurnover(o.items[i])
    {
      var lines := ItemLines(vatExempt)(o.items[i]);
      SumOneOrTwo(lines);
    }
    SumFlatMap(o.items, ItemLines(vatExempt), Brutto, ItemTurnover);
  }

  lemma SumOneOrTwo(lines: seq<SaleLine>)
    requires 1 <= |lines| <= 2
    ensures Sum(lines, Brutto) == Brutto(lines[0]) + if |lines| == 2 then Brutto(lines[1]) else 0
  {
  }

  // ----- turnover -----

  lemma BonLinesFoot(b: Bon, scope: Scope)
    ensures Sum(BonLines(b), LineGross(scope)) == BonTurnover(scope)(b)
  {
    SumMap(b.lines, ToLineRow(b.id), LineGross(All), Brutto);
    SumWhen(BonLines(b), scope.Has(b.id), LineGross(scope), LineGross(All));
  }

  lemma BonLinesVatFoot(b: Bon, scope: Scope)
    ensures Sum(BonLinesVat(b), PosBrutto(scope)) == BonTurnover(scope)(b)
  {
    hide Netto;
    SumMap(b.lines, ToLineVatRow(b.id), PosBrutto(All), Brutto);
    SumWhen(BonLinesVat(b), scope.Has(b.id), PosBrutto(scope), PosBrutto(All));
  }

  lemma BonTransactionsVatFoot(b: Bon, scope: Scope)
    ensures Sum(BonTransactionsVat(b), BonBrutto(scope)) == BonTurnover(scope)(b)
  {
    hide Netto, HoldsKeysOf, TotalsOf, Sum;
    var entries := Map(b.lines, ToVatEntry);
    GroupsFoot(entries);
    SumMap(b.lines, ToVatEntry, Amount(), Brutto);
    hide GroupAll, Brutto;
    SumMap(GroupAll(entries), ToTransactionVatRow(b.id), BonBrutto(All), Total());
    SumWhen(BonTransactionsVat(b), scope.Has(b.id), BonBrutto(scope), BonBrutto(All));
  }

  lemma BonDatapaymentFoot(b: Bon, scope: Scope)
    ensures Sum(BonDatapayment(b), BasiswaehBetrag(scope)) == BonPaid(scope)(b)
  {
    SumMap(b.payments, ToDatapaymentRow(b.id), BasiswaehBetrag(All), AmountOf);
    SumWhen(BonDatapayment(b), scope.Has(b.id), BasiswaehBetrag(scope), BasiswaehBetrag(All));
  }

  lemma BusinessCasesFoot(bons: seq<Bon>)
    ensures Sum(BusinessCases(bons), ZUmsBrutto) == Sum(bons, BonTurnover(All))
  {
    hide Netto, HoldsKeysOf, TotalsOf, GroupAll;
    forall i | 0 <= i < |bons|
      ensures Sum(BonBusinessEntries(bons[i]), Amount()) == BonTurnover(All)(bons[i])
    {
      SumMap(bons[i].lines, ToBusinessEntry, Amount(), Brutto);
    }
    SumFlatMap(bons, BonBusinessEntries, Amount(), BonTurnover(All));
    var entries := FlatMap(bons, BonBusinessEntries);
    GroupsFoot(entries);
    hide Sum, FlatMap;
    SumMap(GroupAll(entries), ToBusinessCaseRow, ZUmsBrutto, Total());
  }

  // Turnover: the gross sums of lines.csv, lines_vat.csv and transactions_vat.csv agree with the turnover of the
  // receipts, in total and for each receipt; the sum of businesscases.csv agrees with them in total.
  lemma TurnoverFoots(bons: seq<Bon>, reversals: seq<Payment>, scope: Scope)
    requires bons != []
    ensures var e := ExportOf(bons, reversals);
      && Sum(e.lines, LineGross(scope)) == Sum(bons, BonTurnover(scope))
      && Sum(e.linesVat, PosBrutto(scope)) == Sum(bons, BonTurnover(scope))
      && Sum(e.transactionsVat, BonBrutto(scope)) == Sum(bons, BonTurnover(scope))
      && Sum(e.businesscases, ZUmsBrutto) == Sum(bons, BonTurnover(All))
  {
    hide BonLines, BonLinesVat, BonTransactionsVat, BusinessCases, Sum, LineGross, PosBrutto, BonBrutto, BonTurnover;
    forall i | 0 <= i < |bons|
      ensures Sum(BonLines(bons[i]), LineGross(scope)) == BonTurnover(scope)(bons[i])
      ensures Sum(BonLinesVat(bons[i]), PosBrutto(scope)) == BonTurnover(scope)(bons[i])
      ensures Sum(BonTransactionsVat(bons[i]), BonBrutto(scope)) == BonTurnover(scope)(bons[i])
    {
      BonLinesFoot(bons[i], scope);
      BonLinesVatFoot(bons[i], scope);
      BonTransactionsVatFoot(bons[i], scope);
    }
    SumFlatMap(bons, BonLines, LineGross(scope), BonTurnover(scope));
    SumFlatMap(bons, BonLinesVat, PosBrutto(scope), BonTurnover(scope));
    SumFlatMap(bons, BonTransactionsVat, BonBrutto(scope), BonTurnover(scope));
    BusinessCasesFoot(bons);
  }

  // ----- payments -----

  lemma PaymentsFlatten(bons: seq<Bon>, scope: Scope)
    ensures Sum(FlatMap(bons, BonPayments), AmountOf) == Sum(bons, BonPaid(All))
    ensures Sum(FlatMap(bons, BonDatapayment), BasiswaehBetrag(scope)) == Sum(bons, BonPaid(scope))
    ensures Sum(Transactions(bons), UmsBrutto(scope)) == Sum(bons, BonPaid(scope))
  {
    forall i | 0 <= i < |bons|
      ensures Sum(BonDatapayment(bons[i]), BasiswaehBetrag(scope)) == BonPaid(scope)(bons[i])
    {
      BonDatapaymentFoot(bons[i], scope);
    }
    SumFlatMap(bons, BonPayments, AmountOf, BonPaid(All));
    SumFlatMap(bons, BonDatapayment, BasiswaehBetrag(scope), BonPaid(scope));
    SumEqual(Transactions(bons), bons, UmsBrutto(scope), BonPaid(scope));
  }

  lemma PaymentRowsSum(payments: seq<Paid>)
    ensures Sum(PaymentRows(payments), ZahlartBetrag) == Sum(payments, AmountOf)
  {
    hide LastName, HoldsKeysOf, TotalsOf, GroupAll;
    var entries := Map(payments, ToPaymentEntry);
    GroupsFoot(entries);
    SumMap(payments, ToPaymentEntry, Amount(), AmountOf);
    SumMap(GroupAll(entries), ToPaymentRow(payments), ZahlartBetrag, Total());
  }

  // One row per payment type; cash is the type Bar and nothing else.
  lemma PaymentRowsCash(payments: seq<Paid>)
    ensures var rows := PaymentRows(payments);
      && (forall i, j :: 0 <= i < j < |rows| ==> rows[i].typ != rows[j].typ)
      && (forall i :: 0 <= i < |rows| && rows[i].typ == Bar ==> rows[i].betrag == Sum(payments, CashAmountOf))
      && ((forall i :: 0 <= i < |rows| ==> rows[i].typ != Bar) ==> Sum(payments, CashAmountOf) == 0)
  {
    hide LastName, GroupAll, Booked, Sum, Find, TotalsOf;
    var entries, rows := Map(payments, ToPaymentEntry), PaymentRows(payments);
    var groups := GroupAll(entries);
    GroupsFoot(entries);
    BookedUnder(entries, Bar);
    SumMap(payments, ToPaymentEntry, AmountAt(Bar), CashAmountOf);
    assert forall i :: 0 <= i < |rows| ==> rows[i].typ == groups[i].key && rows[i].betrag == groups[i].total;
  }

  // Payments: the closing total is the sum of payment.csv, of datapayment.csv and of the receipts' totals, the last two
  // also receipt by receipt; the closing's cash is the cash per currency and the Bar row of payment.csv, or 0 without one.
  lemma PaymentsFoot(bons: seq<Bon>, reversals: seq<Payment>, scope: Scope)
    requires bons != []
    ensures var e := ExportOf(bons, reversals);
      && e.closing.zahlungen == Sum(e.payment, ZahlartBetrag) == Sum(e.datapayment, BasiswaehBetrag(All)) == Sum(e.transactions, UmsBrutto(All))
      && Sum(e.datapayment, BasiswaehBetrag(scope)) == Sum(e.transactions, UmsBrutto(scope))
      && e.closing.barzahlungen == e.cashPerCurrency
      && (forall i :: 0 <= i < |e.payment| && e.payment[i].typ == Bar ==> e.payment[i].betrag == e.cashPerCurrency)
      && ((forall i :: 0 <= i < |e.payment| ==> e.payment[i].typ != Bar) ==> e.cashPerCurrency == 0)
  {
    hide PaymentRows, Sum, Transactions, FlatMap;
    PaymentsFlatten(bons, All);
    PaymentsFlatten(bons, scope);
    PaymentRowsSum(FlatMap(bons, BonPayments));
    PaymentRowsCash(FlatMap(bons, BonPayments));
  }

  // ----- the totals in terms of what was sold and paid -----

  function OriginalAmount(p: Payment): int { if p.captured && p.reverses.None? then p.amount else 0 }

  function AmountPaid(o: Order): int { Sum(o.payments, OriginalAmount) }

  function Turnover(o: Order): int { Sum(o.items, ItemTurnover) }

  function ReversalAmount(p: Payment): int { p.amount }

  // The receipt of an order shows its captured payments, reversals left aside.
  lemma OrderPaid(o: Order, vatExempt: bool)
    ensures Sum(OrderBon(vatExempt)(o).payments, AmountOf) == AmountPaid(o)
  {
    var originals := Filter(o.payments, Original);
    SumMap(originals, ToPaid, AmountOf, ReversalAmount);
    SumFilter(o.payments, Original, ReversalAmount, OriginalAmount);
  }

  lemma ReversalBonTotals(p: Payment, vatExempt: bool)
    ensures Sum(ReversalBon(vatExempt)(p).lines, Brutto) == p.amount == Sum(ReversalBon(vatExempt)(p).payments, AmountOf)
  {
  }

  // The export's turnover is the turnover of the orders plus the (negative) reversals, and its payment total is what was
  // paid on the orders plus the reversals.
  lemma ExportTotals(orders: seq<Order>, reversals: seq<Payment>, vatExempt: bool)
    requires orders != [] || reversals != []
    requires forall i :: 0 <= i < |orders| ==> DsfinvkExport.Mapped(orders[i].items, vatExempt)
    ensures var e := ExportOf(BonsOf(orders, reversals, vatExempt), reversals);
      && Sum(e.linesVat, PosBrutto(All)) == Sum(orders, Turnover) + Sum(reversals, ReversalAmount)
      && e.closing.zahlungen == Sum(orders, AmountPaid) + Sum(reversals, ReversalAmount)
  {
    var bons := BonsOf(orders, reversals, vatExempt);
    TurnoverFoots(bons, reversals, All);
    PaymentsFlatten(bons, All);
    hide OrderBon, ReversalBon, Turnover, AmountPaid, FlatMap;
    forall i | 0 <= i < |orders|
      ensures BonTurnover(All)(OrderBon(vatExempt)(orders[i])) == Turnover(orders[i])
      ensures BonPaid(All)(OrderBon(vatExempt)(orders[i])) == AmountPaid(orders[i])
    {
      BonOfOrder(orders[i], vatExempt);
    }
    forall i | 0 <= i < |reversals|
      ensures BonTurnover(All)(ReversalBon(vatExempt)(reversals[i])) == ReversalAmount(reversals[i])
      ensures BonPaid(All)(ReversalBon(vatExempt)(reversals[i])) == ReversalAmount(reversals[i])
    {
      ReversalBonTotals(reversals[i], vatExempt);
    }
    SumMap(orders, OrderBon(vatExempt), BonTurnover(All), Turnover);
    SumMap(orders, OrderBon(vatExempt), BonPaid(All), AmountPaid);
    SumMap(reversals, ReversalBon(vatExempt), BonTurnover(All), ReversalAmount);
    SumMap(reversals, ReversalBon(vatExempt), BonPaid(All), ReversalAmount);
    SumConcat(Map(orders, OrderBon(vatExempt)), Map(reversals, ReversalBon(vatExempt)), BonTurnover(All));
    SumConcat(Map(orders, OrderBon(vatExempt)), Map(reversals, ReversalBon(vatExempt)), BonPaid(All));
  }

  lemma BonOfOrder(o: Order, vatExempt: bool)
    requires DsfinvkExport.Mapped(o.items, vatExempt)
    ensures BonTurnover(All)(OrderBon(vatExempt)(o)) == Turnover(o) && BonPaid(All)(OrderBon(vatExempt)(o)) == AmountPaid(o)
  {
    OrderTurnover(o, vatExempt);
    OrderPaid(o, vatExempt);
  }
}
