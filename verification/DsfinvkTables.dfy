// The tables of a DSFinV-K export: row builders, and the loops that assemble them. Amounts are integer cents, tax
// rates hundredths of a percent. The columns modelled are those that identify a row or carry an amount.
module DsfinvkTables {
  import opened Options
  import opened Groups
  import opened VatRounding

  // ----- what is exported -----

  datatype PaymentMethod = Cash | Card | SumupTerminal | SumupOnline | Paypal | GooglePay | ApplePay

  datatype Item = Item(id: string, quantity: int, unitPrice: int, optionsPrice: int, taxRate: nat,
                       depositAmount: int, isRefill: bool, cancelled: bool)

  datatype Payment = Payment(id: string, orderId: string, paymentMethod: PaymentMethod, amount: int,
                             captured: bool, reverses: Option<string>)

  datatype Order = Order(id: string, items: seq<Item>, payments: seq<Payment>)

  // ----- rows -----

  datatype GvTyp = Umsatz | Pfand
  datatype ZahlartTyp = Bar | Unbar | ElZahlungsdienstleister

  datatype LineRow = LineRow(bonId: string, posZeile: string, gvTyp: GvTyp, pStorno: bool, menge: int, stkBr: int)
  datatype LineVatRow = LineVatRow(bonId: string, posZeile: string, key: UstSchluessel, brutto: int, netto: int, ust: int)
  datatype TransactionRow = TransactionRow(bonId: string, bonNr: int, storno: bool, umsBrutto: int)
  datatype TransactionVatRow = TransactionVatRow(bonId: string, key: UstSchluessel, brutto: int, netto: int, ust: int)
  datatype DatapaymentRow = DatapaymentRow(bonId: string, typ: ZahlartTyp, name: string, betrag: int)
  datatype ReferenceRow = ReferenceRow(bonId: string, refBonId: string)
  datatype BusinessCaseRow = BusinessCaseRow(gvTyp: GvTyp, key: UstSchluessel, brutto: int, netto: int, ust: int)
  datatype PaymentRow = PaymentRow(typ: ZahlartTyp, name: string, betrag: int)
  datatype ClosingRow = ClosingRow(startBonId: string, endBonId: string, zahlungen: int, barzahlungen: int)

  datatype Export = Export(closing: ClosingRow, businesscases: seq<BusinessCaseRow>, payment: seq<PaymentRow>,
                           cashPerCurrency: int, transactions: seq<TransactionRow>,
                           transactionsVat: seq<TransactionVatRow>, datapayment: seq<DatapaymentRow>,
                           lines: seq<LineRow>, linesVat: seq<LineVatRow>, references: seq<ReferenceRow>)

  function ZahlartTypOf(m: PaymentMethod): ZahlartTyp {
    match m
    case Cash => Bar
    case Card => Unbar
    case SumupTerminal => Unbar
    case _ => ElZahlungsdienstleister
  }

  function ZahlartNameOf(m: PaymentMethod): string {
    match m
    case Cash => "Bar"
    case Card => "Karte"
    case SumupTerminal => "SumUp Kartenterminal"
    case SumupOnline => "SumUp Online"
    case Paypal => "PayPal"
    case GooglePay => "Google Pay"
    case ApplePay => "Apple Pay"
  }

  // ----- an export as a list of receipts -----

  // One position of a receipt.
  datatype SaleLine = SaleLine(posZeile: string, gvTyp: GvTyp, storno: bool, quantity: int, unitPrice: int,
                               key: UstSchluessel, rate: nat)

  datatype Paid = Paid(paymentMethod: PaymentMethod, amount: int)

  // One receipt: an order, or the reversal of a payment.
  datatype Bon = Bon(id: string, storno: bool, lines: seq<SaleLine>, payments: seq<Paid>)

  // Deposits and reversals are booked at the standard rate, or at 0 percent for an exempt organization.
  function StandardRate(vatExempt: bool): nat {
    if vatExempt then 0 else 1900
  }

  function StandardKey(vatExempt: bool): UstSchluessel {
    if vatExempt then Umsatzsteuerfrei else Allgemein
  }

  predicate ChargesDeposit(item: Item) {
    item.depositAmount > 0 && !item.isRefill
  }

  // The product, and its deposit if one is charged. An unmapped rate has no lines: it makes the export fail.
  function ItemLines(vatExempt: bool): Item -> seq<SaleLine> {
    (item: Item) =>
      match UstSchluesselFor(item.taxRate, vatExempt)
      case None => []
      case Some(key) =>
        [SaleLine(item.id, Umsatz, item.cancelled, item.quantity, item.unitPrice + item.optionsPrice, key, item.taxRate)] +
        if ChargesDeposit(item) then
          [SaleLine(item.id + "-pfand", Pfand, item.cancelled, item.quantity, item.depositAmount,
                    StandardKey(vatExempt), StandardRate(vatExempt))]
        else []
  }

  predicate Original(p: Payment) {
    p.captured && p.reverses.None?
  }

  function ToPaid(p: Payment): Paid {
    Paid(p.paymentMethod, p.amount)
  }

  predicate Qualifies(o: Order) {
    exists i :: 0 <= i < |o.payments| && Original(o.payments[i])
  }

  function OrderBon(vatExempt: bool): Order -> Bon {
    (o: Order) => Bon(o.id, false, FlatMap(o.items, ItemLines(vatExempt)), Map(Filter(o.payments, Original), ToPaid))
  }

  function ReversalBon(vatExempt: bool): Payment -> Bon {
    (p: Payment) => Bon(p.id, true, [SaleLine("1", Umsatz, true, 1, p.amount, StandardKey(vatExempt), StandardRate(vatExempt))],
                        [ToPaid(p)])
  }

  function BonsOf(orders: seq<Order>, reversals: seq<Payment>, vatExempt: bool): seq<Bon> {
    Map(orders, OrderBon(vatExempt)) + Map(reversals, ReversalBon(vatExempt))
  }

  // ----- row builders -----

  function Brutto(l: SaleLine): int {
    l.unitPrice * l.quantity
  }

  function ToLineRow(bonId: string): SaleLine -> LineRow {
    (l: SaleLine) => LineRow(bonId, l.posZeile, l.gvTyp, l.storno, l.quantity, l.unitPrice)
  }

  function ToLineVatRow(bonId: string): SaleLine -> LineVatRow {
    (l: SaleLine) => LineVatRow(bonId, l.posZeile, l.key, Brutto(l), Netto(Brutto(l), l.rate), Ust(Brutto(l), l.rate))
  }

  function ToVatEntry(l: SaleLine): Entry<UstSchluessel> {
    Entry(l.key, l.rate, Brutto(l))
  }

  function ToBusinessEntry(l: SaleLine): Entry<(GvTyp, UstSchluessel)> {
    Entry((l.gvTyp, l.key), l.rate, Brutto(l))
  }

  function ToTransactionVatRow(bonId: string): Group<UstSchluessel> -> TransactionVatRow {
    (g: Group<UstSchluessel>) =>
      TransactionVatRow(bonId, g.key, g.total, Netto(g.total, g.rate), Ust(g.total, g.rate))
  }

  function ToBusinessCaseRow(g: Group<(GvTyp, UstSchluessel)>): BusinessCaseRow {
    BusinessCaseRow(g.key.0, g.key.1, g.total, Netto(g.total, g.rate), Ust(g.total, g.rate))
  }

  function ToDatapaymentRow(bonId: string): Paid -> DatapaymentRow {
    (p: Paid) => DatapaymentRow(bonId, ZahlartTypOf(p.paymentMethod), ZahlartNameOf(p.paymentMethod), p.amount)
  }

  function AmountOf(p: Paid): int {
    p.amount
  }

  function ToPaymentEntry(p: Paid): Entry<ZahlartTyp> {
    Entry(ZahlartTypOf(p.paymentMethod), 0, p.amount)
  }

  function CashAmountOf(p: Paid): int {
    if p.paymentMethod == Cash then p.amount else 0
  }

  // ----- the tables of a list of receipts -----

  function BonLines(b: Bon): seq<LineRow> { Map(b.lines, ToLineRow(b.id)) }

  function BonLinesVat(b: Bon): seq<LineVatRow> { Map(b.lines, ToLineVatRow(b.id)) }

  function BonTransactionsVat(b: Bon): seq<TransactionVatRow> {
    Map(GroupAll(Map(b.lines, ToVatEntry)), ToTransactionVatRow(b.id))
  }

  function BonDatapayment(b: Bon): seq<DatapaymentRow> { Map(b.payments, ToDatapaymentRow(b.id)) }

  function BonBusinessEntries(b: Bon): seq<Entry<(GvTyp, UstSchluessel)>> { Map(b.lines, ToBusinessEntry) }

  function BonPayments(b: Bon): seq<Paid> { b.payments }

  function Transactions(bons: seq<Bon>): seq<TransactionRow> {
    seq(|bons|, i requires 0 <= i < |bons| =>
      TransactionRow(bons[i].id, i + 1, bons[i].storno, Sum(bons[i].payments, AmountOf)))
  }

  // The name of a payment type is that of the last payment of that type.
  function LastName(payments: seq<Paid>, typ: ZahlartTyp): string {
    if payments == [] then ""
    else
      var p := payments[|payments| - 1];
      if ZahlartTypOf(p.paymentMethod) == typ then ZahlartNameOf(p.paymentMethod) else LastName(payments[..|payments| - 1], typ)
  }

  function ToPaymentRow(payments: seq<Paid>): Group<ZahlartTyp> -> PaymentRow {
    (g: Group<ZahlartTyp>) => PaymentRow(g.key, LastName(payments, g.key), g.total)
  }

  function PaymentRows(payments: seq<Paid>): seq<PaymentRow> {
    Map(GroupAll(Map(payments, ToPaymentEntry)), ToPaymentRow(payments))
  }

  function BusinessCases(bons: seq<Bon>): seq<BusinessCaseRow> {
    Map(GroupAll(FlatMap(bons, BonBusinessEntries)), ToBusinessCaseRow)
  }

  function ToReference(p: Payment): ReferenceRow {
    ReferenceRow(p.id, p.orderId)
  }

  function ExportOf(bons: seq<Bon>, reversals: seq<Payment>): Export
    requires bons != []
  {
    var payments := FlatMap(bons, BonPayments);
    Export(ClosingRow(bons[0].id, bons[|bons| - 1].id, Sum(payments, AmountOf), Sum(payments, CashAmountOf)),
           BusinessCases(bons),
           PaymentRows(payments),
           Sum(payments, CashAmountOf),
           Transactions(bons),
           FlatMap(bons, BonTransactionsVat),
           FlatMap(bons, BonDatapayment),
           FlatMap(bons, BonLines),
           FlatMap(bons, BonLinesVat),
           Map(reversals, ToReference))
  }
}
