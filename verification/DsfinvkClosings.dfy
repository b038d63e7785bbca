// One export seen from both sides: the period and closing that it records, and the tables of its archive.
module DsfinvkClosings {
  import opened Options
  import opened Groups
  import opened DsfinvkTables
  import DsfinvkExport
  import ClosingPeriods
  import CsvWriter

  // Orders and reversals with the till, event and creation time by which they are queried.
  datatype StoredOrder = StoredOrder(order: Order, device: nat, event: nat, createdAt: int)
  datatype StoredReversal = StoredReversal(payment: Payment, device: nat, event: nat, createdAt: int)

  // A file of the archive as it is handed to the CSV writer.
  datatype Sheet = Sheet(columns: seq<CsvWriter.Column>, rows: seq<CsvWriter.Row>) {
    function Text(): CsvWriter.Result<string> {
      CsvWriter.WriteCsv(columns, rows)
    }
  }

  // What the database holds, whether the organization is tax-exempt, and the files that the tables become together with
  // the descriptive columns; these can be any.
  datatype Stored = Stored(orders: seq<StoredOrder>, reversals: seq<StoredReversal>, vatExempt: bool, sheets: Export -> seq<Sheet>)

  datatype Request = Request(device: nat, event: nat, found: bool, eventStart: Option<int>, now: int)

  function OrderReceipt(o: StoredOrder): ClosingPeriods.Bon { ClosingPeriods.Bon(o.order.id, o.device, o.event, o.createdAt) }

  function ReversalReceipt(r: StoredReversal): ClosingPeriods.Bon { ClosingPeriods.Bon(r.payment.id, r.device, r.event, r.createdAt) }

  function SeenAs(o: StoredOrder): ClosingPeriods.SeenOrder { ClosingPeriods.SeenOrder(OrderReceipt(o), Qualifies(o.order)) }

  function OrderIn(o: StoredOrder): Order { o.order }

  function PaymentIn(r: StoredReversal): Payment { r.payment }

  function ReceiptId(b: ClosingPeriods.Bon): string { b.id }

  function BonIdOf(r: TransactionRow): string { r.bonId }

  predicate Between(req: Request, start: int, device: nat, event: nat, createdAt: int) {
    device == req.device && event == req.event && start <= createdAt <= req.now
  }

  function OrderBetween(req: Request, start: int): StoredOrder -> bool {
    (o: StoredOrder) => Between(req, start, o.device, o.event, o.createdAt)
  }

  function ReversalBetween(req: Request, start: int): StoredReversal -> bool {
    (r: StoredReversal) => Between(req, start, r.device, r.event, r.createdAt)
  }

  // The queries of the export.
  function OrdersBetween(db: Stored, req: Request, start: int): seq<Order> {
    Map(Filter(db.orders, OrderBetween(req, start)), OrderIn)
  }

  function ReversalsBetween(db: Stored, req: Request, start: int): seq<Payment> {
    Map(Filter(db.reversals, ReversalBetween(req, start)), PaymentIn)
  }

  function TablesOf(db: Stored, req: Request, start: int): DsfinvkExport.Outcome {
    DsfinvkExport.OutcomeOf(OrdersBetween(db, req, start), ReversalsBetween(db, req, start), db.vatExempt)
  }

  function StartOf(closings: seq<ClosingPeriods.Closing>, req: Request): int {
    ClosingPeriods.StartFrom(closings, req.device, req.eventStart)
  }

  predicate AllWritten(sheets: seq<Sheet>) {
    forall i :: 0 <= i < |sheets| ==> sheets[i].Text().Ok?
  }

  predicate Builds(db: Stored, tables: DsfinvkExport.Outcome) {
    !tables.UnmappedRate? && (tables.Exported? ==> AllWritten(db.sheets(tables.tables)))
  }

  // The archive is built from the tables, unless a rate has no key or the writer throws on a file.
  function CallFor(closings: seq<ClosingPeriods.Closing>, db: Stored, req: Request): ClosingPeriods.Call {
    ClosingPeriods.Call(req.device, req.event, req.found, req.eventStart, req.now, Map(db.orders, SeenAs),
                        Map(db.reversals, ReversalReceipt),
                        Builds(db, TablesOf(db, req, StartOf(closings, req))))
  }

  // ----- the receipts of both sides -----

  function QualifyingStored(o: StoredOrder): bool { Qualifies(o.order) }

  function QualifyingBetween(req: Request, start: int): StoredOrder -> bool {
    (o: StoredOrder) => Qualifies(o.order) && Between(req, start, o.device, o.event, o.createdAt)
  }

  function StoredOrderId(o: StoredOrder): string { o.order.id }

  function StoredReversalId(r: StoredReversal): string { r.payment.id }

  lemma ClosingOrderIds(db: Stored, req: Request, call: ClosingPeriods.Call, start: int)
    requires call.device == req.device && call.event == req.event && call.now == req.now && call.orders == Map(db.orders, SeenAs)
    ensures var keep := ClosingPeriods.InPeriod(call, start);
      Map(Filter(Map(Filter(call.orders, ClosingPeriods.Qualifying), ClosingPeriods.BonOf), keep), ReceiptId) ==
        Map(Filter(db.orders, QualifyingBetween(req, start)), StoredOrderId)
  {
    hide Qualifies;
    var keep := ClosingPeriods.InPeriod(call, start);
    var qualifying := Filter(db.orders, QualifyingStored);
    FilterMap(db.orders, SeenAs, ClosingPeriods.Qualifying, QualifyingStored);
    MapMap(qualifying, SeenAs, ClosingPeriods.BonOf, OrderReceipt);
    FilterMap(qualifying, OrderReceipt, keep, OrderBetween(req, start));
    FilterTwice(db.orders, QualifyingStored, OrderBetween(req, start), QualifyingBetween(req, start));
    MapMap(Filter(db.orders, QualifyingBetween(req, start)), OrderReceipt, ReceiptId, StoredOrderId);
  }

  lemma ClosingReversalIds(db: Stored, req: Request, call: ClosingPeriods.Call, start: int)
    requires call.device == req.device && call.event == req.event && call.now == req.now && call.reversals == Map(db.reversals, ReversalReceipt)
    ensures Map(Filter(call.reversals, ClosingPeriods.InPeriod(call, start)), ReceiptId) ==
      Map(ReversalsBetween(db, req, start), DsfinvkExport.PaymentId)
  {
    var between := Filter(db.reversals, ReversalBetween(req, start));
    FilterMap(db.reversals, ReversalReceipt, ClosingPeriods.InPeriod(call, start), ReversalBetween(req, start));
    MapMap(between, ReversalReceipt, ReceiptId, StoredReversalId);
    MapMap(between, PaymentIn, DsfinvkExport.PaymentId, StoredReversalId);
  }

  lemma TableOrderIds(db: Stored, req: Request, start: int)
    ensures Map(Filter(OrdersBetween(db, req, start), Qualifies), DsfinvkExport.OrderId) ==
      Map(Filter(db.orders, QualifyingBetween(req, start)), StoredOrderId)
  {
    hide Qualifies;
    var between := Filter(db.orders, OrderBetween(req, start));
    FilterMap(between, OrderIn, Qualifies, QualifyingStored);
    FilterTwice(db.orders, OrderBetween(req, start), QualifyingStored, QualifyingBetween(req, start));
    MapMap(Filter(db.orders, QualifyingBetween(req, start)), OrderIn, DsfinvkExport.OrderId, StoredOrderId);
  }

  // The receipts that a closing records, in order.
  lemma ClosingReceipts(closings: seq<ClosingPeriods.Closing>, db: Stored, req: Request)
    ensures var start := StartOf(closings, req);
      Map(ClosingPeriods.Exported(closings, CallFor(closings, db, req)), ReceiptId) ==
        Map(Filter(OrdersBetween(db, req, start), Qualifies), DsfinvkExport.OrderId) +
        Map(ReversalsBetween(db, req, start), DsfinvkExport.PaymentId)
  {
    var call, start := CallFor(closings, db, req), StartOf(closings, req);
    var keep := ClosingPeriods.InPeriod(call, start);
    assert ClosingPeriods.PeriodStart(closings, call) == start;
    ClosingOrderIds(db, req, call, start);
    ClosingReversalIds(db, req, call, start);
    TableOrderIds(db, req, start);
    hide Filter, Qualifies, OrdersBetween, ReversalsBetween, CallFor, ClosingPeriods.PeriodStart, StartOf;
    MapAppend(Filter(Map(Filter(call.orders, ClosingPeriods.Qualifying), ClosingPeriods.BonOf), keep), Filter(call.reversals, keep), ReceiptId);
  }

  lemma TransactionIds(orders: seq<Order>, reversals: seq<Payment>, vatExempt: bool)
    ensures Map(Transactions(BonsOf(orders, reversals, vatExempt)), BonIdOf) ==
      Map(orders, DsfinvkExport.OrderId) + Map(reversals, DsfinvkExport.PaymentId)
  {
    hide OrderBon, ReversalBon, Sum, BonsOf;
    DsfinvkExport.BonIds(orders, reversals, vatExempt);
    var bons := BonsOf(orders, reversals, vatExempt);
    assert forall i :: 0 <= i < |bons| ==> Map(Transactions(bons), BonIdOf)[i] == BonIdOf(Transactions(bons)[i]) == bons[i].id;
  }

  // The ids of the paid orders and of the reversals that the queries find.
  function ReceiptIds(db: Stored, req: Request, start: int): seq<string> {
    Map(Filter(OrdersBetween(db, req, start), Qualifies), DsfinvkExport.OrderId) + Map(ReversalsBetween(db, req, start), DsfinvkExport.PaymentId)
  }

  // One export, over any closings and any database: it finds its event and till or changes nothing; it has nothing to record exactly if it has nothing to put into
  // tables; it fails, but keeps its closing, exactly if a rate has no key or the writer throws on one of the files;
  // and otherwise all files are written and transactions.csv lists exactly the receipts of the closing, in order.
  lemma ClosingMatchesArchive(closings: seq<ClosingPeriods.Closing>, db: Stored, req: Request)
    ensures var (after, outcome) := ClosingPeriods.ExportStep(closings, CallFor(closings, db, req));
      var tables := TablesOf(db, req, StartOf(closings, req));
      && (outcome.NotFound? <==> !req.found)
      && (outcome.NothingToExport? <==> req.found && tables.NothingToExport?)
      && (outcome.BuildFailed? <==> req.found && (tables.UnmappedRate? || (tables.Exported? && !AllWritten(db.sheets(tables.tables)))))
      && (outcome.Archive? ==> tables.Exported? && AllWritten(db.sheets(tables.tables)))
      && (outcome.NotFound? || outcome.NothingToExport? ==> after == closings)
      && (outcome.BuildFailed? ==> exists c :: after == closings + [c] && Map(c.bons, ReceiptId) == ReceiptIds(db, req, StartOf(closings, req)))
      && (outcome.Archive? ==> after == closings + [outcome.closing])
      && (outcome.Archive? ==> tables.Exported? && Map(tables.tables.transactions, BonIdOf) == Map(outcome.closing.bons, ReceiptId))
  {
    var start := StartOf(closings, req);
    var orders, reversals := OrdersBetween(db, req, start), ReversalsBetween(db, req, start);
    var exported := ClosingPeriods.Exported(closings, CallFor(closings, db, req));
    ClosingReceipts(closings, db, req);
    TransactionIds(Filter(orders, Qualifies), reversals, db.vatExempt);
    hide Filter, Qualifies, OrdersBetween, ReversalsBetween, StartOf, BonsOf, Transactions, DsfinvkExport.Mapped, Sum, FlatMap,
      ClosingPeriods.Exported, ClosingPeriods.PeriodStart, Sheet.Text;
    assert |exported| == |Filter(orders, Qualifies)| + |reversals|;
    var c := ClosingPeriods.NextClosing(closings, CallFor(closings, db, req));
    assert c.bons == exported;
  }
}
