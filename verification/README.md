# Verified model of the openEOS till server

openEOS runs the tills of festivals: it opens online shops at local opening hours, takes orders and payments on devices,
exports fiscal data (DSFinV-K v2.4) and synchronizes offline boxes with a central installation. This project models the
parts of it that carry state or arithmetic and proves what they keep. `dafny verify dfyconfig.toml` checks all of it.

Amounts are integer cents, tax rates hundredths of a percent, times whole minutes, calendar days are counted from
1970-01-01. Database saves are state updates; clocks, request contents, signing results and what the network does are
parameters, so the results hold for all of them.

| files | part of the system |
|---|---|
| `Decimal`, `Calendar`, `ZoneClock`, `EventSchedule`, `ShopHours` | calendar days and shop hours in zones with clock changes |
| `CsvWriter`, `CsvReader`, `CsvRoundTrip` | the CSV writer, and a reader for the format that `index.xml` declares |
| `VatRounding`, `DsfinvkTables`, `DsfinvkExport`, `DsfinvkContents`, `DsfinvkFooting`, `DsfinvkLines` | the tables of an export, what they contain and how they foot |
| `VatAllocation` | largest-remainder scaling of tax splits to a paid amount |
| `ClosingNumbers`, `ClosingPeriods`, `DsfinvkClosings` | closing numbers under concurrency, closing periods over serial runs, closings against their archives |
| `DeviceOrders`, `DeviceApi`, `DeviceRuns`, `DeviceStock`, `DevicePayments`, `DeviceRequests`, `DeviceSplits` | orders, payments, cancellation and stock |
| `SyncOutbox`, `SyncDelivery` | the transactional outbox of a box, and its delivery over an unreliable link |
| `Options`, `Groups` | absent values; sums, mapping, filtering and grouping |

## What the proofs found

- A shop window whose start or end is skipped by a clock change is the window of the readings moved by that change: back
  if the reading, taken as UTC, lies before the change, forward otherwise (`ZoneClock.ResolveMeans`). It has positive
  length exactly if the moved ends are in order (`EventSchedule.WindowsAreNonEmpty`), and on both sides of Greenwich it can
  end before it starts (`ShopHours.SkippedEndpointInvertsWindow`).
- Of a repeated hour, the pass that `fromWallClock` does not choose follows the chosen one: there a shop can be closed
  although an entry covers the time, and open although none does. `EventSchedule.PassedOverEntries` says for which entries,
  `ZoneClock.ResolvesUnlessPassedOver` at which instants. At all other instants opening hours are exact.
- The next opening is the earliest at all times exactly if windows are listed by their start, repetitions aside
  (`ShopHours.NextOpeningIsEarliest`); entered windows need not be (`ShopHours.UnorderedEntriesMissTheEarliestOpening`).
- The CSV header is never encapsulated, so a table reads back if and only if no column name contains a delimiter, quote
  or line break (`CsvRoundTrip.WrittenTableReadsBack`).
- `index.xml` contradicts itself: each table declares the decimal symbol `,`
  (`src/modules/dsfinvk/dsfinvk-index-xml-builder.ts:34`), each numeric column the decimal character `.`
  (`src/modules/dsfinvk/dsfinvk-index-xml-builder.ts:17`). The writer writes `,`, and the reader of this model reads that.
- The comment at `src/modules/dsfinvk/dsfinvk-row-builders.ts:269-276` says that `businesscases.csv` is rounded per line
  before summing. The code sums first and rounds once; the model follows the code. When both agree, and by how much they
  differ otherwise, is `DsfinvkLines.BusinessCaseRounding`; `DsfinvkLines.BusinessCaseNetIsNotTheSumOfLines` is an input on
  which they differ.
- A tax-exempt organization books every line under the tax-free key but still splits it at the item's own rate, and the
  tax-free group of a receipt at the rate of the receipt's first line. Both show tax unless it rounds to nothing
  (`DsfinvkLines.ExemptLinesShowTaxIff`, `DsfinvkLines.ExemptReceiptShowsTaxIff`); an item of 119 cents at 19 percent does
  (`DsfinvkLines.ExemptOrganizationStillSplitsTax`).
- Scaling tax splits meets its target if and only if they add up to it already, or they add up to something other than
  zero and their shares rounded down do not exceed the target (`VatAllocation.AllocateToAmount`). Splits of one sign always
  do, unless all of them are zero (`VatAllocation.OneSignMeetsIff`), as on an order of free items with a deposit; splits of
  mixed sign need not (`VatAllocation.MixedSignsMissTheTarget`).
- A receipt is in as many closings of its till as there are exports whose period covers its creation and that see it, an
  order as a qualifying one (`ClosingPeriods.ExportedAsOftenAsCovered`). Both ends of a period are included, so a receipt
  created at the very instant of a closing is in two if the till's next closing is for the same event and sees it too
  (`ClosingPeriods.BoundaryReceiptIsExportedTwice`), and at other instants never
  (`ClosingPeriods.ExportedTwiceOnlyAtBoundary`). An order that is paid only after the closing that covers its creation is
  never exported (`ClosingPeriods.MissedReceiptStaysMissed`). If the archive of a closing cannot be built, its receipts stay
  with that closing.
- The comment at `src/modules/dsfinvk/dsfinvk-export.service.ts:484-491` promises that a failure on one till does not cost
  the others their allocation. That holds for the tills before it, whose archives are nevertheless thrown away; the tills
  after it are not exported (`ClosingPeriods.EventExportIsPerTill`, `ClosingPeriods.EventFailsIff`).
- An order created without items drops its tip (`DevicePayments.CreatedOrderTotals`).
- The payment status is the comparison of paid amount and total, except exactly on orders whose creation failed and on
  which no payment has been accepted since: these say unpaid with nothing to pay (`DevicePayments.StatusDepartsIff`).
- No item is ever paid beyond its quantity if and only if every accepted split request names for each item at most its
  unpaid quantity in all (`DeviceSplits.QuantitiesAreRespectedIff`); the handler checks each entry by itself, so an item
  named twice can be paid twice (`DeviceSplits.ItemNamedTwiceIsOverpaid`).
- Payments on cancelled orders are accepted, and complete the order exactly if they bring the paid amount to the total
  (`DevicePayments.PayingCancelledOrderCompletesIff`, `DevicePayments.PayingCompletesCancelledOrder`).

## Model

| member | source | states |
|---|---|---|
| Calendar.CivilDateReadsBack | src/common/utils/event-schedule.util.ts:107-120 | for every day number, the civil date that `getUTC*` gives reads back through `Date.UTC` as that day, except exactly for the years 0 to 99, which `Date.UTC` moves to 1900 to 1999 |
| Calendar.DayNumberReadsBack | src/common/utils/event-schedule.util.ts:107-120 | every existing date of another year is the civil date of its own day number |
| Calendar.CivilDatesFollow | src/common/utils/event-schedule.util.ts:107-120 | the civil dates of consecutive days follow each other as in the Gregorian calendar, month lengths and leap years included, from 1970-01-01 on and back |
| ZoneClock.FromWallClock | src/common/utils/event-schedule.util.ts:85-104 | the loop of at most two corrections reaches an instant that shows the requested wall time if and only if some instant shows it |
| ZoneClock.ResolveShows | src/common/utils/event-schedule.util.ts:85-104 | two corrections are a right inverse of the wall clock exactly on the wall times that no clock change skips, on either side of a change and for either offset sign |
| ZoneClock.ResolveIncreases | src/common/utils/event-schedule.util.ts:85-104 | resolved instants are strictly increasing in the wall time, repeated wall times included |
| ZoneClock.UnambiguousResolves | src/common/utils/event-schedule.util.ts:52-104 | an instant with an unambiguous wall time is the one its wall time resolves to |
| ZoneClock.ResolveMeans | src/common/utils/event-schedule.util.ts:85-104 | every wall time, skipped or not, resolves to the instant of a shown one: itself, or a skipped one moved by the size of the change, back if it lies before the change when taken as UTC, forward otherwise |
| ZoneClock.ShownUnlessSkipped | src/common/utils/event-schedule.util.ts:85-104 | a wall time is shown by some instant exactly if no forward change of the clocks skips it |
| ZoneClock.ResolvesUnlessPassedOver | src/common/utils/event-schedule.util.ts:85-104 | an instant is the one its wall time resolves to, except exactly in one pass of each repeated wall time: the first from a certain wall time on, the second below it |
| EventSchedule.DateKeyReadsBack | src/common/utils/event-schedule.util.ts:126-138 | the key of a day reads back as that day exactly for the years 1000 to 9999; all other keys are unreadable |
| EventSchedule.TimeReadsBack | src/common/utils/event-schedule.util.ts:140-147 | every padded time of day reads back as itself |
| EventSchedule.ReadableTimes | src/common/utils/event-schedule.util.ts:140-147 | a time is readable exactly if it is one or two digits, a colon and two digits, of an hour below 24 and a minute below 60, and reads as these |
| EventSchedule.ReadableDates | src/common/utils/event-schedule.util.ts:126-138 | a date key is readable exactly if it is four, two and two digits with dashes, and reads as `Date.UTC` of these |
| EventSchedule.CalendarWalk | src/common/utils/event-schedule.util.ts:156-191 | the listed keys are as many as the counted days; key i is local first day + i, the first is the start's key, the last the end's key unless the end is earlier |
| EventSchedule.DaysOfEvent | src/common/utils/event-schedule.util.ts:156-191 | an event counts the local days from its start to its end, and one day if the end is absent, unreadable or on no later day, or the start is no date; then it lists none |
| EventSchedule.DayWindowsToAbsolute | src/common/utils/event-schedule.util.ts:201-224 | the loop yields one window per readable entry, in order, with both ends resolved in the zone; unreadable entries are passed over |
| EventSchedule.WindowsRefineEntries | src/common/utils/event-schedule.util.ts:201-264 | at every instant that its own wall time resolves to: the shop is within the windows if and only if the local reading lies between the readings meant by the start and end of some entry; with no skipped endpoint, if and only if some entry covers the local day and time, an end not after the start running into the next day |
| EventSchedule.PassedOverEntries | src/common/utils/event-schedule.util.ts:201-264 | at every other instant, for every entry: exactly when its meant start and end cover the instant without the window containing it, and when the window contains it without them covering it; with no skipped endpoint the same of the entry itself |
| EventSchedule.WindowsAreNonEmpty | src/common/utils/event-schedule.util.ts:201-224 | a window starts before it ends if and only if the readings meant by its entry's start and end are in order, in particular if neither is skipped |
| ShopHours.DerivedHoursAreExact | src/modules/events/events-shop-public.controller.ts:57-69 | a shop without entered windows is open, at every instant that its own wall time resolves to, exactly when the local reading lies between the meant start and end of one of the event's days; with no skipped endpoint, exactly in the event's hours counted from one of its days |
| ShopHours.DerivedHoursInMinutes | src/modules/events/events-shop-public.controller.ts:57-69 | the same in minutes of the local day, with no skipped endpoint: open on each day from that of the start to that of the end, from the time of day of the start to that of the end, into the next day if that is not later |
| ShopHours.EnteredHoursAreExact | src/modules/events/events-shop-public.controller.ts:57-69 | a shop in event mode with entered windows is open, at every instant that its own wall time resolves to, exactly when the local reading lies between the meant start and end of some readable entered window; with no skipped endpoint, exactly when one covers the local day and time |
| ShopHours.OtherHours | src/modules/events/events-shop-public.controller.ts:48-69 | in weekly mode, chosen or by default with a weekly table, a shop is open exactly in its weekly windows; in test mode always; in event mode without windows and without a start never |
| ShopHours.DerivedWindowsInOrder | src/common/utils/event-schedule.util.ts:232-253 | derived windows are one per event day, and each non-empty, sorted and pairwise disjoint if and only if the readings meant by the days' starts and ends are in that order; with no skipped start or end they are, neighbours abutting exactly if the event starts and ends at the same local time |
| ShopHours.WindowsInOrderIff | src/common/utils/event-schedule.util.ts:201-224 | any windows are non-empty, sorted and pairwise disjoint if and only if the readings meant by their entries' starts and ends are in that order, and abut exactly where these do |
| ShopHours.NextOpeningIsEarliest | src/modules/events/events-shop-public.controller.ts:174 | the next opening is at all times the earliest start after now, and absent only if no start is left, if and only if a window that starts before an earlier listed one repeats a start listed before both; in particular for windows sorted by start, overlapping or not |
| ShopHours.AmbiguousHourStaysClosed | src/common/utils/event-schedule.util.ts:256-264 | an instant in the first pass of a repeated hour, east of Greenwich, that an entry covers but its window does not contain (the case distinction is `EventSchedule.PassedOverEntries`) |
| ShopHours.AmbiguousHourOpensEarly | src/common/utils/event-schedule.util.ts:256-264 | an instant in the second pass of a repeated hour, west of Greenwich, that an entry's window contains but the entry does not cover |
| ShopHours.SkippedEndpointInvertsWindow | src/common/utils/event-schedule.util.ts:201-224 | entries with a skipped end west of Greenwich, and with a skipped start east of it, whose windows end before they start (the condition is `EventSchedule.WindowsAreNonEmpty`) |
| ShopHours.UnorderedEntriesMissTheEarliestOpening | src/modules/events/events-shop-public.controller.ts:174 | any two days entered with the later one first: before both the next opening is the later day's, which is not the earliest exactly if the readings meant by the two starts are in order, in particular if neither is skipped |
| CsvRoundTrip.WrittenTableReadsBack | src/modules/dsfinvk/dsfinvk-csv-writer.ts:21-74 | for every table and every row list the writer accepts, a strict reader of the declared format recovers the header and every cell text, one cell per column in each record, if and only if no column name needs encapsulation |
| CsvRoundTrip.WrittenValuesReadBack | src/modules/dsfinvk/dsfinvk-csv-writer.ts:39-74 | in a table with plain column names the reader finds, row by row and column by column: nothing for an absent value, a string exactly, and the amount of every number, with a decimal comma in numeric and a decimal point in text columns |
| CsvRoundTrip.WritingFailsIff | src/modules/dsfinvk/dsfinvk-csv-writer.ts:39-74 | the writer throws exactly if a numeric column holds a string or a text exceeds the length of its column |
| CsvRoundTrip.FileReads | src/modules/dsfinvk/dsfinvk-index-xml-builder.ts:33-42 | every list of non-empty records, whatever its cells contain, reads back from its encapsulated text |
| CsvRoundTrip.FileIsShortest | src/modules/dsfinvk/dsfinvk-csv-writer.ts:21-37 | no text shorter than the encapsulated one reads as the same records |
| CsvRoundTrip.NumericCellReadsBack | src/modules/dsfinvk/dsfinvk-csv-writer.ts:17-19 | the amount of a numeric cell is recovered exactly from its text with a decimal comma |
| VatRounding.RoundIsNearest | src/modules/dsfinvk/dsfinvk-transaction-builders.ts:17-24 | the rounded quotient is the only integer within half a unit of the exact one, ties upwards |
| VatRounding.SplitOfOpposite | src/modules/dsfinvk/dsfinvk-transaction-builders.ts:17-24 | for every amount and rate the split of the opposite amount is the opposite split exactly when the exact net amount is no tie |
| VatRounding.KeyedSplitsReverse | src/common/constants/dsfinvk-ust-schluessel.ts:38-49 | at the rates of the tax keys there are no ties, so every reversal splits exactly opposite |
| VatRounding.LineRoundingDrift | src/modules/dsfinvk/dsfinvk-transaction-builders.ts:17-24 | rounding n amounts one by one and rounding their sum differ by at most (n + 1) / 2 cents |
| Groups.GroupsFoot | src/modules/dsfinvk/dsfinvk-transaction-builders.ts:100-109 | grouping in a Map has one group per booked key, whose total is the sum booked under it and whose rate is that of the first entry of the key; totals and entries have the same sum |
| DsfinvkExport.BookEntries | src/modules/dsfinvk/dsfinvk-row-builders.ts:291-304 | the Map loop computes the grouping |
| DsfinvkFooting.OrderTurnover | src/modules/dsfinvk/dsfinvk-transaction-builders.ts:175-226 | the gross of an order's lines is the turnover of its items: price with options, and a deposit exactly if one is charged, times quantity |
| DsfinvkLines.PositionsDistinct | src/modules/dsfinvk/dsfinvk-transaction-builders.ts:175-226 | the lines of an order sit at the ids of its items and at these ids followed by -pfand, no position twice |
| DsfinvkExport.BuildPaymentRows | src/modules/dsfinvk/dsfinvk-row-builders.ts:219-241 | both loops together yield one row per payment type with its sum and the name of its last payment |
| DsfinvkExport.GenerateExport | src/modules/dsfinvk/dsfinvk-export.service.ts:174-428 | the order and reversal loops produce exactly the tables of the receipts of the qualifying orders followed by those of the reversals, fail exactly on a rate without key, and refuse exactly when there is nothing to export |
| DsfinvkContents.ExportOutcome | src/modules/dsfinvk/dsfinvk-export.service.ts:174-188 | nothing is exported exactly if no order of the period has a captured payment that reverses nothing, and nothing was reversed; the export fails exactly if a taxable organization sold an item at another rate than 19, 7 or 0 percent on such an order |
| DsfinvkContents.ExportReceipts | src/modules/dsfinvk/dsfinvk-export.service.ts:209-428 | transactions.csv lists exactly the orders of the period with such a payment, then the reversals, numbered from 1; the closing names the first and the last, and each reversal refers to its order |
| DsfinvkContents.ExportShowsItems | src/modules/dsfinvk/dsfinvk-transaction-builders.ts:175-226 | lines.csv holds exactly the items of these orders, at their quantity and price with options, cancelled ones marked, a deposit for each that charges one, and one line for each reversal |
| DsfinvkContents.ExportShowsTax | src/modules/dsfinvk/dsfinvk-transaction-builders.ts:229-247 | lines_vat.csv holds exactly the tax of these items under the key and at the rate of each, of deposits and reversals at 19 percent, tax-free keys for an exempt organization |
| DsfinvkContents.ExportShowsPayments | src/modules/dsfinvk/dsfinvk-export.service.ts:217-248 | datapayment.csv holds exactly the captured payments of all orders of the period that reverse nothing, and the reversals, cash as Bar and cards at the till as Unbar |
| DsfinvkContents.PaymentRowsByType | src/modules/dsfinvk/dsfinvk-row-builders.ts:219-241 | payment.csv has one row for each payment type that occurs, with the sum of its payments and the name of the last one |
| DsfinvkContents.ExportPaymentTotal | src/modules/dsfinvk/dsfinvk-row-builders.ts:80-94 | Z_SE_ZAHLUNGEN is what was paid on all orders of the period, qualifying or not, plus the reversals |
| DsfinvkFooting.TurnoverFoots | src/modules/dsfinvk/dsfinvk-export.service.ts:250-327 | summed MENGE*STK_BR, POS_BRUTTO and BON_BRUTTO agree in total and for every receipt, and in total with Z_UMS_BRUTTO |
| DsfinvkFooting.PaymentsFoot | src/modules/dsfinvk/dsfinvk-row-builders.ts:80-259 | Z_SE_ZAHLUNGEN is the sum of payment.csv, datapayment.csv and UMS_BRUTTO, the last two also for every receipt; Z_SE_BARZAHLUNGEN is the cash per currency and the Bar row, or 0 without one |
| DsfinvkFooting.ExportTotals | src/modules/dsfinvk/dsfinvk-export.service.ts:217-421 | the exported turnover is that of the orders' items and deposits plus the reversals, the exported payments are the captured originals plus the reversals |
| DsfinvkLines.LinesCorrespond | src/modules/dsfinvk/dsfinvk-export.service.ts:250-388 | lines.csv and lines_vat.csv carry the same receipt and position row by row, deposits included, and no position occurs twice |
| DsfinvkLines.TaxableBonsKeyed | src/common/constants/dsfinvk-ust-schluessel.ts:38-49 | every line of a taxable organization is booked at the rate its key stands for |
| DsfinvkLines.ReceiptRoundingDrift | src/modules/dsfinvk/dsfinvk-transaction-builders.ts:95-123 | on every receipt of a taxable organization a row of transactions_vat.csv has the gross sum of the n lines of its key, and a net amount within (n + 1) / 2 cents of the sum of theirs |
| DsfinvkLines.ExportRoundingDrift | src/modules/dsfinvk/dsfinvk-transaction-builders.ts:95-123 | in the export of a taxable organization every row of transactions_vat.csv has the gross sum of the n rows of lines_vat.csv with its receipt and key, and a net amount within (n + 1) / 2 cents of the sum of theirs |
| DsfinvkLines.BusinessCaseRounding | src/modules/dsfinvk/dsfinvk-row-builders.ts:278-321 | in the export of a taxable organization every row of businesscases.csv has the gross sum of the n lines of its case and a net amount within (n + 1) / 2 cents of the sum of theirs, and is that sum exactly if the sum is within half a cent of the exact net amount |
| DsfinvkLines.TaxColumnsFoot | src/modules/dsfinvk/dsfinvk-row-builders.ts:305-319 | net and tax add up to gross in every row of lines_vat, transactions_vat and businesscases |
| DsfinvkLines.BusinessCaseNetIsNotTheSumOfLines | src/modules/dsfinvk/dsfinvk-row-builders.ts:269-321 | two lines whose net amounts do not add up to that of their business case (the condition is `DsfinvkLines.BusinessCaseRounding`) |
| VatRounding.NoTaxIff | src/modules/dsfinvk/dsfinvk-transaction-builders.ts:17-24 | the tax of a split is 0 exactly if the amount times the rate is within half of 100 percent plus the rate |
| DsfinvkLines.ExemptLinesShowTaxIff | src/modules/dsfinvk/dsfinvk-export.service.ts:252-327 | every line of an exempt organization is under the tax-free key, and shows no tax exactly if the tax at the item's own rate rounds to nothing; deposits and reversals show none |
| DsfinvkLines.ExemptReceiptShowsTaxIff | src/modules/dsfinvk/dsfinvk-transaction-builders.ts:95-123 | a receipt of an exempt organization has one row in transactions_vat.csv, with the gross of all its lines, and no tax exactly if the tax on it at the rate of the first line rounds to nothing |
| DsfinvkLines.ExemptOrganizationStillSplitsTax | src/modules/dsfinvk/dsfinvk-export.service.ts:252-288 | a line of an exempt organization under the tax-free key that shows tax (the condition is `DsfinvkLines.ExemptLinesShowTaxIff`) |
| VatAllocation.SortByRemainder | src/modules/payments/vat-split.ts:84-86 | the sort lists every position once, larger remainders first, ties by lower rate |
| VatAllocation.Distribute | src/modules/payments/vat-split.ts:80-90 | the loop adds residual cents until the target is reached exactly, unless rounding down has passed it; a residual below the number of shares goes, one cent each, to the largest remainders |
| VatAllocation.AllocateToAmount | src/modules/payments/vat-split.ts:58-96 | the result adds up to the target if and only if the non-zero splits do already, or have a non-zero sum and shares that, rounded down, do not exceed it; otherwise what it adds up to; for splits of one sign each share is rounded up or down by largest remainder |
| VatAllocation.OneSignMeetsIff | src/modules/payments/vat-split.ts:58-96 | splits of one sign meet every target if one of them is not zero, and otherwise only the target zero |
| VatAllocation.SharesAreFair | src/modules/payments/vat-split.ts:73-90 | shares are at most a cent off their exact values, those rounded up have the larger remainders with ties to the lower rate, no split gets less than one of a smaller amount, and of equal amounts none less than one at a higher rate |
| VatAllocation.MixedSignsMissTheTarget | src/modules/payments/vat-split.ts:58-96 | splits of mixed sign that are scaled to -5 instead of -1 cents, splits that cancel out, and a split of zero, none of which meets its target |
| ClosingNumbers.NumbersStayGapless | src/modules/dsfinvk/dsfinvk-export.service.ts:564-604 | whatever way allocations interleave, fail or are aborted, and however stale their reads are, every till's closings are numbered exactly 1 to n, and no number is issued twice |
| ClosingNumbers.InsertSucceedsIff | src/database/entities/dsfinvk-closing.entity.ts:22 | an insert succeeds exactly if its number is still the till's next one, and a failing insert burns no number |
| ClosingPeriods.ExportService.AllocateClosing | src/modules/dsfinvk/dsfinvk-export.service.ts:547-620 | appends the closing numbered one above the till's last, which no earlier closing of the till reaches |
| ClosingPeriods.ExportService.GenerateExport | src/modules/dsfinvk/dsfinvk-export.service.ts:142-200 | one export: period from the last closing's end or the event's start, both ends included; no closing if nothing is exported; the closing stays if the archive cannot be built |
| ClosingPeriods.ExportService.GenerateEventExport | src/modules/dsfinvk/dsfinvk-export.service.ts:522-545 | runs the tills one by one, skips those with nothing to export, and throws at any other failure, returning no archive; with no archive at all there is nothing to export |
| ClosingPeriods.PeriodsChain | src/modules/dsfinvk/dsfinvk-export.service.ts:142-168 | over every serial run and whatever the clocks say: each closing of a till starts where its predecessor ended, is numbered one above it, does not end before it starts and contains only receipts of the till in its period |
| ClosingPeriods.ClosingsComeFromExports | src/modules/dsfinvk/dsfinvk-export.service.ts:142-187 | every closing of a till was made by an export of it, for its event and up to its clock, from the end of the closing before or for the first one from the start of its event, and contains exactly the receipts of the till and event in this period that the export sees |
| ClosingPeriods.ExportedTwiceOnlyAtBoundary | src/modules/dsfinvk/dsfinvk-export.service.ts:150-168 | a receipt in two closings of a till was created at the instant where their periods meet |
| ClosingPeriods.ExportedAsOftenAsCovered | src/modules/dsfinvk/dsfinvk-export.service.ts:142-187 | over every serial run a receipt is in as many closings of its till as there are exports whose period covers it and that saw it, an order as a qualifying one: in exactly one if and only if exactly one export did, in two if and only if a second one did |
| ClosingPeriods.ExportedSomewhereIff | src/modules/dsfinvk/dsfinvk-export.service.ts:142-187 | in particular in some closing of its till if and only if some such export exists |
| ClosingPeriods.ExportedExactlyOnce | src/modules/dsfinvk/dsfinvk-export.service.ts:142-187 | a covered and seen receipt is in exactly one closing of its till, unless it was created at the very end of one |
| ClosingPeriods.MissedReceiptStaysMissed | src/modules/dsfinvk/dsfinvk-export.service.ts:142-187 | a receipt that is in no closing of its till although it was created before the end of the last one is in none after any further exports |
| ClosingPeriods.ExportIsLocal | src/modules/dsfinvk/dsfinvk-export.service.ts:142-148 | what an export does to its till depends only on that till's closings |
| ClosingPeriods.EventExportIsPerTill | src/modules/dsfinvk/dsfinvk-export.service.ts:484-535 | whether the event export fails or not, each till up to the first failing one ends up as if it had been exported alone, and the tills after that one are unchanged |
| ClosingPeriods.EventFailsIff | src/modules/dsfinvk/dsfinvk-export.service.ts:484-545 | the event export throws exactly if some till fails when exported alone, with the failure of the first one |
| ClosingPeriods.EventArchives | src/modules/dsfinvk/dsfinvk-export.service.ts:521-545 | an event export that does not fail returns exactly the archives of its tills in order, each as if it had been exported alone, or nothing if there is none |
| ClosingPeriods.EventLeavesOtherTills | src/modules/dsfinvk/dsfinvk-export.service.ts:522-535 | an event export leaves all other tills' closings as they were |
| ClosingPeriods.BoundaryReceiptIsExportedTwice | src/modules/dsfinvk/dsfinvk-export.service.ts:150-168 | any reversal or qualifying order created at the instant of a closing is in that closing and in the till's next one, if that is for the same event and sees it, whatever exports of other tills lie in between |
| DsfinvkClosings.ClosingMatchesArchive | src/modules/dsfinvk/dsfinvk-export.service.ts:142-428 | for any closings and database contents: an export records no closing exactly if there is nothing for its tables; its closing stays without an archive exactly if a rate has no key or the CSV writer throws on one of the files made of the tables; in either case it records the ids of the receipts found, which transactions.csv lists in order |
| DeviceApi.DeviceApiController.AddItemToOrder | src/modules/devices/device-api.controller.ts:1578-1699 | adds the priced item and takes its quantity from tracked stock, or throws in exactly the stated cases and changes nothing |
| DeviceApi.DeviceApiController.RecalculateOrderTotals | src/modules/devices/device-api.controller.ts:1701-1737 | totals of the live items, discount capped at the subtotal, deposits on top |
| DeviceApi.DeviceApiController.CreateOrder | src/modules/devices/device-api.controller.ts:535-656 | the whole handler, including requests that fail after some items |
| DeviceRequests.CreateOrderAcceptedIff | src/modules/devices/device-api.controller.ts:1578-1674 | an order is created exactly if the event accepts orders and every item asks for a product of the event that is on sale and, together with the items before it, fits into tracked stock; otherwise the items before the first that does not stay behind, with their prices, deposits and stock taken |
| DeviceRequests.CreatedOrderCharges | src/modules/devices/device-api.controller.ts:1609-1737 | a created order charges price and options of each requested item times its quantity, deposits unless refilled where they are charged, a discount of at most the items, and the tip; one without items charges nothing |
| DeviceRequests.RecalculationSkipsCancelled | src/modules/devices/device-api.controller.ts:1701-1737 | recalculating charges exactly the totals and deposits of the items that are not cancelled |
| DeviceApi.DeviceApiController.CreatePayment | src/modules/devices/device-api.controller.ts:718-796 | the whole handler of a payment on an order |
| DeviceApi.DeviceApiController.CreateSplitPayment | src/modules/devices/device-api.controller.ts:836-944 | the whole handler of a payment for items |
| DeviceRequests.WholePaymentReceives | src/modules/devices/device-api.controller.ts:736-796 | every accepted payment is recorded and added to the paid amount; it completes the order exactly if the total is reached and no item awaits production, and marks every item as paid exactly if the total is reached |
| DeviceRequests.SplitPaymentReceives | src/modules/devices/device-api.controller.ts:893-944 | the same of every accepted payment for items |
| DeviceRequests.PaymentsAcceptedIff | src/modules/devices/device-api.controller.ts:736-891 | exactly which payments are accepted: on an order that does not count as paid, a whole one of at most a cent more than is left, and one for items that names unpaid quantities, entry by entry, at their value give or take a cent |
| DeviceRequests.PaymentAcceptedOnOutstanding | src/modules/devices/device-api.controller.ts:736-745 | after every serial run a whole payment is accepted exactly on an order with something left to pay, or left behind by a failed creation, and of at most a cent more than is left |
| DeviceRequests.CompletedOrdersAwaitNothing | src/modules/devices/device-api.controller.ts:784-795 | over every run no completed order holds an item that awaits production |
| DeviceApi.DeviceApiController.CancelOrder | src/modules/devices/device-api.controller.ts:1219-1350 | the whole handler: restock, cancel, one reversal per captured payment whose signing raises no error |
| DeviceRequests.CancelEffect | src/modules/devices/device-api.controller.ts:1219-1305 | a cancellation is accepted on orders that are neither completed nor cancelled, cancels the order and every item, and changes nothing else about any order |
| DeviceRequests.CancelAcceptedIff | src/modules/devices/device-api.controller.ts:1238-1247 | over every run a cancellation is accepted exactly if no cancellation and no completing payment of the order was accepted before |
| DeviceStock.StockIsConserved | src/modules/devices/device-api.controller.ts:1609-1674 | over every serial run, failing orders included, a tracked product's stock plus the quantities of its live items is constant, and an untracked product's stock does not change |
| DeviceStock.StockStaysNonNegative | src/modules/devices/device-api.controller.ts:1609-1615 | stock of tracked products that starts non-negative stays so |
| DeviceStock.CancelledStaysCancelled | src/modules/devices/device-api.controller.ts:1249-1299 | items keep their product and quantity, and a cancelled item stays cancelled |
| DeviceStock.RestoredOnce | src/modules/devices/device-api.controller.ts:1249-1299 | over every serial run an item's quantity is put back exactly once if the item is cancelled in the end, and never otherwise |
| DevicePayments.CreatedOrderTotals | src/modules/devices/device-api.controller.ts:629-656 | a completed order has a non-negative total, is unpaid or has nothing to pay; the total covers tip and deposits if and only if there are items or no tip |
| DevicePayments.RecalculationIsIdempotent | src/modules/devices/device-api.controller.ts:1725-1734 | recalculating totals again changes nothing |
| DevicePayments.DiscountIsCapped | src/modules/devices/device-api.controller.ts:1725-1734 | totals cover tip and deposits even with negative option prices |
| DevicePayments.BooksBalance | src/modules/devices/device-api.controller.ts:1739-1755 | over every serial run: paid amount is the sum of received payments, the payment status is the three-way comparison of paid and total or unpaid with nothing paid and nothing to pay, totals are non-negative, completed orders are paid, reversals undo payments of closed orders, each at most once |
| DevicePayments.StatusDepartsIff | src/modules/devices/device-api.controller.ts:535-656 | over every serial run the payment status of an order is not the three-way comparison of paid and total if and only if its creation failed and no payment on it has been accepted since |
| DevicePayments.TotalsNeverChange | src/modules/devices/device-api.controller.ts:766-796 | no later operation changes what an order costs |
| DevicePayments.WholePaymentsNeverOverpay | src/modules/devices/device-api.controller.ts:743-767 | the paid amount of an order without split payments never exceeds the total by more than one cent, whatever happens to other orders |
| DevicePayments.PayingTheRemainderSettles | src/modules/devices/device-api.controller.ts:743-781 | paying what remains, or one cent more, is accepted, settles the order and marks every item as paid |
| DevicePayments.CancellationNetsOut | src/modules/devices/device-api.controller.ts:1307-1350 | a cancellation reverses each signed payment exactly once by the opposite amount and leaves the originals; what stays captured is what could not be signed, hence 0 if no signing failed |
| DevicePayments.PayingCancelledOrderCompletesIff | src/modules/devices/device-api.controller.ts:736-944 | after every serial run a payment accepted on a cancelled order, whole or split, completes it exactly if it brings the paid amount to the total |
| DevicePayments.PayingCompletesCancelledOrder | src/modules/devices/device-api.controller.ts:736-796 | a run in which an order is created, cancelled, paid and thereby completed |
| DeviceSplits.SplitDrift | src/modules/devices/device-api.controller.ts:867-924 | an order paid by split payments only, whatever they name and whatever happens to other orders: after k payments on it its paid amount is within k cents of the value of what is marked as paid |
| DeviceSplits.SplitWithinQuantityIff | src/modules/devices/device-api.controller.ts:867-924 | an accepted request leaves every item paid within its quantity exactly if it names for each item at most the unpaid quantity, all its entries together |
| DeviceSplits.DistinctItemsNameUnpaidOnly | src/modules/devices/device-api.controller.ts:867-891 | a request that passes the check and names each item once names unpaid quantities only |
| DeviceSplits.QuantitiesAreRespectedIff | src/modules/devices/device-api.controller.ts:718-944 | over every serial run, whole payments included, no item is ever paid beyond its quantity if and only if every accepted split request names unpaid quantities only |
| DeviceSplits.ItemNamedTwiceIsOverpaid | src/modules/devices/device-api.controller.ts:871-891 | an accepted request that pays the only piece of an order twice |
| SyncOutbox.Box.SaveEntity | src/database/subscribers/sync-outbox.subscriber.ts:60-100 | one save: the row is stamped with the next version and queued, or on a central installation or for another table left unstamped |
| SyncOutbox.Box.RunTransaction | src/database/subscribers/sync-outbox.subscriber.ts:32-38 | a transaction commits or rolls back rows and queue together, while the sequence keeps its advance |
| SyncOutbox.OutboxReplaysTables | src/database/subscribers/sync-outbox.subscriber.ts:60-132 | after any serial run of committed and rolled back transactions, outbox versions are strictly increasing in save order and the highest version per entity rebuilds the committed tables exactly |
| SyncOutbox.OneRowPerCommittedSave | src/database/subscribers/sync-outbox.subscriber.ts:83-132 | the outbox is exactly the committed saves of synchronized entities, in order |
| SyncOutbox.SequenceCountsSaves | src/database/subscribers/sync-outbox.subscriber.ts:60-132 | the sequence has advanced exactly once for each save of a synchronized entity, rolled back ones included, which leave gaps |
| SyncOutbox.TablesHoldLastSaves | src/database/subscribers/sync-outbox.subscriber.ts:22-132 | after any serial run, on a box or a central installation, the tables hold exactly the last committed save of each entity; on a box orders, order items, payments and print jobs are stamped and queued, and nothing else is |
| SyncOutbox.CentralQueuesNothing | src/database/subscribers/sync-outbox.subscriber.ts:47-49 | a central installation queues and stamps nothing |
| SyncDelivery.ReceiptLogIsExact | src/modules/sync/sync.service.ts:35-80 | under any mix of transactions, lost requests, lost answers, acknowledged pushes and repeated deliveries, the receipt log holds exactly the delivered rows without duplicates, and rows marked as pushed have been received |
| SyncDelivery.RedeliveryIsIdempotent | src/database/entities/sync-inbox.entity.ts:15-19 | delivering received rows again changes nothing |
| SyncDelivery.DeliveredLogConverges | src/database/entities/sync-inbox.entity.ts:15-19 | once every outbox row was delivered, in any order and number, the highest version received per entity is the box's row |
| SyncDelivery.RecoveredLinkConverges | src/modules/sync/sync-push.service.ts:49-95 | after any history, as many acknowledged pushes as batches are pending empty the queue and bring the central view to the box's rows |

## Left out

- Time zones are arbitrary whole-minute offset functions with offsets below a day and changes at least four times the largest offset apart; seconds, and zones that change more often, are not modelled.
- Years before 1000: the schedule results about wall clocks are stated for dates of year 1000 on, because date keys have four digits and `Date.UTC` moves two-digit years.
- Weekly opening hours (`weeklyHoursToWindows`): they depend on the local zone of the host.
- Floating-point effects: sums of decimal amounts are exact in the model.
- Text lengths count characters of the model, not UTF-16 code units; numbers beyond two decimals or in exponent notation are not written.
- Descriptive columns of the export (names, addresses, timestamps, product texts, the key columns of the closing), the location, cash register and vat tables, the ZIP and its `index.xml`.
- Turnover against payments: discounts and tips have no line rows, so those totals need not agree.
- References of reversals to earlier closings and itemized reversals, which the code documents as simplifications.
- Deletion of closings, orders, items and products.
- The content of signatures, and the tax splits sent to the signing device beyond their scaling.
- Orders without an event, order numbers, notes, printing, notifications, stock movement records and the tax total of an order; the event check is one flag of the request.
- Production steps between pending and delivered; online payments and refunds.
- Several boxes, concurrent writers on one box, and materializing the receipt log into tables.
- `syncedAt`, `pushedAt` and `receivedAt` times, and the order numbers of print jobs.
