// The closing periods of the tills: which orders and reversals each export covers, over any serial run of exports.
module ClosingPeriods {
  import opened Options
  import opened Groups

  // A receipt: an order or a reversal. Its creation time and till never change. An order qualifies for an export once it
  // has a captured payment that is no reversal.
  datatype Bon = Bon(id: string, device: nat, event: nat, createdAt: int)
  datatype SeenOrder = SeenOrder(bon: Bon, qualifies: bool)

  // A closing, with the receipts that its archive contains.
  datatype Closing = Closing(device: nat, event: nat, zNr: int, periodStart: int, periodEnd: int, bons: seq<Bon>)

  // One export request: the till and event, whether they exist, the event's start, the clock, what the database holds,
  // and whether the archive can be built (every rate has a key, every cell fits its column).
  datatype Call = Call(device: nat, event: nat, found: bool, eventStart: Option<int>, now: int, orders: seq<SeenOrder>,
                       reversals: seq<Bon>, builds: bool)

  datatype Outcome = NotFound | NothingToExport | BuildFailed | Archive(closing: Closing)

  // findOne with order zNr DESC
  function LastClosing(closings: seq<Closing>, device: nat): Option<Closing> {
    if closings == [] then None
    else
      var c, rest := closings[|closings| - 1], LastClosing(closings[..|closings| - 1], device);
      if c.device == device && (rest.None? || c.zNr > rest.value.zNr) then Some(c) else rest
  }

  lemma {:induction false} LastIsHighest(closings: seq<Closing>, device: nat)
    ensures var last := LastClosing(closings, device);
      && (last.None? <==> forall c :: c in closings ==> c.device != device)
      && (last.Some? ==> last.value in closings && last.value.device == device)
      && (last.Some? ==> forall c :: c in closings && c.device == device ==> c.zNr <= last.value.zNr)
  {
    if closings != [] {
      LastIsHighest(closings[..|closings| - 1], device);
      assert closings == closings[..|closings| - 1] + [closings[|closings| - 1]];
    }
  }

  function StartFrom(closings: seq<Closing>, device: nat, eventStart: Option<int>): int {
    var last := LastClosing(closings, device);
    if last.Some? then last.value.periodEnd else if eventStart.Some? then eventStart.value else 0
  }

  function PeriodStart(closings: seq<Closing>, call: Call): int {
    StartFrom(closings, call.device, call.eventStart)
  }

  // Between(periodStart, periodEnd), both ends included, for this event and till.
  function InPeriod(call: Call, start: int): Bon -> bool {
    (b: Bon) => b.device == call.device && b.event == call.event && start <= b.createdAt <= call.now
  }

  function Qualifying(s: SeenOrder): bool { s.qualifies }

  function BonOf(s: SeenOrder): Bon { s.bon }

  // The qualifying orders and the reversals of the period, as the archive lists them.
  function ExportedBetween(call: Call, start: int): seq<Bon> {
    var keep := InPeriod(call, start);
    Filter(Map(Filter(call.orders, Qualifying), BonOf), keep) + Filter(call.reversals, keep)
  }

  function Exported(closings: seq<Closing>, call: Call): seq<Bon> {
    ExportedBetween(call, PeriodStart(closings, call))
  }

  function NextClosing(closings: seq<Closing>, call: Call): Closing {
    var last := LastClosing(closings, call.device);
    Closing(call.device, call.event, (if last.Some? then last.value.zNr else 0) + 1, PeriodStart(closings, call), call.now,
            Exported(closings, call))
  }

  // The closing is allocated before the archive is built, so a failing build leaves it behind.
  function ExportStep(closings: seq<Closing>, call: Call): (seq<Closing>, Outcome) {
    if !call.found then (closings, NotFound)
    else if Exported(closings, call) == [] then (closings, NothingToExport)
    else
      var c := NextClosing(closings, call);
      (closings + [c], if call.builds then Archive(c) else BuildFailed)
  }

  function Exports(calls: seq<Call>): seq<Closing> {
    if calls == [] then [] else ExportStep(Exports(calls[..|calls| - 1]), calls[|calls| - 1]).0
  }

  // ----- the export service -----

  // An event export runs the tills one after the other, skips those with nothing to export and stops at any other
  // failure; None stands for success.
  function EventStep(closings: seq<Closing>, calls: seq<Call>): (seq<Closing>, Option<Outcome>, seq<Closing>) {
    if calls == [] then (closings, None, [])
    else
      var (before, failed, archives) := EventStep(closings, calls[..|calls| - 1]);
      if failed.Some? then (before, failed, archives)
      else
        var (after, outcome) := ExportStep(before, calls[|calls| - 1]);
        match outcome
        case Archive(c) => (after, None, archives + [c])
        case NothingToExport => (after, None, archives)
        case _ => (after, Some(outcome), archives)
  }

  predicate Fails(outcome: Outcome) {
    outcome.NotFound? || outcome.BuildFailed?
  }

  // What the caller of an event export gets: an error, or the archives of all tills in one.
  datatype EventOutcome = Threw(cause: Outcome) | NothingForEvent | Archives(closings: seq<Closing>)

  function EventResult(closings: seq<Closing>, calls: seq<Call>): EventOutcome {
    var (_, failed, archives) := EventStep(closings, calls);
    if failed.Some? then Threw(failed.value) else if archives == [] then NothingForEvent else Archives(archives)
  }

  class ExportService {
    var closings: seq<Closing>

    constructor ()
      ensures closings == []
    {
      closings := [];
    }

    method AllocateClosing(call: Call, bons: seq<Bon>, periodStart: int) returns (closing: Closing)
      modifies this
      ensures closing == Closing(call.device, call.event, closing.zNr, periodStart, call.now, bons)
      ensures closing.zNr == 1 + match LastClosing(old(closings), call.device) { case None => 0 case Some(c) => c.zNr }
      ensures closings == old(closings) + [closing]
      ensures forall c :: c in old(closings) && c.device == call.device ==> c.zNr < closing.zNr
    {
      LastIsHighest(closings, call.device);
      var last := LastClosing(closings, call.device);
      var zNr := (if last.Some? then last.value.zNr else 0) + 1;
      closing := Closing(call.device, call.event, zNr, periodStart, call.now, bons);
      closings := closings + [closing];
    }

    method GenerateExport(call: Call) returns (outcome: Outcome)
      modifies this
      ensures (closings, outcome) == ExportStep(old(closings), call)
    {
      if !call.found {
        return NotFound;
      }
      var lastClosing := LastClosing(closings, call.device);
      var periodStart := if lastClosing.Some? then lastClosing.value.periodEnd
                         else if call.eventStart.Some? then call.eventStart.value else 0;
      var qualifyingOrders := Filter(Map(Filter(call.orders, Qualifying), BonOf), InPeriod(call, periodStart));
      var reversals := Filter(call.reversals, InPeriod(call, periodStart));
      if |qualifyingOrders| == 0 && |reversals| == 0 {
        return NothingToExport;
      }
      var closing := AllocateClosing(call, qualifyingOrders + reversals, periodStart);
      outcome := if call.builds then Archive(closing) else BuildFailed;
    }

    // The event export. A failure throws away the archives that were built before it; their closings stay.
    method GenerateEventExport(calls: seq<Call>) returns (outcome: EventOutcome)
      modifies this
      ensures closings == EventStep(old(closings), calls).0 && outcome == EventResult(old(closings), calls)
    {
      var archives := [];
      for i := 0 to |calls|
        invariant (closings, None, archives) == EventStep(old(closings), calls[..i])
      {
        assert calls[..i + 1][..i] == calls[..i];
        var till := GenerateExport(calls[i]);
        match till {
          case Archive(c) => archives := archives + [c];
          case NothingToExport =>
          case _ =>
            EventStops(old(closings), calls, i + 1);
            return Threw(till);
        }
      }
      assert calls[..|calls|] == calls;
      outcome := if |archives| == 0 then NothingForEvent else Archives(archives);
    }
  }

  lemma {:induction false} EventStops(closings: seq<Closing>, calls: seq<Call>, n: nat)
    requires n <= |calls| && EventStep(closings, calls[..n]).1.Some?
    ensures EventStep(closings, calls) == EventStep(closings, calls[..n])
    decreases |calls|
  {
    if n < |calls| {
      var init := calls[..|calls| - 1];
      assert init[..n] == calls[..n];
      EventStops(closings, init, n);
    } else {
      assert calls[..n] == calls;
    }
  }

  // ----- periods -----

  function OfDevice(device: nat): Closing -> bool {
    (c: Closing) => c.device == device
  }

  // The closings of one till, in the order in which they were made.
  function Own(closings: seq<Closing>, device: nat): seq<Closing> {
    Filter(closings, OfDevice(device))
  }

  lemma OwnAppend(closings: seq<Closing>, c: Closing, device: nat)
    ensures Own(closings + [c], device) == Own(closings, device) + if c.device == device then [c] else []
  {
  }

  // What holds of the closings of one till: numbered 1 to n, each period starts where the one before it ended and does
  // not end before it starts, and every exported receipt belongs to the till and lies in the period.
  ghost predicate Chained(own: seq<Closing>, device: nat) {
    && (forall i :: 0 <= i < |own| ==> own[i].device == device && own[i].zNr == i + 1)
    && (forall i :: 0 < i < |own| ==> own[i].periodStart == own[i - 1].periodEnd)
    && (forall i :: 0 <= i < |own| ==> own[i].periodStart <= own[i].periodEnd)
    && (forall i, b :: 0 <= i < |own| && b in own[i].bons ==>
          b.device == device && own[i].periodStart <= b.createdAt <= own[i].periodEnd)
  }

  ghost predicate Numbered(own: seq<Closing>) {
    forall i :: 0 <= i < |own| ==> own[i].zNr == i + 1
  }

  lemma {:induction false} LastOfOwn(closings: seq<Closing>, device: nat)
    requires Numbered(Own(closings, device))
    ensures var own := Own(closings, device);
      LastClosing(closings, device) == if own == [] then None else Some(own[|own| - 1])
  {
    if closings != [] {
      var init, c := closings[..|closings| - 1], closings[|closings| - 1];
      var own := Own(closings, device);
      assert init + [c] == closings;
      OwnAppend(init, c, device);
      hide Own;
      assert Own(init, device) == if c.device == device then own[..|own| - 1] else own;
      LastOfOwn(init, device);
    }
  }

  lemma ExportedInPeriod(closings: seq<Closing>, call: Call)
    ensures forall b :: b in Exported(closings, call) ==>
      b.device == call.device && PeriodStart(closings, call) <= b.createdAt <= call.now
  {
    var keep := InPeriod(call, PeriodStart(closings, call));
    FilterKeeps(Map(Filter(call.orders, Qualifying), BonOf), keep);
    FilterKeeps(call.reversals, keep);
  }

  lemma ChainGrows(own: seq<Closing>, c: Closing, device: nat)
    requires Chained(own, device) && c.device == device && c.zNr == |own| + 1
    requires (own == [] || c.periodStart == own[|own| - 1].periodEnd) && c.periodStart <= c.periodEnd
    requires forall b :: b in c.bons ==> b.device == device && c.periodStart <= b.createdAt <= c.periodEnd
    ensures Chained(own + [c], device)
  {
  }

  lemma ExportChains(closings: seq<Closing>, call: Call, device: nat)
    requires Chained(Own(closings, device), device)
    ensures Chained(Own(ExportStep(closings, call).0, device), device)
  {
    if ExportStep(closings, call).0 != closings {
      var c := NextClosing(closings, call);
      OwnAppend(closings, c, device);
      LastOfOwn(closings, device);
      ExportedInPeriod(closings, call);
      hide Own, LastClosing, Exported;
      if c.device == device {
        assert c.bons[0] in c.bons;
        var own := Own(closings, device);
        assert own != [] ==> own[|own| - 1].zNr == |own|;
        hide Chained;
        ChainGrows(own, c, device);
      }
    }
  }

  // Over every serial run of exports, whatever their clocks say: the closings of each till form a gapless chain.
  lemma {:induction false} PeriodsChain(calls: seq<Call>, device: nat)
    ensures Chained(Own(Exports(calls), device), device)
  {
    if calls != [] {
      PeriodsChain(calls[..|calls| - 1], device);
      ExportChains(Exports(calls[..|calls| - 1]), calls[|calls| - 1], device);
    }
  }

  lemma {:induction false} EndsInOrder(own: seq<Closing>, device: nat, i: nat, j: nat)
    requires Chained(own, device) && i < j < |own|
    ensures own[i].periodEnd <= own[j].periodStart
  {
    if i + 1 < j {
      EndsInOrder(own, device, i, j - 1);
    }
  }

  // A receipt that is exported by two closings of a till was created at the very instant where both periods meet.
  lemma ExportedTwiceOnlyAtBoundary(calls: seq<Call>, device: nat, i: nat, j: nat, b: Bon)
    requires var own := Own(Exports(calls), device); i < j < |own| && b in own[i].bons && b in own[j].bons
    ensures var own := Own(Exports(calls), device);
      b.createdAt == own[i].periodEnd == own[j].periodStart && forall k :: i < k < j ==> own[k].periodStart == own[k].periodEnd == b.createdAt
  {
    var own := Own(Exports(calls), device);
    PeriodsChain(calls, device);
    EndsInOrder(own, device, i, j);
    forall k | i < k < j
      ensures own[k].periodStart == own[k].periodEnd == b.createdAt
    {
      EndsInOrder(own, device, i, k);
      EndsInOrder(own, device, k, j);
    }
  }

  // ----- which receipts are exported -----

  // The export finds the receipt in the database: a reversal, or an order that qualifies by then.
  predicate Sees(call: Call, b: Bon) {
    b in call.reversals || SeenOrder(b, true) in call.orders
  }

  lemma ExportedIff(closings: seq<Closing>, call: Call, b: Bon)
    ensures b in Exported(closings, call) <==> InPeriod(call, PeriodStart(closings, call))(b) && Sees(call, b)
  {
    var keep := InPeriod(call, PeriodStart(closings, call));
    var qualifying := Filter(call.orders, Qualifying);
    FilterKeeps(call.orders, Qualifying);
    FilterKeeps(Map(qualifying, BonOf), keep);
    FilterKeeps(call.reversals, keep);
    if SeenOrder(b, true) in qualifying {
      var i :| 0 <= i < |qualifying| && qualifying[i] == SeenOrder(b, true);
      assert Map(qualifying, BonOf)[i] == BonOf(qualifying[i]) == b;
    }
    if b in Map(qualifying, BonOf) {
      var i :| 0 <= i < |qualifying| && Map(qualifying, BonOf)[i] == b;
      assert qualifying[i] in qualifying && Qualifying(qualifying[i]) && BonOf(qualifying[i]) == b;
    }
  }

  // Which closings contain the receipt.
  function Containing(own: seq<Closing>, b: Bon): seq<bool> {
    seq(|own|, i requires 0 <= i < |own| => b in own[i].bons)
  }

  // The receipt is in some closing of its till.
  ghost predicate IsExported(calls: seq<Call>, b: Bon) {
    exists i :: 0 <= i < |Own(Exports(calls), b.device)| && b in Own(Exports(calls), b.device)[i].bons
  }

  // The n-th export exists, its period covers the receipt, and it sees it.
  predicate Covers(calls: seq<Call>, n: nat, b: Bon) {
    && n < |calls| && calls[n].found
    && InPeriod(calls[n], PeriodStart(Exports(calls[..n]), calls[n]))(b)
    && Sees(calls[n], b)
  }

  // Which exports do.
  function Covering(calls: seq<Call>, b: Bon): seq<bool> {
    seq(|calls|, n requires 0 <= n < |calls| => Covers(calls, n, b))
  }

  lemma OwnByStep(calls: seq<Call>, call: Call, device: nat)
    ensures Own(Exports(calls + [call]), device) == Own(Exports(calls), device) +
      if call.found && Exported(Exports(calls), call) != [] && call.device == device then [NextClosing(Exports(calls), call)] else []
    ensures NextClosing(Exports(calls), call).bons == Exported(Exports(calls), call)
  {
    assert (calls + [call])[..|calls|] == calls;
    OwnAppend(Exports(calls), NextClosing(Exports(calls), call), device);
  }

  lemma CoversLast(calls: seq<Call>, call: Call, b: Bon)
    ensures Covers(calls + [call], |calls|, b) <==> call.found && b in Exported(Exports(calls), call)
    ensures b in Exported(Exports(calls), call) ==> b.device == call.device
  {
    hide Exports, Exported, PeriodStart, Sees;
    assert (calls + [call])[..|calls|] == calls;
    ExportedIff(Exports(calls), call, b);
  }

  lemma CoveringAppend(calls: seq<Call>, call: Call, b: Bon)
    ensures Covering(calls + [call], b) == Covering(calls, b) + [Covers(calls + [call], |calls|, b)]
  {
    hide InPeriod, PeriodStart, Exports, Sees;
    assert forall n :: 0 <= n < |calls| ==> (calls + [call])[..n] == calls[..n];
  }

  lemma ContainingAppend(own: seq<Closing>, c: Closing, b: Bon)
    ensures Containing(own + [c], b) == Containing(own, b) + [b in c.bons]
  {
  }

  lemma CountsByStep(calls: seq<Call>, call: Call, b: Bon)
    ensures Count(Containing(Own(Exports(calls + [call]), b.device), b)) ==
      Count(Containing(Own(Exports(calls), b.device), b)) + if Covers(calls + [call], |calls|, b) then 1 else 0
  {
    hide Own, Exports, Exported, NextClosing, Containing, Covers, Count;
    var own, c := Own(Exports(calls), b.device), NextClosing(Exports(calls), call);
    OwnByStep(calls, call, b.device);
    CoversLast(calls, call, b);
    if call.found && Exported(Exports(calls), call) != [] && call.device == b.device {
      ContainingAppend(own, c, b);
      CountAppend(Containing(own, b), b in c.bons);
    } else {
      assert Own(Exports(calls + [call]), b.device) == own;
    }
  }

  lemma {:induction false} CountsAgree(calls: seq<Call>, b: Bon)
    ensures Count(Containing(Own(Exports(calls), b.device), b)) == Count(Covering(calls, b))
  {
    if calls != [] {
      var init, call := calls[..|calls| - 1], calls[|calls| - 1];
      assert init + [call] == calls;
      CountsAgree(init, b);
      CountsByStep(init, call, b);
      CoveringAppend(init, call, b);
      hide Own, Exports, Covers, Containing, Covering, Count;
      CountAppend(Covering(init, b), Covers(calls, |init|, b));
    }
  }

  // Over every serial run a receipt is in as many closings of its till as there are exports that cover and see it, an
  // order as a qualifying one: in exactly one closing if and only if exactly one export does, and in two or more if and
  // only if a second one does.
  lemma ExportedAsOftenAsCovered(calls: seq<Call>, b: Bon)
    ensures var inClosings, byExports := Containing(Own(Exports(calls), b.device), b), Covering(calls, b);
      && Count(inClosings) == Count(byExports)
      && ((exists i: nat :: OnlyTrue(inClosings, i)) <==> (exists n: nat :: OnlyTrue(byExports, n)))
      && ((exists i: nat, j: nat :: BothTrue(inClosings, i, j)) <==> (exists n: nat, m: nat :: BothTrue(byExports, n, m)))
  {
    CountsAgree(calls, b);
    hide Own, Exports, Containing, Covering, Count, OnlyTrue, BothTrue;
    CountIsOne(Containing(Own(Exports(calls), b.device), b));
    CountIsOne(Covering(calls, b));
    CountIsTwo(Containing(Own(Exports(calls), b.device), b));
    CountIsTwo(Covering(calls, b));
  }

  // In particular it is in some closing if and only if some export covers and sees it.
  lemma ExportedSomewhereIff(calls: seq<Call>, b: Bon)
    ensures IsExported(calls, b) <==> exists n :: Covers(calls, n, b)
  {
    CountsAgree(calls, b);
    hide Own, Exports, Covers, Count;
    var own := Own(Exports(calls), b.device);
    CountIsZero(Containing(own, b));
    CountIsZero(Covering(calls, b));
    assert forall i :: 0 <= i < |own| ==> Containing(own, b)[i] == (b in own[i].bons);
    CoversInRange(calls, b);
  }

  lemma CoversInRange(calls: seq<Call>, b: Bon)
    ensures forall n: nat :: Covers(calls, n, b) <==> n < |calls| && Covering(calls, b)[n]
  {
    hide InPeriod, PeriodStart, Exports, Sees;
  }

  // Where each closing of a till comes from: an export of the till, which exists; its event and clock; its period from
  // the end of the closing before it, or for the first one from the start of its event, or the epoch without one; and
  // exactly the receipts of the till and event in this period that it sees.
  ghost predicate MadeBy(own: seq<Closing>, i: nat, call: Call) {
    && i < |own| && call.found && own[i].device == call.device && own[i].event == call.event && own[i].periodEnd == call.now
    && own[i].periodStart == (if i > 0 then own[i - 1].periodEnd else if call.eventStart.Some? then call.eventStart.value else 0)
    && forall b :: b in own[i].bons <==>
         Sees(call, b) && b.device == call.device && b.event == call.event && own[i].periodStart <= b.createdAt <= call.now
  }

  lemma {:induction false} ClosingsComeFromExports(calls: seq<Call>, device: nat, i: nat) returns (n: nat)
    requires i < |Own(Exports(calls), device)|
    ensures n < |calls| && calls[n].device == device && MadeBy(Own(Exports(calls), device), i, calls[n])
  {
    assert calls != [];
    var init, call := calls[..|calls| - 1], calls[|calls| - 1];
    assert init + [call] == calls;
    OwnByStep(init, call, device);
    var before, after := Own(Exports(init), device), Own(Exports(calls), device);
    hide Own, Exports, Exported, NextClosing, MadeBy;
    if i < |before| {
      n := ClosingsComeFromExports(init, device, i);
      SameClosings(before, after, i, calls[n]);
    } else {
      n := |init|;
      NewClosing(init, call, device);
      SameClosings(before + [NextClosing(Exports(init), call)], after, i, call);
    }
  }

  lemma SameClosings(before: seq<Closing>, after: seq<Closing>, i: nat, call: Call)
    requires before <= after && MadeBy(before, i, call)
    ensures MadeBy(after, i, call)
  {
  }

  lemma NewClosing(calls: seq<Call>, call: Call, device: nat)
    requires call.device == device && call.found
    ensures MadeBy(Own(Exports(calls), device) + [NextClosing(Exports(calls), call)], |Own(Exports(calls), device)|, call)
  {
    var closings := Exports(calls);
    PeriodsChain(calls, device);
    LastOfOwn(closings, device);
    forall b
      ensures b in Exported(closings, call) <==>
        Sees(call, b) && b.device == call.device && b.event == call.event && PeriodStart(closings, call) <= b.createdAt <= call.now
    {
      ExportedIff(closings, call, b);
    }
    hide Own, Exports, Exported, Sees;
  }

  // A second covering export covers only what was created at the very end of a closing, so away from these instants a
  // covered receipt is in exactly one closing of its till.
  lemma ExportedExactlyOnce(calls: seq<Call>, n: nat, b: Bon) returns (i: nat)
    requires Covers(calls, n, b)
    requires forall i :: 0 <= i < |Own(Exports(calls), b.device)| ==> Own(Exports(calls), b.device)[i].periodEnd != b.createdAt
    ensures OnlyTrue(Containing(Own(Exports(calls), b.device), b), i)
  {
    var own := Own(Exports(calls), b.device);
    ExportedSomewhereIff(calls, b);
    hide Exports, Own, Covers;
    i :| 0 <= i < |own| && b in own[i].bons;
    forall j | 0 <= j < |own| && b in own[j].bons
      ensures j == i
    {
      if i < j { ExportedTwiceOnlyAtBoundary(calls, b.device, i, j, b); }
      if j < i { ExportedTwiceOnlyAtBoundary(calls, b.device, j, i, b); }
    }
  }

  lemma OwnGrowsByStep(calls: seq<Call>, call: Call, device: nat)
    ensures Own(Exports(calls), device) <= Own(Exports(calls + [call]), device)
  {
    OwnByStep(calls, call, device);
    hide Own, Exports, Exported, NextClosing;
  }

  lemma {:induction false} OwnGrows(calls: seq<Call>, more: seq<Call>, b: Bon)
    ensures Own(Exports(calls), b.device) <= Own(Exports(calls + more), b.device)
  {
    if more == [] {
      assert calls + more == calls;
    } else {
      var init, call := more[..|more| - 1], more[|more| - 1];
      OwnGrows(calls, init, b);
      assert calls + more == (calls + init) + [call];
      OwnGrowsByStep(calls + init, call, b.device);
    }
  }

  // A receipt that is in no closing of its till although it was created before the end of the last one will never be
  // exported: it did not qualify by then, or the till was closed for another event.
  lemma MissedReceiptStaysMissed(calls: seq<Call>, more: seq<Call>, b: Bon)
    requires var own := Own(Exports(calls), b.device); own != [] && b.createdAt < own[|own| - 1].periodEnd
    requires !IsExported(calls, b)
    ensures !IsExported(calls + more, b)
  {
    OwnGrows(calls, more, b);
    PeriodsChain(calls + more, b.device);
    var before, own := Own(Exports(calls), b.device), Own(Exports(calls + more), b.device);
    forall j | 0 <= j < |own|
      ensures b !in own[j].bons
    {
      if j >= |before| {
        EndsInOrder(own, b.device, |before| - 1, j);
      } else {
        assert own[j] == before[j];
      }
    }
  }

  // ----- one till's exports do not touch another's -----

  // What an export does to its own till depends only on that till's closings.
  lemma ExportIsLocal(closings: seq<Closing>, other: seq<Closing>, call: Call)
    requires Own(closings, call.device) == Own(other, call.device)
    requires Chained(Own(closings, call.device), call.device)
    ensures Own(ExportStep(closings, call).0, call.device) == Own(ExportStep(other, call).0, call.device)
    ensures ExportStep(closings, call).1 == ExportStep(other, call).1
  {
    LastOfOwn(closings, call.device);
    LastOfOwn(other, call.device);
    SameExport(closings, other, call);
    hide Own, Chained, Exported, LastClosing, NextClosing;
    var c := NextClosing(closings, call);
    OwnAppend(closings, c, call.device);
    OwnAppend(other, c, call.device);
  }

  lemma ExportLeavesOtherTills(closings: seq<Closing>, call: Call, device: nat)
    requires device != call.device
    ensures Own(ExportStep(closings, call).0, device) == Own(closings, device)
  {
  }

  lemma SameExport(closings: seq<Closing>, other: seq<Closing>, call: Call)
    requires LastClosing(closings, call.device) == LastClosing(other, call.device)
    ensures Exported(closings, call) == Exported(other, call) && NextClosing(closings, call) == NextClosing(other, call)
    ensures NextClosing(closings, call).device == call.device
  {
  }

  // An event export leaves the closings of tills it does not run as they were.
  lemma {:induction false} EventLeavesOtherTills(closings: seq<Closing>, calls: seq<Call>, device: nat)
    requires forall i :: 0 <= i < |calls| ==> calls[i].device != device
    ensures Own(EventStep(closings, calls).0, device) == Own(closings, device)
  {
    hide Own, ExportStep;
    if calls != [] {
      var init, call := calls[..|calls| - 1], calls[|calls| - 1];
      EventLeavesOtherTills(closings, init, device);
      ExportLeavesOtherTills(EventStep(closings, init).0, call, device);
    }
  }

  // No till before the k-th fails when it is exported alone.
  predicate Reaches(closings: seq<Closing>, calls: seq<Call>, k: nat)
    requires k <= |calls|
  {
    forall i :: 0 <= i < k ==> !Fails(ExportStep(closings, calls[i]).1)
  }

  predicate DifferentTills(calls: seq<Call>) {
    forall i, j :: 0 <= i < j < |calls| ==> calls[i].device != calls[j].device
  }

  lemma EventStepLast(closings: seq<Closing>, calls: seq<Call>)
    requires calls != []
    ensures var before, after := EventStep(closings, calls[..|calls| - 1]), EventStep(closings, calls);
      var step := ExportStep(before.0, calls[|calls| - 1]);
      && after.0 == (if before.1.None? then step.0 else before.0)
      && after.1 == (if before.1.None? && Fails(step.1) then Some(step.1) else before.1)
  {
    hide ExportStep;
  }

  // The last till of an event export that has not failed before behaves as if it were exported alone.
  lemma LastTillAlone(past: seq<Call>, calls: seq<Call>)
    requires calls != [] && DifferentTills(calls)
    ensures var closings, init, call := Exports(past), calls[..|calls| - 1], calls[|calls| - 1];
      var before, after, alone := EventStep(closings, init), EventStep(closings, calls), ExportStep(closings, call);
      && Own(after.0, call.device) == Own(if before.1.None? then alone.0 else closings, call.device)
      && after.1 == (if before.1.None? && Fails(alone.1) then Some(alone.1) else before.1)
      && forall d :: d != call.device ==> Own(after.0, d) == Own(before.0, d)
  {
    var closings, init, call := Exports(past), calls[..|calls| - 1], calls[|calls| - 1];
    var before := EventStep(closings, init);
    PeriodsChain(past, call.device);
    EventLeavesOtherTills(closings, init, call.device);
    EventStepLast(closings, calls);
    hide Own, Chained, ExportStep, Exports, EventStep;
    ExportIsLocal(before.0, closings, call);
    forall d | d != call.device
      ensures Own(ExportStep(before.0, call).0, d) == Own(before.0, d)
    {
      ExportLeavesOtherTills(before.0, call, d);
    }
  }

  lemma {:induction false} EventFailsUnlessReached(past: seq<Call>, calls: seq<Call>)
    requires DifferentTills(calls)
    ensures EventStep(Exports(past), calls).1.None? <==> Reaches(Exports(past), calls, |calls|)
  {
    if calls != [] {
      hide EventStep, ExportStep, Exports, Own, Fails;
      var init := calls[..|calls| - 1];
      assert forall i :: 0 <= i < |init| ==> init[i] == calls[i];
      EventFailsUnlessReached(past, init);
      LastTillAlone(past, calls);
    }
  }

  // An event export after any history, whether it fails or not: each till up to the first failing one ends up as if it
  // had been exported alone; the tills after that one are left as they were.
  lemma {:induction false} EventExportIsPerTill(past: seq<Call>, calls: seq<Call>, k: nat)
    requires DifferentTills(calls) && k < |calls|
    ensures var closings, device := Exports(past), calls[k].device;
      Own(EventStep(closings, calls).0, device) ==
        Own(if Reaches(closings, calls, k) then ExportStep(closings, calls[k]).0 else closings, device)
  {
    hide Own, Exports, EventStep, ExportStep;
    var init := calls[..|calls| - 1];
    LastTillAlone(past, calls);
    if k < |init| {
      assert Reaches(Exports(past), calls, k) <==> Reaches(Exports(past), init, k);
      EventExportIsPerTill(past, init, k);
    } else {
      assert Reaches(Exports(past), calls, k) <==> Reaches(Exports(past), init, k);
      EventFailsUnlessReached(past, init);
    }
  }

  // The event export fails exactly if some till fails when it is exported alone, with the failure of the first such till.
  // Then it returns no archive at all, although the closings of the tills before that one have been allocated.
  lemma EventFailsIff(past: seq<Call>, calls: seq<Call>)
    requires DifferentTills(calls)
    ensures EventResult(Exports(past), calls).Threw? <==> !Reaches(Exports(past), calls, |calls|)
    ensures forall k :: 0 <= k < |calls| && Reaches(Exports(past), calls, k) && Fails(ExportStep(Exports(past), calls[k]).1) ==>
      EventResult(Exports(past), calls) == Threw(ExportStep(Exports(past), calls[k]).1)
  {
    hide ExportStep, Exports, EventStep;
    EventFailsUnlessReached(past, calls);
    forall k | 0 <= k < |calls| && Reaches(Exports(past), calls, k) && Fails(ExportStep(Exports(past), calls[k]).1)
      ensures EventStep(Exports(past), calls).1 == Some(ExportStep(Exports(past), calls[k]).1)
    {
      FirstFailureEndsEvent(past, calls, k);
    }
  }

  lemma FirstFailureEndsEvent(past: seq<Call>, calls: seq<Call>, k: nat)
    requires DifferentTills(calls) && k < |calls| && Reaches(Exports(past), calls, k) && Fails(ExportStep(Exports(past), calls[k]).1)
    ensures EventStep(Exports(past), calls).1 == Some(ExportStep(Exports(past), calls[k]).1)
  {
    hide ExportStep, Exports, Own, EventStep, Fails;
    var upTo := calls[..k + 1];
    assert upTo[..k] == calls[..k];
    EventFailsUnlessReached(past, upTo[..k]);
    LastTillAlone(past, upTo);
    EventStops(Exports(past), calls, k + 1);
  }

  // The archive that the export of a till produces, if any.
  function ArchiveIn(outcome: Outcome): seq<Closing> {
    if outcome.Archive? then [outcome.closing] else []
  }

  function ArchiveOf(closings: seq<Closing>): Call -> seq<Closing> {
    (call: Call) => ArchiveIn(ExportStep(closings, call).1)
  }

  // An event export that does not fail returns the archives of its tills in order, each as if it had been exported alone.
  lemma {:induction false} EventArchives(past: seq<Call>, calls: seq<Call>)
    requires DifferentTills(calls) && Reaches(Exports(past), calls, |calls|)
    ensures var archives := FlatMap(calls, ArchiveOf(Exports(past)));
      && EventStep(Exports(past), calls).2 == archives
      && EventResult(Exports(past), calls) == if archives == [] then NothingForEvent else Archives(archives)
  {
    EventFailsUnlessReached(past, calls);
    if calls != [] {
      var closings, init, call := Exports(past), calls[..|calls| - 1], calls[|calls| - 1];
      assert forall i :: 0 <= i < |init| ==> init[i] == calls[i];
      assert Reaches(closings, init, |init|) by { hide ExportStep, Exports; }
      EventArchives(past, init);
      EventFailsUnlessReached(past, init);
      LastOutcomeAlone(past, calls);
      EventStepArchives(closings, calls);
      hide Exports, EventStep, ExportStep, Own;
    }
  }

  lemma EventStepArchives(closings: seq<Closing>, calls: seq<Call>)
    requires calls != []
    ensures var before := EventStep(closings, calls[..|calls| - 1]);
      before.1.None? ==> EventStep(closings, calls).2 == before.2 + ArchiveIn(ExportStep(before.0, calls[|calls| - 1]).1)
  {
    hide ExportStep;
  }

  lemma LastOutcomeAlone(past: seq<Call>, calls: seq<Call>)
    requires calls != [] && DifferentTills(calls)
    ensures var closings, call := Exports(past), calls[|calls| - 1];
      ExportStep(EventStep(closings, calls[..|calls| - 1]).0, call).1 == ExportStep(closings, call).1
  {
    var closings, init, call := Exports(past), calls[..|calls| - 1], calls[|calls| - 1];
    PeriodsChain(past, call.device);
    EventLeavesOtherTills(closings, init, call.device);
    hide Own, Chained, ExportStep, Exports, EventStep;
    ExportIsLocal(EventStep(closings, init).0, closings, call);
  }

  // ----- where these properties end -----

  // Both ends of a period are included: a reversal or qualifying order created at the very instant of a closing is in
  // that closing, and in the till's next one if that is for the same event and sees it. Exports in between may close
  // other tills, or find nothing to export.
  lemma BoundaryReceiptIsExportedTwice(calls: seq<Call>, first: Call, between: seq<Call>, second: Call, b: Bon)
    requires first.found && second.found && second.device == first.device == b.device && second.event == first.event == b.event
    requires Sees(first, b) && Sees(second, b)
    requires PeriodStart(Exports(calls), first) <= first.now == b.createdAt <= second.now
    requires Own(Exports(calls + [first] + between), b.device) == Own(Exports(calls + [first]), b.device)
    ensures var own := Own(Exports(calls + [first] + between + [second]), b.device);
      |own| >= 2 && b in own[|own| - 2].bons && b in own[|own| - 1].bons
  {
    SeenReceiptIsExported(calls, first, b);
    NextPeriodStart(calls, first, between, second);
    hide Exports, Own, Exported, PeriodStart, Sees;
    SeenReceiptIsExported(calls + [first] + between, second, b);
  }

  // A receipt in the period that the export sees is in the closing that it adds.
  lemma SeenReceiptIsExported(calls: seq<Call>, call: Call, b: Bon)
    requires call.found && b.device == call.device && b.event == call.event && Sees(call, b)
    requires PeriodStart(Exports(calls), call) <= b.createdAt <= call.now
    ensures var c := NextClosing(Exports(calls), call);
      && b in c.bons && c.periodEnd == call.now
      && Exports(calls + [call]) == Exports(calls) + [c]
      && Own(Exports(calls + [call]), call.device) == Own(Exports(calls), call.device) + [c]
  {
    ExportedIff(Exports(calls), call, b);
    assert (calls + [call])[..|calls|] == calls;
    OwnAppend(Exports(calls), NextClosing(Exports(calls), call), call.device);
  }

  lemma NextPeriodStart(calls: seq<Call>, first: Call, between: seq<Call>, second: Call)
    requires second.device == first.device && Exports(calls + [first]) == Exports(calls) + [NextClosing(Exports(calls), first)]
    requires Own(Exports(calls + [first] + between), first.device) == Own(Exports(calls + [first]), first.device)
    ensures PeriodStart(Exports(calls + [first] + between), second) == first.now
  {
    PeriodsChain(calls + [first], first.device);
    LastOfOwn(Exports(calls + [first] + between), first.device);
    OwnAppend(Exports(calls), NextClosing(Exports(calls), first), first.device);
    hide Own, Exports, Exported;
  }
}
