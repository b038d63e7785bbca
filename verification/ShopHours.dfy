// The hours of a shop that has no entered windows: one derived window for each day of the event, and the next opening.
module ShopHours {
  import opened Options
  import opened Calendar
  import opened ZoneClock
  import opened EventSchedule

  function LocalTime(z: Zone, t: int): (time: TimeOfDay)
    ensures time.hour < 24 && time.minute < 60
  {
    var w := ToWallClock(z, t);
    TimeOfDay(w.hour, w.minute)
  }

  // One entry for each event day, with the local times of the start and the end of the event.
  function DerivedDays(z: Zone, start: DateArg, end: DateArg): (days: seq<DayWindow>)
  {
    if !start.At? then []
    else
      var keys := ListEventDayKeys(z, start, end);
      var from := FormatHHMM(LocalTime(z, start.instant));
      var until := FormatHHMM(LocalTime(z, EffectiveEnd(start.instant, end)));
      seq(|keys|, i requires 0 <= i < |keys| => DayWindow(keys[i], from, until))
  }

  function DeriveShopWindows(z: Zone, start: DateArg, end: DateArg): seq<Window> {
    ToWindows(z, ReadEntries(DerivedDays(z, start, end)))
  }

  function DerivedEntry(z: Zone, start: int, end: DateArg, i: int): Entry {
    Entry(LocalDay(z, start) + i, LocalTime(z, start), LocalTime(z, EffectiveEnd(start, end)))
  }

  // The first listed start after now.
  function NextOpening(windows: seq<Window>, now: int): Option<int> {
    if windows == [] then None
    else if windows[0].start > now then Some(windows[0].start)
    else NextOpening(windows[1..], now)
  }

  // Each derived entry reads back as itself, so no event day is lost.
  lemma DerivedEntryReads(z: Zone, start: int, end: DateArg, i: nat)
    requires i < |DerivedDays(z, At(start), end)|
    requires InKeyedYears(LocalDay(z, start)) && InKeyedYears(LocalDay(z, EffectiveEnd(start, end)))
    ensures ReadEntry(DerivedDays(z, At(start), end)[i]) == Some(DerivedEntry(z, start, end, i))
  {
    hide InKeyedYears, EffectiveEnd, CountEventDays, DateKeyToDayNumber, ParseHHMM, FormatHHMM, LocalDay, LocalTime, ListEventDayKeys;
    CalendarWalk(z, start, end);
    TimeReadsBack(LocalTime(z, start));
    TimeReadsBack(LocalTime(z, EffectiveEnd(start, end)));
  }

  lemma {:induction false} DerivedEntries(z: Zone, start: int, end: DateArg, n: nat)
    requires n <= |DerivedDays(z, At(start), end)|
    requires InKeyedYears(LocalDay(z, start)) && InKeyedYears(LocalDay(z, EffectiveEnd(start, end)))
    ensures ReadEntries(DerivedDays(z, At(start), end)[..n]) == seq(n, i => DerivedEntry(z, start, end, i))
  {
    hide InKeyedYears, LocalDay, DerivedDays, ReadEntry, DerivedEntry;
    var days := DerivedDays(z, At(start), end);
    if n > 0 {
      DerivedEntries(z, start, end, n - 1);
      DerivedEntryReads(z, start, end, n - 1);
      assert days[..n][..n - 1] == days[..n - 1];
    }
  }

  // ----- the shop -----

  datatype HoursMode = EventHours | WeeklyHours

  // The settings of a shop: the chosen mode if any, whether the weekly table has an entry, and the entered day windows.
  datatype ShopSettings = ShopSettings(hoursMode: Option<HoursMode>, hasWeeklyTable: bool, days: seq<DayWindow>)

  function ResolveShopHoursMode(hoursMode: Option<HoursMode>, hasWeeklyTable: bool): HoursMode {
    if hoursMode.Some? then hoursMode.value else if hasWeeklyTable then WeeklyHours else EventHours
  }

  // The entries of a shop in event mode: the entered ones take precedence over the derived ones.
  function ShopDays(z: Zone, shop: ShopSettings, start: DateArg, end: DateArg): seq<DayWindow> {
    if shop.days != [] then shop.days else DerivedDays(z, start, end)
  }

  // The windows of a shop; the weekly table is not part of this model.
  function ResolveShopWindows(z: Zone, shop: ShopSettings, start: DateArg, end: DateArg, weekly: seq<Window>): seq<Window> {
    if ResolveShopHoursMode(shop.hoursMode, shop.hasWeeklyTable).EventHours? then
      ToWindows(z, ReadEntries(ShopDays(z, shop, start, end)))
    else weekly
  }

  function IsOpenNow(testMode: bool, windows: seq<Window>, now: int): bool {
    testMode || IsWithin(now, windows)
  }

  // A shop on derived hours is open exactly when the local reading lies between the meant start and end of some event
  // day; if no change skips these, exactly when the local time lies in the event's hours counted from some event day.
  lemma DerivedHoursAreExact(z: Zone, shop: ShopSettings, start: int, end: DateArg, weekly: seq<Window>, now: int)
    requires z.Valid() && Resolve(z, z.WallMinute(now)) == now
    requires InKeyedYears(LocalDay(z, start)) && InKeyedYears(LocalDay(z, EffectiveEnd(start, end)))
    requires shop.days == [] && shop.hoursMode != Some(WeeklyHours) && (shop.hoursMode.Some? || !shop.hasWeeklyTable)
    ensures var open, n := IsOpenNow(false, ResolveShopWindows(z, shop, At(start), end, weekly), now), CountEventDays(z, At(start), end);
      && (open <==> exists i :: 0 <= i < n && DerivedEntry(z, start, end, i).MeansToCover(z, z.WallMinute(now)))
      && (DerivedShown(z, start, end) ==>
           (open <==> exists i :: 0 <= i < n && DerivedEntry(z, start, end, i).Covers(LocalDay(z, now), z.WallMinute(now) % MINUTES_PER_DAY)))
  {
    hide CivilOfDay, LocalDay, LocalTime, DerivedDays, Zone.Valid, Zone.Shown, Zone.WallMinute, Zone.Meant, Resolve, CountEventDays,
      Entry.Covers, Entry.MeansToCover, IsWithin, ReadEntries, ToWindows;
    var days := DerivedDays(z, At(start), end);
    DerivedLength(z, start, end);
    DerivedEntries(z, start, end, |days|);
    assert days[..|days|] == days;
    var entries := ReadEntries(days);
    assert forall i :: 0 <= i < |entries| ==> entries[i] == DerivedEntry(z, start, end, i);
    WindowsRefineEntries(z, days, now);
  }

  ghost predicate DerivedShown(z: Zone, start: int, end: DateArg) {
    forall i :: 0 <= i < CountEventDays(z, At(start), end) ==> DerivedEntry(z, start, end, i).Shown(z)
  }

  // Sorted and pairwise disjoint: every window is non-empty and ends no later than each later one starts.
  ghost predicate InOrder(ws: seq<Window>) {
    && (forall i :: 0 <= i < |ws| ==> ws[i].start < ws[i].end)
    && (forall i, j :: 0 <= i < j < |ws| ==> ws[i].end <= ws[j].start)
  }

  // The same of entries, in terms of the readings meant by their endpoints.
  ghost predicate MeantInOrder(z: Zone, es: seq<Entry>) {
    && (forall i :: 0 <= i < |es| ==> z.Meant(es[i].StartMinute()) < z.Meant(es[i].EndMinute()))
    && (forall i, j :: 0 <= i < j < |es| ==> z.Meant(es[i].EndMinute()) <= z.Meant(es[j].StartMinute()))
  }

  // Windows are in order exactly if their entries are, and abut exactly if the meant readings do.
  lemma WindowsInOrderIff(z: Zone, es: seq<Entry>)
    requires z.Valid()
    ensures InOrder(ToWindows(z, es)) <==> MeantInOrder(z, es)
    ensures forall i, j :: 0 <= i < |es| && 0 <= j < |es| ==>
      (ToWindows(z, es)[i].end == ToWindows(z, es)[j].start <==> z.Meant(es[i].EndMinute()) == z.Meant(es[j].StartMinute()))
  {
    hide Zone.Valid, Zone.Meant, Resolve, Entry.StartMinute, Entry.EndMinute;
    var ws := ToWindows(z, es);
    forall i, j | 0 <= i < |es| && 0 <= j < |es|
      ensures ws[i].end <= ws[j].start <==> z.Meant(es[i].EndMinute()) <= z.Meant(es[j].StartMinute())
      ensures ws[j].start <= ws[i].end <==> z.Meant(es[j].StartMinute()) <= z.Meant(es[i].EndMinute())
    {
      ResolveComparesAsMeant(z, es[i].EndMinute(), es[j].StartMinute());
      ResolveComparesAsMeant(z, es[j].StartMinute(), es[i].EndMinute());
    }
  }

  function DerivedEntriesOf(z: Zone, start: int, end: DateArg): seq<Entry> {
    seq(CountEventDays(z, At(start), end), i => DerivedEntry(z, start, end, i))
  }

  // Entries of an event without skipped endpoints are in order; neighbours abut exactly when the event starts and ends at
  // the same local time.
  lemma DerivedEntriesInOrder(z: Zone, start: int, end: DateArg)
    requires z.Valid() && DerivedShown(z, start, end)
    ensures var es := DerivedEntriesOf(z, start, end);
      && MeantInOrder(z, es)
      && forall i :: 0 < i < |es| ==>
           (z.Meant(es[i - 1].EndMinute()) == z.Meant(es[i].StartMinute()) <==> LocalTime(z, start) == LocalTime(z, EffectiveEnd(start, end)))
  {
    hide LocalDay, LocalTime, Zone.Valid, Zone.Shown, Zone.Meant, CountEventDays;
    var es := DerivedEntriesOf(z, start, end);
    forall i | 0 <= i < |es|
      ensures z.Meant(es[i].StartMinute()) == es[i].StartMinute() && z.Meant(es[i].EndMinute()) == es[i].EndMinute()
    {
      assert es[i].Shown(z);
      ResolveMeans(z, es[i].StartMinute());
      ResolveMeans(z, es[i].EndMinute());
    }
  }

  // There is one derived window for each event day. They are in order exactly if the readings meant by the days' starts
  // and ends are; in particular if no clock change skips one, and then neighbours abut exactly when the event starts and
  // ends at the same local time.
  lemma DerivedWindowsInOrder(z: Zone, start: int, end: DateArg)
    requires z.Valid()
    requires InKeyedYears(LocalDay(z, start)) && InKeyedYears(LocalDay(z, EffectiveEnd(start, end)))
    ensures var ws := DeriveShopWindows(z, At(start), end);
      && |ws| == CountEventDays(z, At(start), end)
      && (InOrder(ws) <==> MeantInOrder(z, DerivedEntriesOf(z, start, end)))
      && (DerivedShown(z, start, end) ==> InOrder(ws))
      && (DerivedShown(z, start, end) ==> forall i :: 0 < i < |ws| ==>
           (ws[i - 1].end == ws[i].start <==> LocalTime(z, start) == LocalTime(z, EffectiveEnd(start, end))))
  {
    var es := DerivedEntriesOf(z, start, end);
    DerivedWindowsOf(z, start, end);
    WindowsInOrderIff(z, es);
    if DerivedShown(z, start, end) {
      DerivedEntriesInOrder(z, start, end);
    }
    hide LocalDay, LocalTime, DerivedEntry, DerivedShown, CountEventDays, DeriveShopWindows, ToWindows, InOrder, MeantInOrder,
      Entry.StartMinute, Entry.EndMinute, Zone.Meant, EffectiveEnd, InKeyedYears, Zone.Valid;
  }

  lemma DerivedWindowsOf(z: Zone, start: int, end: DateArg)
    requires InKeyedYears(LocalDay(z, start)) && InKeyedYears(LocalDay(z, EffectiveEnd(start, end)))
    ensures DeriveShopWindows(z, At(start), end) == ToWindows(z, DerivedEntriesOf(z, start, end))
    ensures |DerivedEntriesOf(z, start, end)| == CountEventDays(z, At(start), end)
  {
    hide LocalDay, InKeyedYears, DerivedDays, DerivedEntry, CountEventDays, ToWindows, ReadEntries, EffectiveEnd;
    var days := DerivedDays(z, At(start), end);
    DerivedLength(z, start, end);
    DerivedEntries(z, start, end, |days|);
    assert days[..|days|] == days;
  }

  lemma DerivedLength(z: Zone, start: int, end: DateArg)
    ensures |DerivedDays(z, At(start), end)| == CountEventDays(z, At(start), end)
  {
  }

  // ----- when a shop is open -----

  // No mode is chosen and the weekly table has no entry, or the event mode is chosen.
  predicate InEventMode(shop: ShopSettings) {
    if shop.hoursMode.Some? then shop.hoursMode.value.EventHours? else !shop.hasWeeklyTable
  }

  // In event mode entered windows decide, at every instant that its own reading resolves to: the shop is open exactly if
  // the local reading lies between the meant start and end of some readable one; if no change skips these, exactly if
  // some readable one covers the local day and time.
  lemma EnteredHoursAreExact(z: Zone, shop: ShopSettings, start: DateArg, end: DateArg, weekly: seq<Window>, now: int)
    requires z.Valid() && Resolve(z, z.WallMinute(now)) == now
    requires shop.days != [] && InEventMode(shop)
    ensures var open := IsOpenNow(false, ResolveShopWindows(z, shop, start, end, weekly), now);
      && (open <==> exists e :: e in ReadEntries(shop.days) && e.MeansToCover(z, z.WallMinute(now)))
      && ((forall e :: e in ReadEntries(shop.days) ==> e.Shown(z)) ==>
           (open <==> exists e :: e in ReadEntries(shop.days) && e.Covers(LocalDay(z, now), z.WallMinute(now) % MINUTES_PER_DAY)))
  {
    WindowsRefineEntries(z, shop.days, now);
  }

  // The readable entries are those of the entered windows that read, whatever stands before or after them.
  lemma {:induction false} EntriesAreRead(days: seq<DayWindow>, e: Entry)
    ensures e in ReadEntries(days) <==> exists d :: d in days && ReadEntry(d) == Some(e)
  {
    hide ReadEntry;
    if days != [] {
      var init, last := days[..|days| - 1], days[|days| - 1];
      EntriesAreRead(init, e);
      assert days == init + [last];
    }
  }

  // A shop in weekly mode is open exactly in its weekly windows, and any shop is in test mode.
  lemma OtherHours(z: Zone, shop: ShopSettings, start: DateArg, end: DateArg, weekly: seq<Window>, now: int)
    ensures IsOpenNow(true, ResolveShopWindows(z, shop, start, end, weekly), now)
    ensures !InEventMode(shop) ==>
      (IsOpenNow(false, ResolveShopWindows(z, shop, start, end, weekly), now) <==>
        exists i :: 0 <= i < |weekly| && weekly[i].start <= now < weekly[i].end)
    ensures InEventMode(shop) && shop.days == [] && !start.At? ==> !IsOpenNow(false, ResolveShopWindows(z, shop, start, end, weekly), now)
  {
    if i :| 0 <= i < |weekly| && weekly[i].start <= now < weekly[i].end {
      assert Contains(weekly[i], now);
    }
  }

  // The reading lies in hours from minute a to minute b of day d, running into the next day unless b is later.
  predicate InHours(reading: int, d: int, a: int, b: int) {
    MINUTES_PER_DAY * d + a <= reading < MINUTES_PER_DAY * (if a < b then d else d + 1) + b
  }

  // Without entered windows, and without skipped starts and ends, a shop in event mode is open on each day from that of
  // the event's start to that of its end, from the time of day of the start to that of the end. An absent or unreadable
  // end counts as the start, and an end on an earlier day leaves the day of the start.
  lemma DerivedHoursInMinutes(z: Zone, shop: ShopSettings, start: int, end: DateArg, weekly: seq<Window>, now: int)
    requires z.Valid() && Resolve(z, z.WallMinute(now)) == now && DerivedShown(z, start, end)
    requires shop.days == [] && InEventMode(shop)
    requires InKeyedYears(LocalDay(z, start)) && InKeyedYears(LocalDay(z, if end.At? then end.instant else start))
    ensures var s, e := z.WallMinute(start), z.WallMinute(if end.At? then end.instant else start);
      var first, last := s / MINUTES_PER_DAY, e / MINUTES_PER_DAY;
      IsOpenNow(false, ResolveShopWindows(z, shop, At(start), end, weekly), now) <==>
        exists d :: first <= d && (d == first || d <= last) && InHours(z.WallMinute(now), d, s % MINUTES_PER_DAY, e % MINUTES_PER_DAY)
  {
    var s, e := z.WallMinute(start), z.WallMinute(if end.At? then end.instant else start);
    var n := CountEventDays(z, At(start), end);
    DerivedHoursAreExact(z, shop, start, end, weekly, now);
    EventDaysInMinutes(z, start, end);
    SomeEntryInMinutes(z, start, end, n, z.WallMinute(now));
    hide *;
    SomeDayOf(z.WallMinute(now), s / MINUTES_PER_DAY, e / MINUTES_PER_DAY, n, s % MINUTES_PER_DAY, e % MINUTES_PER_DAY);
  }

  lemma EventDaysInMinutes(z: Zone, start: int, end: DateArg)
    requires InKeyedYears(LocalDay(z, start)) && InKeyedYears(LocalDay(z, if end.At? then end.instant else start))
    ensures var s, e := z.WallMinute(start), z.WallMinute(if end.At? then end.instant else start);
      var first, last := s / MINUTES_PER_DAY, e / MINUTES_PER_DAY;
      CountEventDays(z, At(start), end) == if first <= last then last - first + 1 else 1
  {
    CalendarWalk(z, start, end);
    hide CountEventDays, ListEventDayKeys, ToDateKey, DateKeyToDayNumber, InKeyedYears;
  }

  lemma SomeEntryInMinutes(z: Zone, start: int, end: DateArg, n: int, m: int)
    ensures var s, e := z.WallMinute(start), z.WallMinute(if end.At? then end.instant else start);
      (exists i :: 0 <= i < n && DerivedEntry(z, start, end, i).Covers(m / MINUTES_PER_DAY, m % MINUTES_PER_DAY)) <==>
        exists i :: 0 <= i < n && InHoursFrom(m, s / MINUTES_PER_DAY, i, s % MINUTES_PER_DAY, e % MINUTES_PER_DAY)
  {
    hide DerivedEntry, Entry.Covers, InHoursFrom, Zone.WallMinute;
    var s, e := z.WallMinute(start), z.WallMinute(if end.At? then end.instant else start);
    forall i
      ensures DerivedEntry(z, start, end, i).Covers(m / MINUTES_PER_DAY, m % MINUTES_PER_DAY) <==>
        InHoursFrom(m, s / MINUTES_PER_DAY, i, s % MINUTES_PER_DAY, e % MINUTES_PER_DAY)
    {
      DerivedEntryInMinutes(z, start, end, i, m);
    }
  }

  predicate InHoursFrom(reading: int, first: int, i: int, a: int, b: int) {
    InHours(reading, first + i, a, b)
  }

  lemma SomeDayOf(m: int, first: int, last: int, n: int, a: int, b: int)
    requires n == if first <= last then last - first + 1 else 1
    ensures (exists i :: 0 <= i < n && InHoursFrom(m, first, i, a, b)) <==>
      exists d :: first <= d && (d == first || d <= last) && InHours(m, d, a, b)
  {
    hide InHours;
    if i :| 0 <= i < n && InHoursFrom(m, first, i, a, b) {
      assert InHours(m, first + i, a, b);
    }
    if d :| first <= d && (d == first || d <= last) && InHours(m, d, a, b) {
      assert first + (d - first) == d;
      assert InHoursFrom(m, first, d - first, a, b);
    }
  }

  lemma DerivedEntryInMinutes(z: Zone, start: int, end: DateArg, i: int, m: int)
    ensures var s, e := z.WallMinute(start), z.WallMinute(if end.At? then end.instant else start);
      DerivedEntry(z, start, end, i).Covers(m / MINUTES_PER_DAY, m % MINUTES_PER_DAY) <==>
        InHoursFrom(m, s / MINUTES_PER_DAY, i, s % MINUTES_PER_DAY, e % MINUTES_PER_DAY)
  {
    LocalTimeInMinutes(z, start);
    LocalTimeInMinutes(z, EffectiveEnd(start, end));
    hide LocalTime, Zone.WallMinute;
    CoversIsInterval(DerivedEntry(z, start, end, i), m);
  }

  lemma LocalTimeInMinutes(z: Zone, t: int)
    ensures LocalTime(z, t).Minutes() == z.WallMinute(t) % MINUTES_PER_DAY
  {
  }

  // ----- the next opening -----

  // What the next opening should be: the earliest start after now, and none only if no start is left.
  ghost predicate IsEarliestAfter(ws: seq<Window>, now: int, r: Option<int>) {
    && (r.None? <==> forall i :: 0 <= i < |ws| ==> ws[i].start <= now)
    && (r.Some? ==> r.value > now && exists i :: 0 <= i < |ws| && ws[i].start == r.value)
    && (r.Some? ==> forall i :: 0 <= i < |ws| && ws[i].start > now ==> r.value <= ws[i].start)
  }

  // A window that starts earlier than one listed before it repeats a start listed before both.
  ghost predicate StartsListedInOrder(ws: seq<Window>) {
    forall i, j :: 0 <= i < j < |ws| && ws[j].start < ws[i].start ==> ListedBefore(ws, i, ws[j].start)
  }

  ghost predicate ListedBefore(ws: seq<Window>, i: nat, start: int)
    requires i <= |ws|
  {
    exists k :: 0 <= k < i && ws[k].start == start
  }

  lemma {:induction false} NextOpeningIsFirst(ws: seq<Window>, now: int)
    ensures var r := NextOpening(ws, now);
      && (r.None? <==> forall i :: 0 <= i < |ws| ==> ws[i].start <= now)
      && (r.Some? ==> exists i :: 0 <= i < |ws| && ws[i].start == r.value > now && forall k :: 0 <= k < i ==> ws[k].start <= now)
  {
    if ws != [] {
      var rest := ws[1..];
      NextOpeningIsFirst(rest, now);
      assert forall i :: 0 <= i < |rest| ==> rest[i] == ws[i + 1];
      assert forall i :: 0 < i < |ws| ==> ws[i] == rest[i - 1];
      if NextOpening(rest, now).Some? {
        var i :| 0 <= i < |rest| && rest[i].start == NextOpening(rest, now).value > now && forall k :: 0 <= k < i ==> rest[k].start <= now;
        assert ws[i + 1] == rest[i];
      }
    }
  }

  lemma EarliestIfInOrder(ws: seq<Window>, now: int)
    requires StartsListedInOrder(ws)
    ensures IsEarliestAfter(ws, now, NextOpening(ws, now))
  {
    NextOpeningIsFirst(ws, now);
    hide NextOpening;
    var r := NextOpening(ws, now);
    if r.Some? {
      var i :| 0 <= i < |ws| && ws[i].start == r.value > now && forall k :: 0 <= k < i ==> ws[k].start <= now;
      hide StartsListedInOrder;
      forall j | 0 <= j < |ws| && ws[j].start > now
        ensures r.value <= ws[j].start
      {
        FirstIsEarliest(ws, now, i, j);
      }
    }
  }

  lemma FirstIsEarliest(ws: seq<Window>, now: int, i: nat, j: nat)
    requires StartsListedInOrder(ws) && i < |ws| && j < |ws| && ws[i].start > now && ws[j].start > now
    requires forall k :: 0 <= k < i ==> ws[k].start <= now
    ensures ws[i].start <= ws[j].start
  {
  }

  lemma MissedUnlessInOrder(ws: seq<Window>) returns (now: int)
    requires !StartsListedInOrder(ws)
    ensures !IsEarliestAfter(ws, now, NextOpening(ws, now))
  {
    var i, j :| 0 <= i < j < |ws| && ws[j].start < ws[i].start && !ListedBefore(ws, i, ws[j].start);
    now := ws[j].start - 1;
    NextOpeningIsFirst(ws, now);
    hide NextOpening;
    var r := NextOpening(ws, now);
    var k :| 0 <= k < |ws| && ws[k].start == r.value > now && forall l :: 0 <= l < k ==> ws[l].start <= now;
    assert k <= i;
    assert r.value > ws[j].start;
  }

  // The next opening is the earliest one at all times exactly if the starts are listed in order, repetitions aside; in
  // particular in windows that are sorted by their start, overlapping or not.
  lemma NextOpeningIsEarliest(ws: seq<Window>)
    ensures (forall now :: IsEarliestAfter(ws, now, NextOpening(ws, now))) <==> StartsListedInOrder(ws)
    ensures (forall i, j :: 0 <= i < j < |ws| ==> ws[i].start <= ws[j].start) ==> StartsListedInOrder(ws)
  {
    hide IsEarliestAfter, NextOpening;
    if StartsListedInOrder(ws) {
      forall now
        ensures IsEarliestAfter(ws, now, NextOpening(ws, now))
      {
        EarliestIfInOrder(ws, now);
      }
    } else {
      var now := MissedUnlessInOrder(ws);
    }
  }

  // ----- where these properties end -----

  // When clocks go back from 03:00 to 02:00 east of Greenwich, the first 02:30 is covered by an entry from 02:00 to
  // 04:00, but the resolved window only opens at the second 02:00.
  lemma AmbiguousHourStaysClosed()
    ensures var z := OneChangeZone(120, 60, 144060);
      var e := Entry(100, TimeOfDay(2, 0), TimeOfDay(4, 0));
      var t := 144030;
      && z.PassedOver(144060, t) && e.Shown(z)
      && e.Covers(LocalDay(z, t), z.WallMinute(t) % MINUTES_PER_DAY)
      && !Contains(ToWindow(z, e), t)
  {
    var z := OneChangeZone(120, 60, 144060);
    assert z.WallMinute(144060) == 144120 && z.WallMinute(144180) == 144240;
  }

  // When clocks go back from 02:00 to 01:00 west of Greenwich, the second 01:30 is not covered by an entry from 01:45
  // to 03:00, but the resolved window has already opened at the first 01:45.
  lemma AmbiguousHourOpensEarly()
    ensures var z := OneChangeZone(-240, -300, 144360);
      var e := Entry(100, TimeOfDay(1, 45), TimeOfDay(3, 0));
      var t := 144390;
      && z.PassedOver(144360, t) && e.Shown(z)
      && !e.Covers(LocalDay(z, t), z.WallMinute(t) % MINUTES_PER_DAY)
      && Contains(ToWindow(z, e), t)
  {
    var z := OneChangeZone(-240, -300, 144360);
    assert z.WallMinute(144345) == 144105 && z.WallMinute(144480) == 144180;
  }

  // When clocks go forward, a window whose end or start is skipped can end before it starts, and then the shop never
  // opens in it: west of Greenwich from 01:59 to a skipped 02:05, east of it from a skipped 02:59 to 03:05.
  lemma SkippedEndpointInvertsWindow()
    ensures var z := OneChangeZone(-300, -240, 144420);
      var e := Entry(100, TimeOfDay(1, 59), TimeOfDay(2, 5));
      z.Shown(e.StartMinute()) && z.Skips(144420, e.EndMinute()) && ToWindow(z, e) == Window(144419, 144365)
    ensures var z := OneChangeZone(60, 120, 144060);
      var e := Entry(100, TimeOfDay(2, 59), TimeOfDay(3, 5));
      z.Skips(144060, e.StartMinute()) && z.Shown(e.EndMinute()) && ToWindow(z, e) == Window(144119, 144065)
  {
    assert OneChangeZone(-300, -240, 144420).WallMinute(144419) == 144119;
    assert OneChangeZone(60, 120, 144060).WallMinute(144065) == 144185;
  }

  // The window of a day as the calendar dialog enters it.
  function EnteredDay(day: int, from: TimeOfDay, until: TimeOfDay): DayWindow {
    DayWindow(DateKey(CivilOfDay(day)), FormatHHMM(from), FormatHHMM(until))
  }

  lemma EnteredDayReads(day: int, from: TimeOfDay, until: TimeOfDay)
    requires InKeyedYears(day) && from.hour < 24 && from.minute < 60 && until.hour < 24 && until.minute < 60
    ensures ReadEntry(EnteredDay(day, from, until)) == Some(Entry(day, from, until))
  {
    hide CivilOfDay, FormatHHMM, DateKey, ParseHHMM, DateKeyToDayNumber;
    DateKeyReadsBack(day);
    TimeReadsBack(from);
    TimeReadsBack(until);
  }

  lemma TwoEntries(a: DayWindow, b: DayWindow)
    requires ReadEntry(a).Some? && ReadEntry(b).Some?
    ensures ReadEntries([a, b]) == [ReadEntry(a).value, ReadEntry(b).value]
  {
    hide ReadEntry;
    assert [a, b][..1] == [a] && [a][..0] == [];
    assert ReadEntries([a]) == [ReadEntry(a).value];
  }

  // Entered windows keep the order in which they were entered. Two days entered with the later one first: before both
  // the next opening is the later day's, although the other one opens earlier.
  lemma UnorderedEntriesMissTheEarliestOpening(z: Zone, early: int, late: int, from: TimeOfDay, until: TimeOfDay, now: int)
    requires z.Valid() && early < late && InKeyedYears(early) && InKeyedYears(late)
    requires from.hour < 24 && from.minute < 60 && until.hour < 24 && until.minute < 60
    requires now < Resolve(z, Entry(early, from, until).StartMinute()) && now < Resolve(z, Entry(late, from, until).StartMinute())
    ensures var ws := ToWindows(z, ReadEntries([EnteredDay(late, from, until), EnteredDay(early, from, until)]));
      var a, b := z.Meant(Entry(early, from, until).StartMinute()), z.Meant(Entry(late, from, until).StartMinute());
      && |ws| == 2 && NextOpening(ws, now) == Some(ws[0].start)
      && (now < ws[1].start < ws[0].start <==> a < b)
      && (z.Shown(Entry(early, from, until).StartMinute()) && z.Shown(Entry(late, from, until).StartMinute()) ==> a < b)
  {
    hide CivilOfDay, FormatHHMM, DateKey, ParseHHMM, DateKeyToDayNumber, Resolve, Zone.Valid, Zone.Shown, Zone.Meant, InKeyedYears;
    EnteredDayReads(late, from, until);
    EnteredDayReads(early, from, until);
    TwoEntries(EnteredDay(late, from, until), EnteredDay(early, from, until));
    var s, l := Entry(early, from, until).StartMinute(), Entry(late, from, until).StartMinute();
    ResolveMeans(z, s);
    ResolveMeans(z, l);
    ResolveComparesAsMeant(z, l, s);
  }
}
