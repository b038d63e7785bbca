// The schedule of an event: its calendar days, and when its online shop is open.
module EventSchedule {
  import opened Options
  import opened Decimal
  import opened Calendar
  import opened ZoneClock

  // A start or end date as it reaches the schedule: absent, unreadable, or an instant.
  datatype DateArg = Missing | Unreadable | At(instant: int)

  datatype TimeOfDay = TimeOfDay(hour: nat, minute: nat) {
    function Minutes(): int { 60 * hour + minute }
  }

  // A shop window as it is entered, and as a pair of instants.
  datatype DayWindow = DayWindow(date: string, start: string, end: string)
  datatype Window = Window(start: int, end: int)

  // ----- date keys -----

  function DateKey(c: Civil): string
    requires c.Exists()
  {
    Integer(c.year) + "-" + Pad2(c.month) + "-" + Pad2(c.day)
  }

  function ToDateKey(z: Zone, t: int): string {
    var w := ToWallClock(z, t);
    DateKey(Civil(w.year, w.month, w.day))
  }

  // /^(\d{4})-(\d{2})-(\d{2})$/ and Date.UTC of its groups.
  function DateKeyToDayNumber(key: string): Option<int> {
    if |key| == 10 && AllDigits(key[..4]) && key[4] == '-' && AllDigits(key[5..7]) && key[7] == '-' && AllDigits(key[8..]) then
      Some(UtcDay(NumberOf(key[..4]), NumberOf(key[5..7]) - 1, NumberOf(key[8..])))
    else
      None
  }

  // /^(\d{1,2}):(\d{2})$/, then the range check.
  function ParseHHMM(value: string): (r: Option<TimeOfDay>)
    ensures r.Some? ==> r.value.hour < 24 && r.value.minute < 60
  {
    var n := |value|;
    if (n == 4 || n == 5) && AllDigits(value[..n - 3]) && value[n - 3] == ':' && AllDigits(value[n - 2..]) then
      var hour, minute := NumberOf(value[..n - 3]), NumberOf(value[n - 2..]);
      if hour > 23 || minute > 59 then None else Some(TimeOfDay(hour, minute))
    else
      None
  }

  function FormatHHMM(time: TimeOfDay): string {
    Pad2(time.hour) + ":" + Pad2(time.minute)
  }

  lemma CivilPartsPrint(c: Civil)
    requires c.Exists()
    ensures |Pad2(c.month)| == 2 && AllDigits(Pad2(c.month)) && NumberOf(Pad2(c.month)) == c.month
    ensures |Pad2(c.day)| == 2 && AllDigits(Pad2(c.day)) && NumberOf(Pad2(c.day)) == c.day
  {
    Pad2ReadsBack(c.month);
    Pad2ReadsBack(c.day);
  }

  lemma YearPrints(y: int)
    ensures |Integer(y)| == 4 && AllDigits(Integer(y)) <==> 1000 <= y <= 9999
    ensures 1000 <= y <= 9999 ==> NumberOf(Integer(y)) == y
  {
    if y < 0 {
      assert !IsDigit(Integer(y)[0]);
    } else {
      NaturalReadsBack(y);
      NaturalLength(y, 3);
      NaturalLength(y, 4);
      assert Pow10(4) == 10000 by { assert Pow10(4) == 10 * Pow10(3) && Pow10(3) == 10 * Pow10(2) && Pow10(2) == 10 * Pow10(1); }
    }
  }

  // The key of a day reads back as that day exactly for the years whose key has four digits; other keys are unreadable.
  lemma DateKeyReadsBack(d: int)
    ensures var r := DateKeyToDayNumber(DateKey(CivilOfDay(d)));
      r == if 1000 <= CivilOfDay(d).year <= 9999 then Some(d) else None
  {
    var c := CivilOfDay(d);
    CivilDateReadsBack(d);
    hide CivilOfDay, UtcDay, Civil.Exists;
    CivilPartsPrint(c);
    YearPrints(c.year);
    var y, m, dd := Integer(c.year), Pad2(c.month), Pad2(c.day);
    var key := y + "-" + m + "-" + dd;
    if |key| == 10 {
      assert key[..4] == y && key[5..7] == m && key[8..] == dd;
    }
  }

  lemma TimeReadsBack(time: TimeOfDay)
    requires time.hour < 24 && time.minute < 60
    ensures ParseHHMM(FormatHHMM(time)) == Some(time)
  {
    Pad2ReadsBack(time.hour);
    Pad2ReadsBack(time.minute);
    var s := FormatHHMM(time);
    assert s[..2] == Pad2(time.hour) && s[3..] == Pad2(time.minute);
  }

  // A time is readable exactly if it is one or two digits, a colon and two digits, of an hour below 24 and a minute below
  // 60; then it is that hour and minute.
  lemma ReadableTimes(value: string, time: TimeOfDay)
    ensures ParseHHMM(value) == Some(time) <==> exists h, m :: IsTime(value, h, m) && time == TimeOfDay(NumberOf(h), NumberOf(m))
  {
    hide NumberOf;
    var n := |value|;
    if ParseHHMM(value) == Some(time) {
      var h, m := value[..n - 3], value[n - 2..];
      assert value == h + ":" + m;
      assert IsTime(value, h, m);
    }
    if h, m :| IsTime(value, h, m) && time == TimeOfDay(NumberOf(h), NumberOf(m)) {
      assert value[..n - 3] == h && value[n - 2..] == m && value[n - 3] == ':';
    }
  }

  predicate IsTime(value: string, h: string, m: string) {
    && value == h + ":" + m && 1 <= |h| <= 2 && |m| == 2 && AllDigits(h) && AllDigits(m)
    && NumberOf(h) < 24 && NumberOf(m) < 60
  }

  // A date is readable exactly if it is four, two and two digits with dashes; then it is the day of that date, months and
  // days beyond the calendar running on as in Date.UTC.
  lemma ReadableDates(key: string, d: int)
    ensures DateKeyToDayNumber(key) == Some(d) <==>
      exists y, m, dd :: IsDate(key, y, m, dd) && d == UtcDay(NumberOf(y), NumberOf(m) - 1, NumberOf(dd))
  {
    hide NumberOf, UtcDay;
    if DateKeyToDayNumber(key) == Some(d) {
      var y, m, dd := key[..4], key[5..7], key[8..];
      assert key == y + "-" + m + "-" + dd;
      assert IsDate(key, y, m, dd);
    }
    if y, m, dd :| IsDate(key, y, m, dd) && d == UtcDay(NumberOf(y), NumberOf(m) - 1, NumberOf(dd)) {
      DateParts(y, m, dd);
    }
  }

  lemma DateParts(y: string, m: string, dd: string)
    requires |y| == 4 && |m| == |dd| == 2
    ensures var key := y + "-" + m + "-" + dd;
      |key| == 10 && key[..4] == y && key[5..7] == m && key[8..] == dd && key[4] == key[7] == '-'
  {
    var key := y + "-" + m + "-" + dd;
    assert forall i :: 0 <= i < 4 ==> key[i] == y[i];
    assert key[4] == '-' && key[5] == m[0] && key[6] == m[1] && key[7] == '-' && key[8] == dd[0] && key[9] == dd[1];
  }

  predicate IsDate(key: string, y: string, m: string, dd: string) {
    key == y + "-" + m + "-" + dd && |y| == 4 && |m| == |dd| == 2 && AllDigits(y) && AllDigits(m) && AllDigits(dd)
  }

  // ----- the calendar days of an event -----

  function DayNumber(w: WallClock): int {
    UtcDay(w.year, w.month - 1, w.day)
  }

  // The instant that counts as the end: an absent or unreadable end is the start.
  function EffectiveEnd(start: int, end: DateArg): int {
    if end.At? then end.instant else start
  }

  function CountEventDays(z: Zone, start: DateArg, end: DateArg): (n: int)
    ensures n >= 1
  {
    if !start.At? then 1
    else
      var firstDay := DayNumber(ToWallClock(z, start.instant));
      var lastDay := DayNumber(ToWallClock(z, EffectiveEnd(start.instant, end)));
      if lastDay <= firstDay then 1 else lastDay - firstDay + 1
  }

  function ListEventDayKeys(z: Zone, start: DateArg, end: DateArg): seq<string> {
    if !start.At? then []
    else
      var firstDay := DayNumber(ToWallClock(z, start.instant));
      seq(CountEventDays(z, start, end), i requires 0 <= i => DateKey(CivilOfDay(firstDay + i)))
  }

  // The local calendar day of an instant.
  function LocalDay(z: Zone, t: int): int {
    z.WallMinute(t) / MINUTES_PER_DAY
  }

  ghost predicate InKeyedYears(day: int) {
    1000 <= CivilOfDay(day).year <= 9999
  }

  lemma DayNumberIsLocalDay(z: Zone, t: int)
    requires InKeyedYears(LocalDay(z, t))
    ensures DayNumber(ToWallClock(z, t)) == LocalDay(z, t)
  {
    CivilDateReadsBack(LocalDay(z, t));
  }

  lemma YearsInOrder(a: int, d: int, b: int)
    requires a <= d <= b && InKeyedYears(a) && InKeyedYears(b)
    ensures InKeyedYears(d)
  {
    hide DayFromYear;
    YearAtLeast(a, 1000);
    YearAtLeast(d, 1000);
    YearAtLeast(b, 10000);
    YearAtLeast(d, 10000);
  }

  lemma KeyReads(z: Zone, start: int, end: DateArg, i: nat)
    requires InKeyedYears(LocalDay(z, start)) && InKeyedYears(LocalDay(z, EffectiveEnd(start, end)))
    requires i < CountEventDays(z, At(start), end)
    ensures DateKeyToDayNumber(ListEventDayKeys(z, At(start), end)[i]) == Some(LocalDay(z, start) + i)
  {
    hide UtcDay, CivilOfDay, DateKeyToDayNumber, DateKey, LocalDay, ToWallClock, DayNumber;
    var last, first := EffectiveEnd(start, end), LocalDay(z, start);
    DayNumberIsLocalDay(z, start);
    DayNumberIsLocalDay(z, last);
    if i > 0 { YearsInOrder(first, first + i, LocalDay(z, last)); }
    DateKeyReadsBack(first + i);
  }

  // The listed keys walk the local calendar from the start to the end, one key a day, without gap or repetition.
  lemma CalendarWalk(z: Zone, start: int, end: DateArg)
    requires var last := EffectiveEnd(start, end); InKeyedYears(LocalDay(z, start)) && InKeyedYears(LocalDay(z, last))
    ensures var keys, last := ListEventDayKeys(z, At(start), end), EffectiveEnd(start, end);
      && |keys| == CountEventDays(z, At(start), end)
      && |keys| == (if LocalDay(z, start) <= LocalDay(z, last) then LocalDay(z, last) - LocalDay(z, start) + 1 else 1)
      && (forall i :: 0 <= i < |keys| ==> DateKeyToDayNumber(keys[i]) == Some(LocalDay(z, start) + i))
      && keys[0] == ToDateKey(z, start)
      && (LocalDay(z, start) <= LocalDay(z, last) ==> keys[|keys| - 1] == ToDateKey(z, last))
  {
    var keys, last := ListEventDayKeys(z, At(start), end), EffectiveEnd(start, end);
    hide UtcDay, CivilOfDay, DateKeyToDayNumber, DateKey, InKeyedYears;
    DayNumberIsLocalDay(z, start);
    DayNumberIsLocalDay(z, last);
    forall i | 0 <= i < |keys|
      ensures DateKeyToDayNumber(keys[i]) == Some(LocalDay(z, start) + i)
    {
      KeyReads(z, start, end, i);
    }
  }

  // An event whose start is absent or unreadable counts as one day and lists none; an absent or unreadable end counts as
  // the start, and so does every end on the day of the start or before it.
  lemma DaysOfEvent(z: Zone, start: DateArg, end: DateArg)
    ensures !start.At? ==> CountEventDays(z, start, end) == 1 && ListEventDayKeys(z, start, end) == []
    ensures start.At? && InKeyedYears(LocalDay(z, start.instant)) && (end.At? ==> InKeyedYears(LocalDay(z, end.instant))) ==>
      CountEventDays(z, start, end) ==
        if end.At? && LocalDay(z, end.instant) > LocalDay(z, start.instant) then LocalDay(z, end.instant) - LocalDay(z, start.instant) + 1
        else 1
  {
    if start.At? && InKeyedYears(LocalDay(z, start.instant)) && (end.At? ==> InKeyedYears(LocalDay(z, end.instant))) {
      DayNumberIsLocalDay(z, start.instant);
      if end.At? { DayNumberIsLocalDay(z, end.instant); }
    }
    hide LocalDay, DayNumber, ToWallClock, InKeyedYears;
  }

  // ----- shop windows -----

  datatype Entry = Entry(day: int, from: TimeOfDay, until: TimeOfDay) {
    // An end not after the start belongs to the next day.
    predicate Overnight() {
      until.Minutes() <= from.Minutes()
    }

    function StartMinute(): int {
      MINUTES_PER_DAY * day + from.Minutes()
    }

    function EndMinute(): int {
      MINUTES_PER_DAY * (day + if Overnight() then 1 else 0) + until.Minutes()
    }

    // What the entry says in terms of the local calendar day and the local time of day.
    predicate Covers(localDay: int, localTime: int) {
      if from.Minutes() < until.Minutes() then
        localDay == day && from.Minutes() <= localTime < until.Minutes()
      else
        || (localDay == day && from.Minutes() <= localTime)
        || (localDay == day + 1 && localTime < until.Minutes())
    }

    // The local reading lies between the two readings that are meant by the endpoints.
    ghost predicate MeansToCover(z: Zone, reading: int) {
      z.Meant(StartMinute()) <= reading < z.Meant(EndMinute())
    }

    // Neither endpoint is skipped by a clock change.
    ghost predicate Shown(z: Zone) {
      z.Shown(StartMinute()) && z.Shown(EndMinute())
    }
  }

  // A readable entry; an unreadable one is passed over.
  function ReadEntry(w: DayWindow): (r: Option<Entry>)
    ensures r.Some? ==> r.value.from.hour < 24 && r.value.from.minute < 60
    ensures r.Some? ==> r.value.until.hour < 24 && r.value.until.minute < 60
  {
    var day, from, until := DateKeyToDayNumber(w.date), ParseHHMM(w.start), ParseHHMM(w.end);
    if day.None? || from.None? || until.None? then None else Some(Entry(day.value, from.value, until.value))
  }

  function ReadEntries(days: seq<DayWindow>): seq<Entry> {
    if days == [] then []
    else
      var init := ReadEntries(days[..|days| - 1]);
      var last := ReadEntry(days[|days| - 1]);
      if last.None? then init else init + [last.value]
  }

  function ToWindow(z: Zone, e: Entry): Window {
    Window(Resolve(z, e.StartMinute()), Resolve(z, e.EndMinute()))
  }

  function ToWindows(z: Zone, entries: seq<Entry>): (ws: seq<Window>)
    ensures |ws| == |entries|
  {
    seq(|entries|, i requires 0 <= i < |entries| => ToWindow(z, entries[i]))
  }

  method DayWindowsToAbsolute(z: Zone, days: seq<DayWindow>) returns (windows: seq<Window>)
    requires z.Valid()
    requires forall e :: e in ReadEntries(days) ==> DayFromYear(1000) <= e.day
    ensures windows == ToWindows(z, ReadEntries(days))
  {
    hide DayFromYear, DateKeyToDayNumber, ParseHHMM, Zone.Valid, Resolve, UtcMinutes, DayToWallClock, ToWallClock, WallClock.Readable;
    windows := [];
    var i := 0;
    while i < |days|
      invariant 0 <= i <= |days|
      invariant windows == ToWindows(z, ReadEntries(days[..i]))
      invariant ReadEntries(days[..i]) <= ReadEntries(days)
    {
      var day := days[i];
      ReadEntriesStep(days, i);
      var dayNo := DateKeyToDayNumber(day.date);
      var from := ParseHHMM(day.start);
      var until := ParseHHMM(day.end);
      i := i + 1;
      if dayNo.None? || from.None? || until.None? {
        continue;
      }
      ghost var e := Entry(dayNo.value, from.value, until.value);
      assert e in ReadEntries(days[..i]);
      var overnight := until.value.hour * 60 + until.value.minute <= from.value.hour * 60 + from.value.minute;
      var endDay := dayNo.value + if overnight then 1 else 0;
      DayWallReadsBack(dayNo.value, from.value.hour, from.value.minute);
      DayWallReadsBack(endDay, until.value.hour, until.value.minute);
      var start := FromWallClock(z, DayToWallClock(dayNo.value, from.value.hour, from.value.minute));
      var end := FromWallClock(z, DayToWallClock(endDay, until.value.hour, until.value.minute));
      windows := windows + [Window(start, end)];
    }
    assert days[..i] == days;
  }

  lemma {:induction false} ReadEntriesStep(days: seq<DayWindow>, i: nat)
    requires i < |days|
    ensures ReadEntries(days[..i + 1]) == ReadEntries(days[..i]) + match ReadEntry(days[i]) { case None => [] case Some(e) => [e] }
    ensures ReadEntries(days[..i + 1]) <= ReadEntries(days)
    decreases |days| - i
  {
    assert days[..i + 1][..i] == days[..i];
    if i + 1 == |days| {
      assert days[..i + 1] == days;
    } else {
      ReadEntriesStep(days, i + 1);
    }
  }

  // ----- is the shop open? -----

  predicate Contains(w: Window, t: int) {
    w.start <= t < w.end
  }

  predicate IsWithin(t: int, windows: seq<Window>) {
    exists i :: 0 <= i < |windows| && Contains(windows[i], t)
  }

  lemma CoversIsInterval(e: Entry, m: int)
    requires e.from.hour < 24 && e.from.minute < 60 && e.until.hour < 24 && e.until.minute < 60
    ensures e.Covers(m / MINUTES_PER_DAY, m % MINUTES_PER_DAY) <==> e.StartMinute() <= m < e.EndMinute()
  {
  }

  // An instant that its own reading resolves to is in a window exactly if its reading lies between the meant endpoints;
  // for an entry without a skipped endpoint, exactly if the entry covers the local day and time.
  lemma WindowRefinesEntry(z: Zone, e: Entry, t: int)
    requires z.Valid() && Resolve(z, z.WallMinute(t)) == t
    requires e.from.hour < 24 && e.from.minute < 60 && e.until.hour < 24 && e.until.minute < 60
    ensures Contains(ToWindow(z, e), t) <==> e.MeansToCover(z, z.WallMinute(t))
    ensures e.Shown(z) ==> (Contains(ToWindow(z, e), t) <==> e.Covers(LocalDay(z, t), z.WallMinute(t) % MINUTES_PER_DAY))
  {
    var m := z.WallMinute(t);
    ResolveShows(z, m);
    ResolveMeans(z, e.StartMinute());
    ResolveMeans(z, e.EndMinute());
    CoversIsInterval(e, m);
    hide Zone.WallMinute, Zone.Valid, Zone.Shown, Zone.Meant, Resolve, Entry.Covers, Entry.StartMinute, Entry.EndMinute;
    ResolveComparesAsWall(z, z.Meant(e.StartMinute()), m);
    ResolveComparesAsWall(z, z.Meant(e.EndMinute()), m);
  }

  // An instant in the passed over pass of a repeated reading is in a window exactly if the readings repeated there
  // switch to their second pass after the window's start and not after its end, whatever the instant itself shows.
  lemma WindowAtPassedOver(z: Zone, e: Entry, c: int, t: int)
    requires z.Valid() && z.PassedOver(c, t)
    ensures Contains(ToWindow(z, e), t) <==> z.Meant(e.StartMinute()) < z.SwitchAt(c) <= z.Meant(e.EndMinute())
  {
    ResolveMeans(z, e.StartMinute());
    ResolveMeans(z, e.EndMinute());
    PassedOverComparesAsSwitch(z, c, t, z.Meant(e.StartMinute()));
    PassedOverComparesAsSwitch(z, c, t, z.Meant(e.EndMinute()));
  }

  // Hence the entries that go wrong there, in terms of the readings meant by their endpoints. In the first pass, an entry
  // that covers the instant is closed if it starts at or after the switch, and one that does not is open if it ends
  // between the switch and the reading. In the second pass, one that covers it is closed if it ends before the switch,
  // and one that does not is open if it starts between the reading and the switch.
  lemma PassedOverEntries(z: Zone, e: Entry, c: int, t: int)
    requires z.Valid() && z.PassedOver(c, t)
    requires e.from.hour < 24 && e.from.minute < 60 && e.until.hour < 24 && e.until.minute < 60
    ensures var covered, open := e.MeansToCover(z, z.WallMinute(t)), Contains(ToWindow(z, e), t);
      var s, m, f, switch := z.Meant(e.StartMinute()), z.WallMinute(t), z.Meant(e.EndMinute()), z.SwitchAt(c);
      && (covered && !open <==> if t < c then switch <= s <= m < f else s <= m < f < switch)
      && (open && !covered <==> if t < c then s < switch <= f <= m else m < s < switch <= f)
    ensures e.Shown(z) ==>
      && (e.MeansToCover(z, z.WallMinute(t)) <==> e.Covers(LocalDay(z, t), z.WallMinute(t) % MINUTES_PER_DAY))
      && z.Meant(e.StartMinute()) == e.StartMinute() && z.Meant(e.EndMinute()) == e.EndMinute()
  {
    WindowAtPassedOver(z, e, c, t);
    ResolveMeans(z, e.StartMinute());
    ResolveMeans(z, e.EndMinute());
    CoversIsInterval(e, z.WallMinute(t));
    hide Zone.WallMinute, Zone.Valid, Zone.Shown, Zone.Meant, Zone.SwitchAt, Zone.Repeats, Resolve, Entry.Covers,
      Entry.StartMinute, Entry.EndMinute, Contains;
  }

  // A window has positive length exactly if the readings meant by its endpoints are in order. They always are if no
  // change skips an endpoint.
  lemma WindowsAreNonEmpty(z: Zone, days: seq<DayWindow>, i: nat)
    requires z.Valid() && i < |ReadEntries(days)|
    ensures var w, e := ToWindows(z, ReadEntries(days))[i], ReadEntries(days)[i];
      && (w.start < w.end <==> z.Meant(e.StartMinute()) < z.Meant(e.EndMinute()))
      && (e.Shown(z) ==> w.start < w.end)
  {
    var e := ReadEntries(days)[i];
    EntriesInRange(days);
    assert e in ReadEntries(days) && e.StartMinute() < e.EndMinute();
    ResolveMeans(z, e.StartMinute());
    ResolveMeans(z, e.EndMinute());
    hide Zone.Valid, Zone.Shown, Zone.Meant, Resolve, Entry.StartMinute, Entry.EndMinute;
    ResolveComparesAsWall(z, z.Meant(e.EndMinute()), z.Meant(e.StartMinute()));
  }

  // Instants of windows compare as the readings that are meant.
  lemma ResolveComparesAsMeant(z: Zone, v: int, w: int)
    requires z.Valid()
    ensures Resolve(z, v) <= Resolve(z, w) <==> z.Meant(v) <= z.Meant(w)
  {
    ResolveMeans(z, v);
    ResolveMeans(z, w);
    hide Zone.Valid, Zone.Shown, Zone.Meant, Resolve;
    ResolveComparesAsWall(z, z.Meant(v), z.Meant(w));
  }

  // The absolute windows say exactly what the entries say: at an instant that its own local reading resolves to, the
  // shop is open if and only if the reading lies between the meant endpoints of some readable entry; if no change skips
  // an endpoint, if and only if some readable entry covers the local day and time.
  lemma WindowsRefineEntries(z: Zone, days: seq<DayWindow>, t: int)
    requires z.Valid() && Resolve(z, z.WallMinute(t)) == t
    ensures IsWithin(t, ToWindows(z, ReadEntries(days))) <==>
      exists e :: e in ReadEntries(days) && e.MeansToCover(z, z.WallMinute(t))
    ensures (forall e :: e in ReadEntries(days) ==> e.Shown(z)) ==>
      (IsWithin(t, ToWindows(z, ReadEntries(days))) <==>
        exists e :: e in ReadEntries(days) && e.Covers(LocalDay(z, t), z.WallMinute(t) % MINUTES_PER_DAY))
  {
    hide Resolve, Zone.Valid, LocalDay, Zone.WallMinute, Entry.Covers, Entry.MeansToCover, Entry.Shown, Contains, ReadEntries;
    var entries := ReadEntries(days);
    EntriesInRange(days);
    forall i | 0 <= i < |entries|
      ensures Contains(ToWindows(z, entries)[i], t) <==> entries[i].MeansToCover(z, z.WallMinute(t))
      ensures entries[i].Shown(z) ==>
        (Contains(ToWindows(z, entries)[i], t) <==> entries[i].Covers(LocalDay(z, t), z.WallMinute(t) % MINUTES_PER_DAY))
    {
      assert entries[i] in entries;
      WindowRefinesEntry(z, entries[i], t);
    }
  }

  lemma EntriesInRange(days: seq<DayWindow>)
    ensures forall e :: e in ReadEntries(days) ==>
      e.from.hour < 24 && e.from.minute < 60 && e.until.hour < 24 && e.until.minute < 60
  {
  }
}
