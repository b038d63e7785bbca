// Wall clocks and instants in a time zone with clock changes. Instants and wall readings are whole minutes; an
// instant is counted from 1970-01-01T00:00Z, a wall reading from 1970-01-01T00:00 on the wall.
module ZoneClock {
  import opened Calendar

  const MINUTES_PER_DAY := 1440

  datatype WallClock = WallClock(year: int, month: int, day: int, hour: int, minute: int) {
    // An existing date of year 1000 or later and a time of that day.
    predicate Readable() {
      && 1000 <= year
      && Civil(year, month, day).Exists()
      && 0 <= hour < 24
      && 0 <= minute < 60
    }
  }

  // A time zone: at instant t its clocks are off(t) minutes ahead of UTC.
  datatype Zone = Zone(off: int -> int, bound: int) {
    ghost predicate Changes(t: int) {
      off(t) != off(t - 1)
    }

    // Offsets stay within the bound, which is less than a day, and no two changes fall within 4 * bound minutes.
    ghost predicate Valid() {
      && 0 <= bound < MINUTES_PER_DAY
      && (forall t :: -bound <= off(t) <= bound)
      && (forall s, t :: s < t && Changes(s) && Changes(t) ==> 4 * bound <= t - s)
    }

    function WallMinute(t: int): int {
      t + off(t)
    }

    // Some instant shows this wall reading, that is, it is not skipped by a clock change.
    ghost predicate Shown(w: int) {
      exists t :: WallMinute(t) == w
    }

    ghost predicate Unambiguous(t: int) {
      forall s :: WallMinute(s) == WallMinute(t) ==> s == t
    }

    // The change at instant c puts the clocks forward past this reading, or back so that they show it twice.
    ghost predicate Skips(c: int, w: int) {
      Changes(c) && c + off(c - 1) <= w < c + off(c)
    }

    ghost predicate Repeats(c: int, w: int) {
      Changes(c) && c + off(c) <= w < c + off(c - 1)
    }

    // A reading moved by the size of the change at c: back if, read as an instant, it lies before c, else forward.
    function Moved(c: int, w: int): int {
      if w < c then w - (off(c) - off(c - 1)) else w + (off(c) - off(c - 1))
    }

    // The shown reading that is meant by w: w itself, unless a change skips it.
    ghost function Meant(w: int): (v: int)
      ensures if exists c :: Skips(c, w) then exists c :: Skips(c, w) && v == Moved(c, w) else v == w
    {
      if exists c :: Skips(c, w) then var c :| Skips(c, w); Moved(c, w) else w
    }

    // The first of the readings repeated at c that stands for its second pass; those below it stand for their first.
    function SwitchAt(c: int): int {
      var inFirstPass := if c < c + off(c - 1) then c else c + off(c - 1);
      if inFirstPass < c + off(c) then c + off(c) else inFirstPass
    }

    // Instant t shows a reading repeated at c that stands for the other pass.
    ghost predicate PassedOver(c: int, t: int) {
      Repeats(c, WallMinute(t)) && (t < c <==> SwitchAt(c) <= WallMinute(t))
    }
  }

  // Date.UTC of a wall reading, in minutes.
  function UtcMinutes(w: WallClock): int {
    MINUTES_PER_DAY * UtcDay(w.year, w.month - 1, w.day) + 60 * w.hour + w.minute
  }

  // The wall clock whose calendar reading is minute m.
  function WallAt(m: int): WallClock {
    var c := CivilOfDay(m / MINUTES_PER_DAY);
    var time := m % MINUTES_PER_DAY;
    WallClock(c.year, c.month, c.day, time / 60, time % 60)
  }

  function ToWallClock(z: Zone, t: int): WallClock {
    WallAt(z.WallMinute(t))
  }

  function DayToWallClock(day: int, hour: int, minute: int): WallClock {
    var c := CivilOfDay(day);
    WallClock(c.year, c.month, c.day, hour, minute)
  }

  // What the two correction passes of fromWallClock compute for the wall minute w.
  function Resolve(z: Zone, w: int): int {
    w - z.off(w - z.off(w))
  }

  lemma WallReadsBack(m: int)
    ensures var w := WallAt(m);
      0 <= w.hour < 24 && 0 <= w.minute < 60 && (!(0 <= w.year <= 99) ==> UtcMinutes(w) == m)
  {
    CivilDateReadsBack(m / MINUTES_PER_DAY);
  }

  // Readings of year 1000 on, give or take two days, read back through Date.UTC.
  lemma LateWallReadsBack(m: int)
    requires MINUTES_PER_DAY * (DayFromYear(1000) - 2) <= m
    ensures UtcMinutes(WallAt(m)) == m
  {
    YearAtLeast(m / MINUTES_PER_DAY, 100);
    YearsIncrease(100, 1000);
    WallReadsBack(m);
  }

  lemma ReadableIsLate(w: WallClock)
    requires w.Readable()
    ensures MINUTES_PER_DAY * DayFromYear(1000) <= UtcMinutes(w)
    ensures WallAt(UtcMinutes(w)) == w
  {
    var c := Civil(w.year, w.month, w.day);
    var day := UtcDay(w.year, w.month - 1, w.day);
    hide UtcDay, DayFromYear, CivilOfDay, MonthStart;
    DayNumberReadsBack(c);
    YearAtLeast(day, 1000);
    DayAndTime(day, 60 * w.hour + w.minute);
  }

  lemma DayWallReadsBack(day: int, hour: int, minute: int)
    requires DayFromYear(1000) <= day && 0 <= hour < 24 && 0 <= minute < 60
    ensures var w := DayToWallClock(day, hour, minute);
      w.Readable() && UtcMinutes(w) == MINUTES_PER_DAY * day + 60 * hour + minute
  {
    YearAtLeast(day, 1000);
    CivilDateReadsBack(day);
  }

  lemma DayAndTime(day: int, time: int)
    requires 0 <= time < MINUTES_PER_DAY
    ensures (MINUTES_PER_DAY * day + time) / MINUTES_PER_DAY == day
    ensures (MINUTES_PER_DAY * day + time) % MINUTES_PER_DAY == time
  {
  }

  // The loop of fromWallClock: read the wall clock as UTC, measure the error, correct it; at most twice.
  // The result shows the requested reading exactly when some instant does.
  method FromWallClock(z: Zone, wall: WallClock) returns (guess: int)
    requires z.Valid() && wall.Readable()
    ensures guess == Resolve(z, UtcMinutes(wall))
    ensures ToWallClock(z, guess) == wall <==> z.Shown(UtcMinutes(wall))
  {
    hide UtcMinutes, WallAt;
    var target := UtcMinutes(wall);
    ReadableIsLate(wall);
    guess := target;
    var attempt := 0;
    while attempt < 2
      invariant 0 <= attempt <= 2
      invariant attempt == 0 ==> guess == target
      invariant attempt == 1 ==> guess == target - z.off(target)
      invariant attempt == 2 ==> guess == Resolve(z, target)
    {
      var actual := ToWallClock(z, guess);
      LateWallReadsBack(z.WallMinute(guess));
      var actualAsUtc := UtcMinutes(actual);
      var drift := target - actualAsUtc;
      if drift == 0 {
        break;
      }
      guess := guess + drift;
      attempt := attempt + 1;
    }
    ResolveShows(z, target);
    LateWallReadsBack(z.WallMinute(guess));
  }

  // Between instants less than 4 * bound apart the offset changes at most once, at the returned instant c.
  lemma {:induction false} AtMostOneChange(z: Zone, x: int, y: int) returns (c: int)
    requires z.Valid() && x <= y <= x + 4 * z.bound
    ensures x < c <= y + 1 && (c <= y ==> z.Changes(c))
    ensures forall t :: x <= t <= y ==> z.off(t) == if t < c then z.off(x) else z.off(y)
    decreases y - x
  {
    if x == y {
      c := y + 1;
    } else {
      c := AtMostOneChange(z, x, y - 1);
      if z.Changes(y) {
        c := y;
      } else if c == y {
        c := y + 1;
      }
    }
  }

  // Right inverse, exactly: the resolved instant shows w if and only if w is not skipped by a clock change.
  lemma ResolveShows(z: Zone, w: int)
    requires z.Valid()
    ensures z.WallMinute(Resolve(z, w)) == w <==> z.Shown(w)
  {
    if t :| z.WallMinute(t) == w {
      var c := AtMostOneChange(z, w - z.bound, w + z.bound);
      assert w - z.bound <= t <= w + z.bound;
    }
  }

  // Resolved instants are in the order of their wall readings, ambiguous readings included.
  lemma ResolveIncreases(z: Zone, v: int, w: int)
    requires z.Valid() && v < w && z.Shown(v) && z.Shown(w)
    ensures Resolve(z, v) < Resolve(z, w)
  {
    ResolveShows(z, v);
    ResolveShows(z, w);
    if w - v <= 2 * z.bound {
      var c := AtMostOneChange(z, v - z.bound, w + z.bound);
    }
  }

  // Hence comparing instants is comparing wall readings.
  lemma ResolveComparesAsWall(z: Zone, v: int, w: int)
    requires z.Valid() && z.Shown(v) && z.Shown(w)
    ensures Resolve(z, v) <= Resolve(z, w) <==> v <= w
  {
    if v < w { ResolveIncreases(z, v, w); }
    if w < v { ResolveIncreases(z, w, v); }
  }

  // An instant whose reading is unambiguous is the one its reading resolves to.
  lemma UnambiguousResolves(z: Zone, t: int)
    requires z.Valid() && z.Unambiguous(t)
    ensures z.Shown(z.WallMinute(t)) && Resolve(z, z.WallMinute(t)) == t
  {
    ResolveShows(z, z.WallMinute(t));
  }

  // ----- skipped and repeated readings -----

  lemma NearChange(z: Zone, c: int, t: int)
    requires z.Valid() && z.Changes(c) && c - 4 * z.bound <= t < c + 4 * z.bound
    ensures z.off(t) == if t < c then z.off(c - 1) else z.off(c)
  {
    if t < c {
      var d := AtMostOneChange(z, t, c);
    } else {
      var d := AtMostOneChange(z, c - 1, t);
    }
  }

  lemma SkippedIsNotShown(z: Zone, c: int, w: int)
    requires z.Valid() && z.Skips(c, w)
    ensures !z.Shown(w)
  {
    if t :| z.WallMinute(t) == w {
      NearChange(z, c, t);
    }
  }

  // Exactly the readings that no change skips are shown.
  lemma ShownUnlessSkipped(z: Zone, w: int)
    requires z.Valid()
    ensures z.Shown(w) <==> !exists c :: z.Skips(c, w)
  {
    if z.Shown(w) {
      forall c | z.Skips(c, w)
        ensures false
      {
        SkippedIsNotShown(z, c, w);
      }
    } else {
      var a, b := z.off(w - z.bound), z.off(w + z.bound);
      var c := AtMostOneChange(z, w - z.bound, w + z.bound);
      assert z.WallMinute(w - a) != w && z.WallMinute(w - b) != w;
      assert z.Skips(c, w);
    }
  }

  lemma SkippedResolves(z: Zone, c: int, w: int)
    requires z.Valid() && z.Skips(c, w)
    ensures z.Shown(z.Moved(c, w)) && Resolve(z, z.Moved(c, w)) == Resolve(z, w)
  {
    var a, b := z.off(c - 1), z.off(c);
    NearChange(z, c, w);
    NearChange(z, c, w - z.off(w));
    if w < c {
      NearChange(z, c, w - (b - a));
      NearChange(z, c, w - b);
      assert z.WallMinute(w - b) == w - (b - a);
    } else {
      NearChange(z, c, w + (b - a));
      NearChange(z, c, w - a);
      NearChange(z, c, w + (b - a) - b);
      assert z.WallMinute(w - a) == w + (b - a);
    }
  }

  // Every reading resolves to the instant of the shown reading that is meant by it.
  lemma ResolveMeans(z: Zone, w: int)
    requires z.Valid()
    ensures z.Shown(z.Meant(w)) && Resolve(z, w) == Resolve(z, z.Meant(w))
    ensures z.Shown(w) ==> z.Meant(w) == w
  {
    ShownUnlessSkipped(z, w);
    hide Zone.Shown, Zone.Valid, Zone.Skips, Zone.Moved, Zone.Meant, Resolve;
    if exists c :: z.Skips(c, w) {
      var c :| z.Skips(c, w) && z.Meant(w) == z.Moved(c, w);
      SkippedResolves(z, c, w);
    }
  }

  lemma PassedOverResolves(z: Zone, c: int, t: int)
    requires z.Valid() && z.Repeats(c, z.WallMinute(t))
    ensures Resolve(z, z.WallMinute(t)) != t <==> z.PassedOver(c, t)
  {
    var m := z.WallMinute(t);
    NearChange(z, c, t);
    NearChange(z, c, m);
    NearChange(z, c, m - z.off(m));
  }

  // An instant is the one its reading resolves to, unless it is in the passed over pass of a repeated reading.
  lemma ResolvesUnlessPassedOver(z: Zone, t: int)
    requires z.Valid()
    ensures Resolve(z, z.WallMinute(t)) != t <==> exists c :: z.PassedOver(c, t)
  {
    var m := z.WallMinute(t);
    if Resolve(z, m) != t {
      ResolveShows(z, m);
      var c := AtMostOneChange(z, m - z.bound, m + z.bound);
      assert z.Repeats(c, m);
      PassedOverResolves(z, c, t);
    }
    if c :| z.PassedOver(c, t) {
      PassedOverResolves(z, c, t);
    }
  }

  // A passed over instant comes after the readings below the switch, and before all others.
  lemma PassedOverComparesAsSwitch(z: Zone, c: int, t: int, v: int)
    requires z.Valid() && z.PassedOver(c, t) && z.Shown(v)
    ensures Resolve(z, v) <= t <==> v < z.SwitchAt(c)
  {
    var x := z.SwitchAt(c);
    NearChange(z, c, t);
    RepeatedIsShown(z, c, x);
    RepeatedIsShown(z, c, x - 1);
    ResolveComparesAsWall(z, v, x - 1);
    ResolveComparesAsWall(z, x, v);
  }

  // Around the switch readings resolve to the last instant before the change, or to the first after it, or beyond.
  lemma RepeatedIsShown(z: Zone, c: int, v: int)
    requires z.Valid() && z.Changes(c) && z.off(c) < z.off(c - 1) && z.SwitchAt(c) - 1 <= v <= z.SwitchAt(c)
    ensures z.Shown(v) && Resolve(z, v) == if v < z.SwitchAt(c) then v - z.off(c - 1) else v - z.off(c)
  {
    NearChange(z, c, v);
    NearChange(z, c, v - z.off(v));
    NearChange(z, c, v - z.off(c));
    NearChange(z, c, v - z.off(c - 1));
    assert z.WallMinute(if v < z.SwitchAt(c) then v - z.off(c - 1) else v - z.off(c)) == v;
  }

  // A zone with one change of its clocks from offset before to offset after, at the given instant.
  function OneChangeZone(before: int, after: int, at: int): (z: Zone)
    requires -1440 < before < 1440 && -1440 < after < 1440
    ensures z.Valid()
  {
    Zone(t => if t < at then before else after, 1439)
  }
}
