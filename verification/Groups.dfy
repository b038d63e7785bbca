// Sums over sequences, and amounts grouped by key in the insertion order of a JavaScript Map.
module Groups {

  function Sum<T>(s: seq<T>, f: T -> int): int {
    if s == [] then 0 else Sum(s[..|s| - 1], f) + f(s[|s| - 1])
  }

  function Itself(): int -> int {
    x => x
  }

  lemma SumAppend<T>(s: seq<T>, x: T, f: T -> int)
    ensures Sum(s + [x], f) == Sum(s, f) + f(x)
  {
  }

  lemma {:induction false} SumConcat<T>(a: seq<T>, b: seq<T>, f: T -> int)
    ensures Sum(a + b, f) == Sum(a, f) + Sum(b, f)
  {
    if b == [] {
      assert a + b == a;
    } else {
      var init, last := b[..|b| - 1], b[|b| - 1];
      SumConcat(a, init, f);
      assert a + b == (a + init) + [last];
      SumAppend(a + init, last, f);
    }
  }

  lemma {:induction false} SumUpdate<T>(s: seq<T>, i: nat, x: T, f: T -> int)
    requires i < |s|
    ensures Sum(s[i := x], f) == Sum(s, f) - f(s[i]) + f(x)
  {
    var n := |s| - 1;
    if i < n {
      SumUpdate(s[..n], i, x, f);
      assert s[i := x][..n] == s[..n][i := x];
    } else {
      assert s[i := x][..n] == s[..n];
    }
  }

  // Two sequences whose elements correspond have the same sum.
  lemma {:induction false} SumEqual<S, T>(s: seq<S>, t: seq<T>, f: S -> int, g: T -> int)
    requires |s| == |t| && forall i :: 0 <= i < |s| ==> f(s[i]) == g(t[i])
    ensures Sum(s, f) == Sum(t, g)
  {
    if s != [] {
      SumEqual(s[..|s| - 1], t[..|t| - 1], f, g);
    }
  }

  // ----- mapping -----

  function Map<S, T>(s: seq<S>, f: S -> T): (t: seq<T>)
    ensures |t| == |s|
  {
    seq(|s|, i requires 0 <= i < |s| => f(s[i]))
  }

  lemma MapOne<S, T>(x: S, f: S -> T)
    ensures Map([x], f) == [f(x)]
  {
    assert Map([x], f)[0] == f([x][0]);
  }

  function FlatMap<S, T>(s: seq<S>, f: S -> seq<T>): seq<T> {
    if s == [] then [] else FlatMap(s[..|s| - 1], f) + f(s[|s| - 1])
  }

  // Array.prototype.filter
  function Filter<T>(s: seq<T>, keep: T -> bool): seq<T> {
    if s == [] then [] else Filter(s[..|s| - 1], keep) + if keep(s[|s| - 1]) then [s[|s| - 1]] else []
  }

  lemma FilterAppend<T>(s: seq<T>, x: T, keep: T -> bool)
    ensures Filter(s + [x], keep) == Filter(s, keep) + if keep(x) then [x] else []
  {
  }

  lemma {:induction false} FilterKeeps<T>(s: seq<T>, keep: T -> bool)
    ensures forall x :: x in Filter(s, keep) <==> x in s && keep(x)
  {
    if s != [] {
      FilterKeeps(s[..|s| - 1], keep);
      assert s == s[..|s| - 1] + [s[|s| - 1]];
    }
  }

  lemma {:induction false} SumFilter<T>(s: seq<T>, keep: T -> bool, f: T -> int, w: T -> int)
    requires forall x :: x in s ==> w(x) == if keep(x) then f(x) else 0
    ensures Sum(Filter(s, keep), f) == Sum(s, w)
  {
    if s != [] {
      var init, x := s[..|s| - 1], s[|s| - 1];
      SumFilter(init, keep, f, w);
      if keep(x) {
        SumAppend(Filter(init, keep), x, f);
      } else {
        assert Filter(s, keep) == Filter(init, keep);
      }
    }
  }

  lemma {:induction false} FilterSame<T>(s: seq<T>, keep: T -> bool, same: T -> bool)
    requires forall i :: 0 <= i < |s| ==> keep(s[i]) == same(s[i])
    ensures Filter(s, keep) == Filter(s, same)
  {
    if s != [] {
      FilterSame(s[..|s| - 1], keep, same);
    }
  }

  lemma {:induction false} FilterNone<T>(s: seq<T>, keep: T -> bool)
    requires forall i :: 0 <= i < |s| ==> !keep(s[i])
    ensures Filter(s, keep) == []
  {
    if s != [] {
      FilterNone(s[..|s| - 1], keep);
    }
  }

  lemma {:induction false} FilterConcat<T>(a: seq<T>, b: seq<T>, keep: T -> bool)
    ensures Filter(a + b, keep) == Filter(a, keep) + Filter(b, keep)
  {
    if b == [] {
      assert a + b == a;
    } else {
      var init, last := b[..|b| - 1], b[|b| - 1];
      FilterConcat(a, init, keep);
      assert a + b == (a + init) + [last];
      FilterAppend(a + init, last, keep);
    }
  }

  // Filtering before or after mapping, and filtering twice or once.
  lemma {:induction false} FilterMap<S, T>(s: seq<S>, f: S -> T, keep: T -> bool, before: S -> bool)
    requires forall i :: 0 <= i < |s| ==> before(s[i]) == keep(f(s[i]))
    ensures Filter(Map(s, f), keep) == Map(Filter(s, before), f)
  {
    if s != [] {
      var init, x := s[..|s| - 1], s[|s| - 1];
      FilterMap(init, f, keep, before);
      assert Map(s, f)[..|init|] == Map(init, f);
      if before(x) {
        MapAppend(Filter(init, before), [x], f);
        MapOne(x, f);
      }
    }
  }

  lemma {:induction false} FilterTwice<T>(s: seq<T>, first: T -> bool, second: T -> bool, both: T -> bool)
    requires forall i :: 0 <= i < |s| ==> both(s[i]) == (first(s[i]) && second(s[i]))
    ensures Filter(Filter(s, first), second) == Filter(s, both)
  {
    if s != [] {
      var init, x := s[..|s| - 1], s[|s| - 1];
      FilterTwice(init, first, second, both);
      if first(x) {
        FilterAppend(Filter(init, first), x, second);
      } else {
        assert Filter(s, first) == Filter(init, first);
      }
    }
  }

  lemma MapMap<R, S, T>(s: seq<R>, f: R -> S, g: S -> T, h: R -> T)
    requires forall i :: 0 <= i < |s| ==> h(s[i]) == g(f(s[i]))
    ensures Map(Map(s, f), g) == Map(s, h)
  {
  }

  // If only the rows of element i are kept, keeping rows of all elements keeps just those; with i == |s|, none.
  lemma {:induction false} FilterFlatMap<S, T>(s: seq<S>, f: S -> seq<T>, keep: T -> bool, i: nat)
    requires i <= |s| && forall j :: 0 <= j < |s| && j != i ==> Filter(f(s[j]), keep) == []
    ensures Filter(FlatMap(s, f), keep) == if i < |s| then Filter(f(s[i]), keep) else []
  {
    if s != [] {
      var n := |s| - 1;
      FilterConcat(FlatMap(s[..n], f), f(s[n]), keep);
      hide Filter;
      if i < n {
        FilterFlatMap(s[..n], f, keep, i);
      } else {
        FilterFlatMap(s[..n], f, keep, n);
      }
    }
  }

  lemma {:induction false} InFlatMap<S, T>(s: seq<S>, f: S -> seq<T>, x: T) returns (i: nat)
    requires x in FlatMap(s, f)
    ensures i < |s| && x in f(s[i])
  {
    var n := |s| - 1;
    if x in f(s[n]) {
      i := n;
    } else {
      i := InFlatMap(s[..n], f, x);
    }
  }

  lemma MapAppend<S, T>(a: seq<S>, b: seq<S>, f: S -> T)
    ensures Map(a + b, f) == Map(a, f) + Map(b, f)
  {
  }

  lemma MapStep<S, T>(s: seq<S>, i: nat, f: S -> T)
    requires i < |s|
    ensures Map(s[..i + 1], f) == Map(s[..i], f) + [f(s[i])]
  {
  }

  lemma FlatMapStep<S, T>(s: seq<S>, i: nat, f: S -> seq<T>)
    requires i < |s|
    ensures FlatMap(s[..i + 1], f) == FlatMap(s[..i], f) + f(s[i])
  {
    assert s[..i + 1][..i] == s[..i];
  }

  lemma {:induction false} FlatMapAppend<S, T>(a: seq<S>, b: seq<S>, f: S -> seq<T>)
    ensures FlatMap(a + b, f) == FlatMap(a, f) + FlatMap(b, f)
  {
    if b == [] {
      assert a + b == a;
    } else {
      FlatMapAppend(a, b[..|b| - 1], f);
      assert (a + b)[..|a + b| - 1] == a + b[..|b| - 1];
    }
  }

  lemma SumMap<S, T>(s: seq<S>, f: S -> T, g: T -> int, h: S -> int)
    requires forall i :: 0 <= i < |s| ==> g(f(s[i])) == h(s[i])
    ensures Sum(Map(s, f), g) == Sum(s, h)
  {
    SumEqual(Map(s, f), s, g, h);
  }

  // A sum over flattened rows is the sum of the sums.
  lemma {:induction false} SumFlatMap<S, T>(s: seq<S>, f: S -> seq<T>, g: T -> int, h: S -> int)
    requires forall i :: 0 <= i < |s| ==> Sum(f(s[i]), g) == h(s[i])
    ensures Sum(FlatMap(s, f), g) == Sum(s, h)
  {
    if s != [] {
      SumFlatMap(s[..|s| - 1], f, g, h);
      SumConcat(FlatMap(s[..|s| - 1], f), f(s[|s| - 1]), g);
    }
  }

  // A sum restricted by one condition on all elements.
  lemma {:induction false} SumWhen<T>(s: seq<T>, c: bool, w: T -> int, f: T -> int)
    requires forall i :: 0 <= i < |s| ==> w(s[i]) == if c then f(s[i]) else 0
    ensures Sum(s, w) == if c then Sum(s, f) else 0
  {
    if s != [] {
      SumWhen(s[..|s| - 1], c, w, f);
    }
  }

  // ----- counting -----

  function Count(flags: seq<bool>): nat {
    if flags == [] then 0 else Count(flags[..|flags| - 1]) + if flags[|flags| - 1] then 1 else 0
  }

  lemma CountAppend(flags: seq<bool>, last: bool)
    ensures Count(flags + [last]) == Count(flags) + if last then 1 else 0
  {
  }

  predicate OnlyTrue(flags: seq<bool>, i: nat) {
    i < |flags| && flags[i] && forall j :: 0 <= j < |flags| && flags[j] ==> j == i
  }

  predicate BothTrue(flags: seq<bool>, i: nat, j: nat) {
    i < j < |flags| && flags[i] && flags[j]
  }

  lemma {:induction false} CountIsZero(flags: seq<bool>)
    ensures Count(flags) == 0 <==> forall i :: 0 <= i < |flags| ==> !flags[i]
  {
    if flags != [] {
      CountIsZero(flags[..|flags| - 1]);
    }
  }

  lemma {:induction false} CountIsTwo(flags: seq<bool>)
    ensures Count(flags) >= 2 <==> exists i: nat, j: nat :: BothTrue(flags, i, j)
  {
    if flags != [] {
      var n: nat := |flags| - 1;
      var init := flags[..n];
      CountIsTwo(init);
      CountIsZero(init);
      if i: nat, j: nat :| BothTrue(init, i, j) {
        assert BothTrue(flags, i, j);
      }
      if i: nat, j: nat :| BothTrue(flags, i, j) {
        assert j < n ==> BothTrue(init, i, j);
        assert j == n ==> init[i];
      }
      if flags[n] && Count(init) >= 1 {
        var i :| 0 <= i < n && init[i];
        assert BothTrue(flags, i, n);
      }
    }
  }

  lemma CountIsOne(flags: seq<bool>)
    ensures Count(flags) == 1 <==> exists i: nat :: OnlyTrue(flags, i)
  {
    CountIsZero(flags);
    CountIsTwo(flags);
    hide Count;
    if i: nat :| OnlyTrue(flags, i) {
      assert flags[i];
      assert forall j: nat, k: nat :: !BothTrue(flags, j, k);
    }
    if Count(flags) == 1 {
      var i: nat :| i < |flags| && flags[i];
      forall j: nat | j < |flags| && flags[j]
        ensures j == i
      {
        assert !BothTrue(flags, i, j) && !BothTrue(flags, j, i);
      }
      assert OnlyTrue(flags, i);
    }
  }

  // ----- grouping -----

  // An amount booked under a key, with the tax rate it was booked at (in hundredths of a percent).
  datatype Entry<K> = Entry(key: K, rate: nat, amount: int)

  // The entries of a Map: one group for each key.
  datatype Group<K> = Group(key: K, rate: nat, total: int)

  // Position of a key, or the number of groups when the key is absent.
  function Find<K(==)>(gs: seq<Group<K>>, key: K): (i: nat)
    ensures i <= |gs| && (i < |gs| ==> gs[i].key == key)
    ensures forall j :: 0 <= j < i ==> gs[j].key != key
  {
    if gs == [] then 0 else if gs[0].key == key then 0 else 1 + Find(gs[1..], key)
  }

  // Add to the existing group, or append a new group that keeps the rate of its first entry.
  function Add<K(==)>(gs: seq<Group<K>>, e: Entry<K>): seq<Group<K>> {
    var i := Find(gs, e.key);
    if i < |gs| then gs[i := gs[i].(total := gs[i].total + e.amount)] else gs + [Group(e.key, e.rate, e.amount)]
  }

  function GroupAll<K(==)>(entries: seq<Entry<K>>): seq<Group<K>> {
    if entries == [] then [] else Add(GroupAll(entries[..|entries| - 1]), entries[|entries| - 1])
  }

  // Weights that select one key, or every key.
  function AmountAt<K(==)>(key: K): Entry<K> -> int {
    (e: Entry<K>) => if e.key == key then e.amount else 0
  }

  function Amount<K>(): Entry<K> -> int {
    (e: Entry<K>) => e.amount
  }

  function Total<K>(): Group<K> -> int {
    (g: Group<K>) => g.total
  }

  ghost predicate Distinct<K>(gs: seq<Group<K>>) {
    forall i, j :: 0 <= i < j < |gs| ==> gs[i].key != gs[j].key
  }

  // The groups hold the keys of the entries, each once, with the rate of the first entry of that key.
  ghost predicate HoldsKeysOf<K>(gs: seq<Group<K>>, entries: seq<Entry<K>>) {
    && Distinct(gs)
    && (forall i :: 0 <= i < |gs| ==> Booked(entries, gs[i]))
    && (forall j :: 0 <= j < |entries| ==> Find(gs, entries[j].key) < |gs|)
  }

  ghost predicate Booked<K>(entries: seq<Entry<K>>, g: Group<K>) {
    exists j :: 0 <= j < |entries| && entries[j].key == g.key && entries[j].rate == g.rate && KeyAbsent(entries[..j], g.key)
  }

  ghost predicate KeyAbsent<K>(entries: seq<Entry<K>>, key: K) {
    forall i :: 0 <= i < |entries| ==> entries[i].key != key
  }

  ghost predicate TotalsOf<K>(gs: seq<Group<K>>, entries: seq<Entry<K>>) {
    forall i :: 0 <= i < |gs| ==> gs[i].total == Sum(entries, AmountAt(gs[i].key))
  }

  lemma FindBound<K>(gs: seq<Group<K>>, i: nat)
    requires i < |gs|
    ensures Find(gs, gs[i].key) <= i
  {
  }

  lemma AddKeysBooked<K>(gs: seq<Group<K>>, entries: seq<Entry<K>>, e: Entry<K>)
    requires HoldsKeysOf(gs, entries)
    ensures forall k :: 0 <= k < |Add(gs, e)| ==> Booked(entries + [e], Add(gs, e)[k])
  {
    var more, all := Add(gs, e), entries + [e];
    forall k | 0 <= k < |more|
      ensures Booked(all, more[k])
    {
      if k < |gs| {
        assert Booked(entries, gs[k]);
        var j :| 0 <= j < |entries| && entries[j].key == gs[k].key && entries[j].rate == gs[k].rate && KeyAbsent(entries[..j], gs[k].key);
        assert all[j] == entries[j] && all[..j] == entries[..j];
      } else {
        assert all[|entries|] == e && all[..|entries|] == entries;
        assert Find(gs, e.key) == |gs|;
      }
    }
  }

  lemma AddKeepsKeys<K>(gs: seq<Group<K>>, e: Entry<K>, key: K)
    requires Find(gs, key) < |gs| || key == e.key
    ensures Find(Add(gs, e), key) < |Add(gs, e)|
  {
    var k := if key == e.key then Find(gs, e.key) else Find(gs, key);
    assert Add(gs, e)[k].key == key;
    FindBound(Add(gs, e), k);
  }

  lemma AddHoldsKeys<K>(gs: seq<Group<K>>, entries: seq<Entry<K>>, e: Entry<K>)
    requires HoldsKeysOf(gs, entries)
    ensures HoldsKeysOf(Add(gs, e), entries + [e])
  {
    AddKeysBooked(gs, entries, e);
    hide Booked;
    forall j | 0 <= j < |entries + [e]|
      ensures Find(Add(gs, e), (entries + [e])[j].key) < |Add(gs, e)|
    {
      AddKeepsKeys(gs, e, (entries + [e])[j].key);
    }
  }

  lemma AddTotal<K>(gs: seq<Group<K>>, e: Entry<K>)
    ensures Sum(Add(gs, e), Total()) == Sum(gs, Total()) + e.amount
  {
    var i := Find(gs, e.key);
    if i < |gs| {
      SumUpdate(gs, i, gs[i].(total := gs[i].total + e.amount), Total());
    } else {
      SumAppend(gs, Group(e.key, e.rate, e.amount), Total());
    }
  }

  lemma AddTotals<K>(gs: seq<Group<K>>, entries: seq<Entry<K>>, e: Entry<K>)
    requires HoldsKeysOf(gs, entries) && TotalsOf(gs, entries)
    ensures TotalsOf(Add(gs, e), entries + [e])
  {
    var i, more := Find(gs, e.key), Add(gs, e);
    if i == |gs| {
      AbsentKeySumsToZero(entries, gs, e.key);
    }
    hide Booked, Sum;
    forall k | 0 <= k < |more|
      ensures more[k].total == Sum(entries + [e], AmountAt(more[k].key))
    {
      SumAppend(entries, e, AmountAt(more[k].key));
      assert k < |gs| && k != i ==> gs[k].key != e.key;
    }
  }

  // Grouping loses and invents nothing: there is one group per booked key, and its total is the sum booked under it.
  lemma {:induction false} GroupsFoot<K>(entries: seq<Entry<K>>)
    ensures var gs := GroupAll(entries);
      HoldsKeysOf(gs, entries) && TotalsOf(gs, entries) && Sum(gs, Total()) == Sum(entries, Amount())
  {
    if entries != [] {
      var init, e := entries[..|entries| - 1], entries[|entries| - 1];
      GroupsFoot(init);
      AddHoldsKeys(GroupAll(init), init, e);
      AddTotals(GroupAll(init), init, e);
      AddTotal(GroupAll(init), e);
      assert init + [e] == entries;
    }
  }

  lemma {:induction false} AbsentKeySumsToZero<K>(entries: seq<Entry<K>>, gs: seq<Group<K>>, key: K)
    requires forall j :: 0 <= j < |entries| ==> Find(gs, entries[j].key) < |gs|
    requires Find(gs, key) == |gs|
    ensures Sum(entries, AmountAt(key)) == 0
  {
    if entries != [] {
      var last := entries[|entries| - 1];
      assert gs[Find(gs, last.key)].key == last.key != key;
      AbsentKeySumsToZero(entries[..|entries| - 1], gs, key);
    }
  }

  // Entries of one key are one group, at the rate of the first of them.
  lemma {:induction false} OneKeyOneGroup<K>(entries: seq<Entry<K>>, key: K)
    requires entries != [] && forall j :: 0 <= j < |entries| ==> entries[j].key == key
    ensures GroupAll(entries) == [Group(key, entries[0].rate, Sum(entries, Amount()))]
  {
    var init, e := entries[..|entries| - 1], entries[|entries| - 1];
    if init == [] {
      assert Sum(init, Amount()) == 0 && GroupAll(init) == [];
    } else {
      OneKeyOneGroup(init, key);
    }
  }

  // What is booked under one key: the total of its group, or nothing without a group.
  lemma BookedUnder<K>(entries: seq<Entry<K>>, key: K)
    ensures var gs := GroupAll(entries);
      && (forall i :: 0 <= i < |gs| && gs[i].key == key ==> gs[i].total == Sum(entries, AmountAt(key)))
      && ((forall i :: 0 <= i < |gs| ==> gs[i].key != key) ==> Sum(entries, AmountAt(key)) == 0)
  {
    hide GroupAll, Booked, Sum;
    GroupsFoot(entries);
    if Find(GroupAll(entries), key) == |GroupAll(entries)| {
      AbsentKeySumsToZero(entries, GroupAll(entries), key);
    }
  }
}
