// Scaling tax splits to a paid amount by largest remainders. Amounts are integer cents.
module VatAllocation {
  import opened Groups

  datatype Split = Split(rate: int, gross: int)

  function Abs(x: int): nat { if x < 0 then -x else x }

  function Gross(s: Split): int { s.gross }

  function AbsGross(s: Split): int { Abs(s.gross) }

  function NonZero(s: Split): bool { s.gross != 0 }

  // The exact share |gross| * target / total, as its whole part and the numerator of its remainder.
  function FloorOf(target: nat, total: nat): Split -> int
    requires total > 0
  {
    (s: Split) => Abs(s.gross) * target / total
  }

  function RemainderOf(target: nat, total: nat): Split -> int
    requires total > 0
  {
    (s: Split) => Abs(s.gross) * target % total
  }

  // Larger remainder first, ties to the lower rate.
  predicate Before(splits: seq<Split>, rem: Split -> int, i: nat, j: nat)
    requires i < |splits| && j < |splits|
  {
    rem(splits[i]) > rem(splits[j]) || (rem(splits[i]) == rem(splits[j]) && splits[i].rate <= splits[j].rate)
  }

  lemma BeforeIsTotalOrder(splits: seq<Split>, rem: Split -> int, i: nat, j: nat, k: nat)
    requires i < |splits| && j < |splits| && k < |splits|
    ensures Before(splits, rem, i, j) || Before(splits, rem, j, i)
    ensures Before(splits, rem, i, j) && Before(splits, rem, j, k) ==> Before(splits, rem, i, k)
  {
  }

  // All positions below n, each once.
  ghost predicate Positions(order: seq<nat>, n: nat) {
    && (forall k :: 0 <= k < |order| ==> order[k] < n)
    && (forall p :: 0 <= p < n ==> p in order)
    && (forall k, l :: 0 <= k < l < |order| ==> order[k] != order[l])
  }

  // Residual cents go to the positions in this order.
  ghost predicate Ordered(splits: seq<Split>, rem: Split -> int, order: seq<nat>)
    requires forall k :: 0 <= k < |order| ==> order[k] < |splits|
  {
    forall k, l :: 0 <= k < l < |order| ==> Before(splits, rem, order[k], order[l])
  }

  // Array.prototype.sort is stable: the splits are inserted one after the other behind all that are not after them.
  method SortByRemainder(splits: seq<Split>, rem: Split -> int) returns (order: seq<nat>)
    ensures |order| == |splits| && Positions(order, |splits|) && Ordered(splits, rem, order)
  {
    hide Before;
    order := [];
    for i := 0 to |splits|
      invariant |order| == i && Positions(order, i) && Ordered(splits, rem, order)
    {
      var at := |order|;
      while at > 0 && !Before(splits, rem, order[at - 1], i)
        invariant 0 <= at <= |order|
        invariant forall k :: at <= k < |order| ==> !Before(splits, rem, order[k], i)
      {
        at := at - 1;
      }
      InsertPositions(order, at, i);
      InsertOrdered(splits, rem, order, at, i);
      order := Inserted(order, at, i);
    }
  }

  function Inserted(order: seq<nat>, at: nat, i: nat): seq<nat>
    requires at <= |order|
  {
    order[..at] + [i] + order[at..]
  }

  lemma InsertPositions(order: seq<nat>, at: nat, i: nat)
    requires Positions(order, i) && at <= |order|
    ensures Positions(Inserted(order, at, i), i + 1)
  {
    var more := Inserted(order, at, i);
    assert forall k :: 0 <= k < |more| ==> more[k] == if k < at then order[k] else if k == at then i else order[k - 1];
    forall p | 0 <= p < i
      ensures p in more
    {
      assert p in order;
      var k :| 0 <= k < |order| && order[k] == p;
      assert more[if k < at then k else k + 1] == p;
    }
    assert more[at] == i;
  }

  lemma InsertOrdered(splits: seq<Split>, rem: Split -> int, order: seq<nat>, at: nat, i: nat)
    requires i < |splits| && at <= |order| && Positions(order, i)
    requires (forall k :: 0 <= k < |order| ==> order[k] < |splits|) && Ordered(splits, rem, order)
    requires at > 0 ==> Before(splits, rem, order[at - 1], i)
    requires forall k :: at <= k < |order| ==> !Before(splits, rem, order[k], i)
    ensures Positions(Inserted(order, at, i), i + 1) && Ordered(splits, rem, Inserted(order, at, i))
  {
    hide Before;
    InsertPositions(order, at, i);
    var more := Inserted(order, at, i);
    forall k | 0 <= k < |order|
      ensures if k < at then Before(splits, rem, order[k], i) else Before(splits, rem, i, order[k])
    {
      if k < at {
        BeforeIsTotalOrder(splits, rem, order[k], order[at - 1], i);
      } else {
        BeforeIsTotalOrder(splits, rem, order[k], i, i);
      }
    }
    assert forall k :: 0 <= k < |more| ==> more[k] == if k < at then order[k] else if k == at then i else order[k - 1];
  }

  // All gross amounts have one sign; then their absolute values add up to the absolute value of their sum.
  ghost predicate OneSign(splits: seq<Split>) {
    (forall i :: 0 <= i < |splits| ==> splits[i].gross >= 0) || (forall i :: 0 <= i < |splits| ==> splits[i].gross <= 0)
  }

  lemma {:induction false} OneSignSum(splits: seq<Split>)
    requires OneSign(splits)
    ensures Sum(splits, AbsGross) == Abs(Sum(splits, Gross))
    ensures (forall i :: 0 <= i < |splits| ==> splits[i].gross >= 0) ==> Sum(splits, Gross) >= 0
    ensures (forall i :: 0 <= i < |splits| ==> splits[i].gross <= 0) ==> Sum(splits, Gross) <= 0
  {
    if splits != [] {
      OneSignSum(splits[..|splits| - 1]);
    }
  }

  // Whole parts and remainders make up the exact shares.
  lemma {:induction false} SharesAddUp(splits: seq<Split>, target: nat, total: nat)
    requires total > 0
    ensures var f, r := Sum(splits, FloorOf(target, total)), Sum(splits, RemainderOf(target, total));
      && total * f + r == Sum(splits, AbsGross) * target
      && 0 <= r <= |splits| * (total - 1)
  {
    if splits != [] {
      var init, s := splits[..|splits| - 1], splits[|splits| - 1];
      SharesAddUp(init, target, total);
      var f, r := Sum(init, FloorOf(target, total)), Sum(init, RemainderOf(target, total));
      ShareAdds(total, f, r, Sum(init, AbsGross), AbsGross(s), target, |init|);
    }
  }

  lemma ShareAdds(total: nat, f: int, r: int, sum: int, g: nat, target: nat, n: nat)
    requires total > 0 && total * f + r == sum * target && 0 <= r <= n * (total - 1)
    ensures var df, dr := g * target / total, g * target % total;
      total * (f + df) + (r + dr) == (sum + g) * target && 0 <= r + dr <= (n + 1) * (total - 1)
  {
    var df, dr := g * target / total, g * target % total;
    assert total * df + dr == g * target;
    assert total * (f + df) == total * f + total * df;
    assert (sum + g) * target == sum * target + g * target;
    assert (n + 1) * (total - 1) == n * (total - 1) + (total - 1);
  }

  // With one sign, fewer residual cents than splits are left after rounding down.
  lemma ResidualBelowCount(splits: seq<Split>, target: nat, total: nat)
    requires total > 0 && splits != [] && Sum(splits, AbsGross) == total
    ensures 0 <= target - Sum(splits, FloorOf(target, total)) < |splits|
  {
    SharesAddUp(splits, target, total);
    var f, r := Sum(splits, FloorOf(target, total)), Sum(splits, RemainderOf(target, total));
    assert total * target == target * total;
    hide Sum, FloorOf, RemainderOf;
    ResidualBounds(total, target, f, r, |splits|);
  }

  lemma ResidualBounds(total: int, target: int, f: int, r: int, n: int)
    requires total > 0 && total * f + r == total * target && 0 <= r <= n * (total - 1) && n > 0
    ensures 0 <= target - f < n
  {
    var x := target - f;
    assert total * x == r;
    assert n * (total - 1) == total * n - n;
    if x >= n { MulGrows(total, n, x); }
    if x <= -1 { MulGrows(total, x, -1); }
  }

  lemma MulGrows(d: int, x: int, y: int)
    requires d > 0 && x <= y
    ensures d * x <= d * y
  {
  }

  // What the allocation promises beside the exact sum: each share is the exact one rounded down or up, and a share is
  // rounded up only if its remainder is at least that of every share rounded down, ties going to the lower rate.
  ghost predicate LargestRemainders(splits: seq<Split>, floors: seq<int>, shares: seq<int>, rem: Split -> int)
    requires |shares| == |floors| == |splits|
  {
    && (forall i :: 0 <= i < |splits| ==> shares[i] == floors[i] || shares[i] == floors[i] + 1)
    && (forall i, j | 0 <= i < |splits| && 0 <= j < |splits| && shares[i] != floors[i] && shares[j] == floors[j] ::
          Before(splits, rem, i, j))
  }

  ghost predicate OneCentEach(floors: seq<int>, shares: seq<int>, paid: seq<nat>) {
    |shares| == |floors| && forall j: nat :: j < |shares| ==> shares[j] == floors[j] + if j in paid then 1 else 0
  }

  // The loop over the sorted shares: one cent each, round and round, until the target is reached. It reaches the target
  // exactly unless rounding down has passed it already, and stays in the first round if the residual is small.
  method Distribute(splits: seq<Split>, floors: seq<int>, rem: Split -> int, target: nat) returns (shares: seq<int>)
    requires |floors| == |splits| > 0
    ensures |shares| == |splits|
    ensures var f := Sum(floors, Itself());
      && Sum(shares, Itself()) == (if f <= target then target else f)
      && (0 <= target - f < |splits| ==> LargestRemainders(splits, floors, shares, rem))
  {
    hide Before, Sum;
    shares := floors;
    var distributed := Sum(shares, Itself());
    ghost var start := distributed;
    var byRemainder := SortByRemainder(splits, rem);
    var i := 0;
    while distributed < target
      invariant |shares| == |splits| && distributed == Sum(shares, Itself()) == start + i && i >= 0
      invariant if start <= target then distributed <= target else i == 0
      invariant i <= |splits| ==> OneCentEach(floors, shares, byRemainder[..i])
      decreases target - distributed
    {
      var at := byRemainder[i % |byRemainder|];
      SumUpdate(shares, at, shares[at] + 1, Itself());
      if i < |splits| {
        NextCent(floors, shares, byRemainder, i);
      }
      shares := shares[at := shares[at] + 1];
      distributed := distributed + 1;
      i := i + 1;
    }
    if 0 <= target - start < |splits| {
      FirstRound(splits, floors, rem, byRemainder, i, shares);
    }
  }

  lemma NextCent(floors: seq<int>, shares: seq<int>, order: seq<nat>, i: nat)
    requires i < |order| == |shares| && Positions(order, |shares|) && OneCentEach(floors, shares, order[..i])
    ensures OneCentEach(floors, shares[order[i] := shares[order[i]] + 1], order[..i + 1])
    ensures i % |order| == i
  {
  }

  lemma FirstRound(splits: seq<Split>, floors: seq<int>, rem: Split -> int, order: seq<nat>, i: nat, shares: seq<int>)
    requires |order| == |splits| == |shares| && i <= |splits| && Positions(order, |splits|) && Ordered(splits, rem, order)
    requires OneCentEach(floors, shares, order[..i])
    ensures LargestRemainders(splits, floors, shares, rem)
  {
    hide Before;
    forall a: nat, b: nat | a < |splits| && b < |splits| && shares[a] != floors[a] && shares[b] == floors[b]
      ensures Before(splits, rem, a, b)
    {
      var k :| 0 <= k < i && order[k] == a;
      assert b in order;
      var l :| 0 <= l < |order| && order[l] == b;
      assert forall m :: 0 <= m < i ==> order[..i][m] == order[m];
      assert k < l;
    }
  }

  // ----- the allocation -----

  function SignedSplits(splits: seq<Split>, shares: seq<int>, negative: bool): seq<Split>
    requires |shares| == |splits|
  {
    seq(|splits|, i requires 0 <= i < |splits| => splits[i].(gross := if negative then -shares[i] else shares[i]))
  }

  lemma {:induction false} SignedSum(splits: seq<Split>, shares: seq<int>, negative: bool)
    requires |shares| == |splits|
    ensures Sum(SignedSplits(splits, shares, negative), Gross) == if negative then -Sum(shares, Itself()) else Sum(shares, Itself())
  {
    if splits != [] {
      var n := |splits| - 1;
      SignedSum(splits[..n], shares[..n], negative);
      assert SignedSplits(splits, shares, negative)[..n] == SignedSplits(splits[..n], shares[..n], negative);
    }
  }

  // What the scaled splits add up to: the target, or the shares rounded down where these already exceed it.
  function AllocatedSum(clean: seq<Split>, target: int): int
    requires Sum(clean, Gross) != 0
  {
    var floors := Sum(clean, FloorOf(Abs(target), Abs(Sum(clean, Gross))));
    if floors <= Abs(target) then target else if target < 0 then -floors else floors
  }

  // The splits add up to the target as they are, or to something that can be scaled without passing it.
  predicate CanMeet(splits: seq<Split>, target: int) {
    var clean := Filter(splits, NonZero);
    var total := Sum(clean, Gross);
    total == target || (total != 0 && Sum(clean, FloorOf(Abs(target), Abs(total))) <= Abs(target))
  }

  // Scales splits to a target. The result adds up to the target if and only if the splits can meet it. Unless nothing is
  // left to scale, it has the rates of the non-zero splits.
  method AllocateToAmount(splits: seq<Split>, target: int) returns (r: seq<Split>)
    ensures Sum(r, Gross) == target <==> CanMeet(splits, target)
    ensures var clean := Filter(splits, NonZero);
      var total := Sum(clean, Gross);
      if clean == [] then r == []
      else if total == target then r == clean
      else if total == 0 then r == []
      else
        && |r| == |clean| && (forall i :: 0 <= i < |r| ==> r[i].rate == clean[i].rate)
        && Sum(r, Gross) == AllocatedSum(clean, target)
        && (OneSign(clean) ==> LargestRemainders(clean, Map(clean, FloorOf(Abs(target), Abs(total))), Map(r, AbsGross),
                                                 RemainderOf(Abs(target), Abs(total))))
  {
    hide FloorOf, RemainderOf, Before, Filter;
    var clean := Filter(splits, NonZero);
    if |clean| == 0 {
      return [];
    }
    var total := Sum(clean, Gross);
    if total == target {
      return clean;
    }
    if total == 0 {
      return [];
    }
    var absTotal, absTarget := Abs(total), Abs(target);
    var floors := Map(clean, FloorOf(absTarget, absTotal));
    SumMap(clean, FloorOf(absTarget, absTotal), Itself(), FloorOf(absTarget, absTotal));
    var shares := Distribute(clean, floors, RemainderOf(absTarget, absTotal), absTarget);
    r := SignedSplits(clean, shares, target < 0);
    SignedSum(clean, shares, target < 0);
    if OneSign(clean) {
      OneSignSum(clean);
      ResidualBelowCount(clean, absTarget, absTotal);
      SharesNonNegative(clean, floors, shares, absTarget, absTotal);
      AbsOfSigned(clean, shares, target < 0);
    }
  }

  lemma AbsOfSigned(splits: seq<Split>, shares: seq<int>, negative: bool)
    requires |shares| == |splits| && forall i :: 0 <= i < |shares| ==> shares[i] >= 0
    ensures Map(SignedSplits(splits, shares, negative), AbsGross) == shares
  {
    var r := SignedSplits(splits, shares, negative);
    assert forall i :: 0 <= i < |r| ==> Map(r, AbsGross)[i] == AbsGross(r[i]) == shares[i];
  }

  lemma SharesNonNegative(clean: seq<Split>, floors: seq<int>, shares: seq<int>, target: nat, total: nat)
    requires total > 0 && |shares| == |clean| && floors == Map(clean, FloorOf(target, total))
    requires forall i :: 0 <= i < |clean| ==> shares[i] == floors[i] || shares[i] == floors[i] + 1
    ensures forall i :: 0 <= i < |shares| ==> shares[i] >= 0
  {
  }

  lemma {:induction false} NonZeroSum(splits: seq<Split>)
    requires forall i :: 0 <= i < |splits| ==> splits[i].gross != 0
    ensures Sum(splits, AbsGross) >= |splits|
  {
    if splits != [] {
      NonZeroSum(splits[..|splits| - 1]);
    }
  }

  // Splits of one sign can meet every target, unless all of them are zero; then they meet only the target zero.
  lemma OneSignMeetsIff(splits: seq<Split>, target: int)
    requires OneSign(splits)
    ensures CanMeet(splits, target) <==> (exists s :: s in splits && s.gross != 0) || target == 0
  {
    var clean := Filter(splits, NonZero);
    FilterKeeps(splits, NonZero);
    if s :| s in splits && s.gross != 0 {
      assert s in clean;
    }
    forall i | 0 <= i < |clean|
      ensures clean[i] in splits && NonZero(clean[i])
    {
      assert clean[i] in clean;
    }
    OneSignSum(clean);
    NonZeroSum(clean);
    if clean != [] {
      ResidualBelowCount(clean, Abs(target), Abs(Sum(clean, Gross)));
    }
  }

  // What largest remainders mean for splits scaled by one target: each share is at most a cent off its exact value. The
  // ones rounded up have the larger remainders, equal ones going to the lower rates. So no split gets less than one of a
  // smaller amount, and of equal amounts none gets less than one at a higher rate.
  lemma SharesAreFair(splits: seq<Split>, target: nat, total: nat, shares: seq<int>, i: nat, j: nat)
    requires total > 0 && |shares| == |splits| && i < |splits| && j < |splits|
    requires LargestRemainders(splits, Map(splits, FloorOf(target, total)), shares, RemainderOf(target, total))
    ensures var g, h := Abs(splits[i].gross) * target, Abs(splits[j].gross) * target;
      && g < (shares[i] + 1) * total && shares[i] * total <= g + total
      && (shares[i] != g / total && shares[j] == h / total ==>
           g % total > h % total || (g % total == h % total && splits[i].rate <= splits[j].rate))
    ensures target > 0 && Abs(splits[i].gross) > Abs(splits[j].gross) ==> shares[i] >= shares[j]
    ensures splits[i].gross == splits[j].gross && splits[i].rate < splits[j].rate ==> shares[i] >= shares[j]
  {
    var g, h := Abs(splits[i].gross) * target, Abs(splits[j].gross) * target;
    RoundedAs(splits, target, total, shares, i, j);
    RoundedAs(splits, target, total, shares, j, i);
    ShareBounds(g, total, shares[i]);
    if Abs(splits[i].gross) > Abs(splits[j].gross) {
      ProductsInOrder(Abs(splits[j].gross), Abs(splits[i].gross), target);
      QuotientsInOrder(h, g, total);
    }
    hide LargestRemainders, Map, FloorOf, RemainderOf, Abs;
  }

  lemma RoundedAs(splits: seq<Split>, target: nat, total: nat, shares: seq<int>, i: nat, j: nat)
    requires total > 0 && |shares| == |splits| && i < |splits| && j < |splits|
    requires LargestRemainders(splits, Map(splits, FloorOf(target, total)), shares, RemainderOf(target, total))
    ensures var g, h := Abs(splits[i].gross) * target, Abs(splits[j].gross) * target;
      && (shares[i] == g / total || shares[i] == g / total + 1)
      && (shares[i] != g / total && shares[j] == h / total ==>
           g % total > h % total || (g % total == h % total && splits[i].rate <= splits[j].rate))
  {
    hide Abs;
    var floors := Map(splits, FloorOf(target, total));
    assert floors[i] == FloorOf(target, total)(splits[i]) && floors[j] == FloorOf(target, total)(splits[j]);
  }

  lemma ShareBounds(x: nat, total: nat, share: int)
    requires total > 0 && (share == x / total || share == x / total + 1)
    ensures x < (share + 1) * total && share * total <= x + total
  {
    var q := x / total;
    assert x == total * q + x % total;
    assert (q + 1) * total == q * total + total && (q + 2) * total == q * total + total + total;
  }

  lemma ProductsInOrder(h: nat, g: nat, target: nat)
    requires h < g
    ensures h * target <= g * target && (target > 0 ==> h * target < g * target)
  {
  }

  lemma QuotientsInOrder(x: nat, y: nat, d: nat)
    requires d > 0 && x <= y
    ensures x / d <= y / d && (x / d == y / d ==> x % d <= y % d && (x < y ==> x % d < y % d))
  {
    assert x == d * (x / d) + x % d && y == d * (y / d) + y % d;
    if x / d > y / d { MulGrows(d, y / d + 1, x / d); }
  }

  // With mixed signs the sum can miss the target: splits of 3 and -2 cents scaled to -1 add up to -5, and splits of 3 and
  // -3 cents cannot be scaled at all. Nor can a split of 0 cents.
  lemma MixedSignsMissTheTarget()
    ensures var splits := [Split(19, 3), Split(7, -2)];
      Filter(splits, NonZero) == splits && Sum(splits, Gross) == 1 && AllocatedSum(splits, -1) == -5 && !CanMeet(splits, -1)
    ensures !CanMeet([Split(19, 3), Split(7, -3)], 5) && !CanMeet([Split(19, 0)], 100)
  {
    TwoSplits(Split(19, 3), Split(7, -2));
    TwoSplits(Split(19, 3), Split(7, -3));
    assert FloorOf(1, 1)(Split(19, 3)) == 3 && FloorOf(1, 1)(Split(7, -2)) == 2;
    assert [Split(19, 0)][..0] == [];
  }

  lemma TwoSplits(a: Split, b: Split)
    requires NonZero(a) && NonZero(b)
    ensures Filter([a, b], NonZero) == [a, b] && Sum([a, b], Gross) == a.gross + b.gross
    ensures forall f: Split -> int :: Sum([a, b], f) == f(a) + f(b)
  {
    assert [a, b][..1] == [a] && [a][..0] == [] && [a] + [b] == [a, b];
    assert Filter([a], NonZero) == [a] by { FilterAppend([], a, NonZero); }
    assert forall f: Split -> int :: Sum([a], f) == f(a);
  }
}
