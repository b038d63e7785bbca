// The closing numbers (Z_NR) of the tills, allocated by exports that may run at the same time. The allocating
// statement is split where the database may interleave others: it reads the highest number of its till from a
// snapshot of the table, and later inserts the next number, which fails on the unique key if it is taken.
module ClosingNumbers {

  datatype Closing = Closing(device: nat, zNr: int)

  // Allocations that have read but not yet inserted, by the request that runs them.
  datatype State = State(closings: seq<Closing>, pending: map<nat, Closing>)

  // Read sees some prefix of the table, as old as the snapshot; Insert tries the number that was read, plus one.
  datatype Step = Read(request: nat, device: nat, snapshot: nat) | Insert(request: nat) | Abort(request: nat)

  // COALESCE(MAX(z_nr), 0) over one till.
  function MaxZNr(closings: seq<Closing>, device: nat): int {
    if closings == [] then 0
    else
      var c, rest := closings[|closings| - 1], MaxZNr(closings[..|closings| - 1], device);
      if c.device == device && c.zNr > rest then c.zNr else rest
  }

  // UNIQUE(device_id, z_nr)
  predicate Taken(closings: seq<Closing>, c: Closing) {
    c in closings
  }

  function Run1(s: State, step: Step): State {
    match step
    case Read(request, device, snapshot) =>
      var seen := if snapshot <= |s.closings| then s.closings[..snapshot] else s.closings;
      s.(pending := s.pending[request := Closing(device, MaxZNr(seen, device) + 1)])
    case Insert(request) =>
      if request !in s.pending then s
      else
        var c := s.pending[request];
        var rest := s.pending - {request};
        if Taken(s.closings, c) then State(s.closings, rest) else State(s.closings + [c], rest)
    case Abort(request) => s.(pending := s.pending - {request})
  }

  function Run(s: State, steps: seq<Step>): State {
    if steps == [] then s else Run1(Run(s, steps[..|steps| - 1]), steps[|steps| - 1])
  }

  function Initial(): State {
    State([], map[])
  }

  // How many closings a till has.
  function Count(closings: seq<Closing>, device: nat): nat {
    if closings == [] then 0
    else Count(closings[..|closings| - 1], device) + if closings[|closings| - 1].device == device then 1 else 0
  }

  // The k-th closing of each till has number k.
  ghost predicate Gapless(closings: seq<Closing>) {
    forall i :: 0 <= i < |closings| ==> closings[i].zNr == Count(closings[..i], closings[i].device) + 1
  }

  ghost predicate Inv(s: State) {
    && Gapless(s.closings)
    && (forall r :: r in s.pending ==> 1 <= s.pending[r].zNr <= Count(s.closings, s.pending[r].device) + 1)
  }

  lemma GaplessPrefix(closings: seq<Closing>, n: nat)
    requires Gapless(closings) && n <= |closings|
    ensures Gapless(closings[..n])
  {
    forall i | 0 <= i < n
      ensures closings[..n][i].zNr == Count(closings[..n][..i], closings[..n][i].device) + 1
    {
      assert closings[..n][..i] == closings[..i];
    }
  }

  lemma {:induction false} CountGrows(closings: seq<Closing>, n: nat, device: nat)
    requires n <= |closings|
    ensures Count(closings[..n], device) <= Count(closings, device)
    decreases |closings|
  {
    if n < |closings| {
      var init := closings[..|closings| - 1];
      assert init[..n] == closings[..n];
      CountGrows(init, n, device);
    } else {
      assert closings[..n] == closings;
    }
  }

  lemma {:induction false} MaxIsCount(closings: seq<Closing>, device: nat)
    requires Gapless(closings)
    ensures MaxZNr(closings, device) == Count(closings, device)
  {
    if closings != [] {
      GaplessPrefix(closings, |closings| - 1);
      MaxIsCount(closings[..|closings| - 1], device);
    }
  }

  // In a gapless table a till with n closings has exactly the numbers 1 to n, each once.
  lemma {:induction false} NumberedOneToN(closings: seq<Closing>, device: nat)
    requires Gapless(closings)
    ensures forall z :: Closing(device, z) in closings <==> 1 <= z <= Count(closings, device)
    ensures forall i, j :: 0 <= i < j < |closings| && closings[i].device == device ==> closings[i] != closings[j]
  {
    if closings != [] {
      var n := |closings| - 1;
      var init, last := closings[..n], closings[n];
      GaplessPrefix(closings, n);
      NumberedOneToN(init, device);
      assert closings == init + [last];
      if last.device == device {
        assert last == Closing(device, Count(init, device) + 1);
        assert last !in init;
      }
    }
  }

  lemma StepKeepsInv(s: State, step: Step)
    requires Inv(s)
    ensures Inv(Run1(s, step))
  {
    match step
    case Abort(_) =>
    case Read(request, device, snapshot) =>
      var n := if snapshot <= |s.closings| then snapshot else |s.closings|;
      GaplessPrefix(s.closings, n);
      MaxIsCount(s.closings[..n], device);
      CountGrows(s.closings, n, device);
      assert s.closings[..|s.closings|] == s.closings;
    case Insert(request) =>
      if request in s.pending && !Taken(s.closings, s.pending[request]) {
        var c := s.pending[request];
        NumberedOneToN(s.closings, c.device);
        InsertKeepsGapless(s.closings, c);
        forall d
          ensures Count(s.closings, d) <= Count(s.closings + [c], d)
        {
          assert (s.closings + [c])[..|s.closings|] == s.closings;
        }
      }
  }

  lemma InsertKeepsGapless(closings: seq<Closing>, c: Closing)
    requires Gapless(closings) && c.zNr == Count(closings, c.device) + 1
    ensures Gapless(closings + [c])
  {
    var more := closings + [c];
    forall i | 0 <= i < |more|
      ensures more[i].zNr == Count(more[..i], more[i].device) + 1
    {
      assert more[..i] == closings[..i];
      assert closings[..|closings|] == closings;
    }
  }

  lemma {:induction false} RunKeepsInv(steps: seq<Step>)
    ensures Inv(Run(Initial(), steps))
  {
    if steps != [] {
      RunKeepsInv(steps[..|steps| - 1]);
      StepKeepsInv(Run(Initial(), steps[..|steps| - 1]), steps[|steps| - 1]);
    }
  }

  // Whatever way allocations interleave, fail or are aborted, and however stale their snapshots are, the closings of
  // every till are numbered exactly 1 to n and no number is issued twice.
  lemma NumbersStayGapless(steps: seq<Step>, device: nat)
    ensures var closings := Run(Initial(), steps).closings;
      && (forall z :: Closing(device, z) in closings <==> 1 <= z <= Count(closings, device))
      && (forall i, j :: 0 <= i < j < |closings| ==> closings[i] != closings[j])
  {
    RunKeepsInv(steps);
    var closings := Run(Initial(), steps).closings;
    NumberedOneToN(closings, device);
    forall i, j | 0 <= i < j < |closings|
      ensures closings[i] != closings[j]
    {
      NumberedOneToN(closings, closings[i].device);
    }
  }

  // An insert succeeds exactly when nobody has closed the till since the number was read from the current table;
  // a failed one changes no till's closings.
  lemma InsertSucceedsIff(steps: seq<Step>, request: nat)
    requires request in Run(Initial(), steps).pending
    ensures var s := Run(Initial(), steps);
      var c, after := s.pending[request], Run1(s, Insert(request)).closings;
      && (after == s.closings + [c] <==> c.zNr == Count(s.closings, c.device) + 1)
      && (after == s.closings <==> c.zNr <= Count(s.closings, c.device))
  {
    var s := Run(Initial(), steps);
    RunKeepsInv(steps);
    NumberedOneToN(s.closings, s.pending[request].device);
  }
}
