// Pushing the outbox to the central installation over a link that loses requests and answers and delivers again, and
// the central receipt log that ignores what it already has.
module SyncDelivery {
  import opened Options
  import opened Groups
  import opened SyncOutbox

  const BATCH_SIZE := 200

  // The box and the central installation: committed database and sequence, the versions of outbox rows marked as
  // pushed, and the receipt log; and, for the record, everything that was ever delivered.
  datatype Link = Link(db: Database, sequence: nat, pushed: set<nat>, inbox: seq<OutboxRow>, delivered: set<OutboxRow>)

  // What happens to a push: the request is lost or refused, the answer is lost, or both arrive.
  datatype Delivery = Lost | Unacknowledged | Acknowledged

  datatype Step = Transact(t: Transaction) | Push(delivery: Delivery) | Redeliver(rows: seq<nat>)

  // The unique key of the receipt log.
  predicate SameReceipt(a: OutboxRow, b: OutboxRow) {
    a.key == b.key && a.version == b.version
  }

  // INSERT ... ON CONFLICT DO NOTHING
  function Insert(inbox: seq<OutboxRow>, r: OutboxRow): seq<OutboxRow> {
    if exists i :: 0 <= i < |inbox| && SameReceipt(inbox[i], r) then inbox else inbox + [r]
  }

  function Ingest(inbox: seq<OutboxRow>, rows: seq<OutboxRow>): seq<OutboxRow> {
    if rows == [] then inbox else Insert(Ingest(inbox, rows[..|rows| - 1]), rows[|rows| - 1])
  }

  function NotIn(pushed: set<nat>): OutboxRow -> bool {
    (r: OutboxRow) => r.version !in pushed
  }

  // The rows not yet marked as pushed, in version order, which is the order of the outbox.
  function Pending(l: Link): seq<OutboxRow> {
    Filter(l.db.outbox, NotIn(l.pushed))
  }

  function Batch(l: Link): seq<OutboxRow> {
    var p := Pending(l);
    if |p| <= BATCH_SIZE then p else p[..BATCH_SIZE]
  }

  function Versions(rows: seq<OutboxRow>): set<nat> {
    set r | r in rows :: r.version
  }

  function Receive(l: Link, rows: seq<OutboxRow>): Link {
    l.(inbox := Ingest(l.inbox, rows), delivered := l.delivered + (set r | r in rows))
  }

  function Apply(c: Config, l: Link, step: Step): Link {
    match step
    case Transact(t) =>
      var (db, n) := AfterTransaction(c, l.db, l.sequence, t);
      l.(db := db, sequence := n)
    case Push(Lost) => l
    case Push(Unacknowledged) => Receive(l, Batch(l))
    case Push(Acknowledged) => Receive(l, Batch(l)).(pushed := l.pushed + Versions(Batch(l)))
    case Redeliver(rows) => Receive(l, RowsAt(l.db.outbox, rows))
  }

  // Any rows of the outbox, in any order and any number of times.
  function RowsAt(outbox: seq<OutboxRow>, indices: seq<nat>): seq<OutboxRow> {
    if indices == [] then []
    else
      var i := indices[|indices| - 1];
      RowsAt(outbox, indices[..|indices| - 1]) + if i < |outbox| then [outbox[i]] else []
  }

  function Run(c: Config, steps: seq<Step>): Link {
    if steps == [] then Link(Database(map[], []), 0, {}, [], {})
    else Apply(c, Run(c, steps[..|steps| - 1]), steps[|steps| - 1])
  }

  // ----- the receipt log -----

  ghost predicate Within(rows: seq<OutboxRow>, outbox: seq<OutboxRow>) {
    forall r :: r in rows ==> r in outbox
  }

  ghost predicate NoDuplicates(inbox: seq<OutboxRow>) {
    forall i, j :: 0 <= i < j < |inbox| ==> !SameReceipt(inbox[i], inbox[j])
  }

  lemma SameVersionSameRow(outbox: seq<OutboxRow>, sequence: nat, a: OutboxRow, b: OutboxRow)
    requires Versioned(outbox, sequence) && a in outbox && b in outbox && a.version == b.version
    ensures a == b
  {
  }

  // Ingesting rows of one outbox adds exactly those that are missing.
  lemma {:induction false} IngestAddsMissing(inbox: seq<OutboxRow>, rows: seq<OutboxRow>, outbox: seq<OutboxRow>, sequence: nat)
    requires Versioned(outbox, sequence) && Within(inbox, outbox) && Within(rows, outbox) && NoDuplicates(inbox)
    ensures var after := Ingest(inbox, rows);
      Within(after, outbox) && NoDuplicates(after) && forall r :: r in after <==> r in inbox || r in rows
  {
    if rows != [] {
      var init, r := rows[..|rows| - 1], rows[|rows| - 1];
      assert rows == init + [r];
      IngestAddsMissing(inbox, init, outbox, sequence);
      var before := Ingest(inbox, init);
      if i :| 0 <= i < |before| && SameReceipt(before[i], r) {
        assert before[i] in before;
        SameVersionSameRow(outbox, sequence, before[i], r);
      }
    }
  }

  // The state after any run: the box is faithful; the receipt log holds exactly what was delivered, without duplicates,
  // and nothing that the outbox does not hold; and what is marked as pushed has been received.
  ghost predicate Consistent(l: Link) {
    && Faithful(l.db, l.sequence)
    && Within(l.inbox, l.db.outbox) && NoDuplicates(l.inbox)
    && (forall r :: r in l.inbox <==> r in l.delivered)
    && (forall r :: r in l.db.outbox && r.version in l.pushed ==> r in l.inbox)
    && (forall v :: v in l.pushed ==> v <= l.sequence)
  }

  lemma ReceiveKeepsConsistent(l: Link, rows: seq<OutboxRow>)
    requires Consistent(l) && Within(rows, l.db.outbox)
    ensures Consistent(Receive(l, rows)) && forall r :: r in rows ==> r in Receive(l, rows).inbox
  {
    IngestAddsMissing(l.inbox, rows, l.db.outbox, l.sequence);
  }

  lemma BatchWithin(l: Link)
    ensures Within(Batch(l), l.db.outbox)
  {
    FilterKeeps(l.db.outbox, NotIn(l.pushed));
  }

  lemma {:induction false} RowsAtWithin(outbox: seq<OutboxRow>, indices: seq<nat>)
    ensures Within(RowsAt(outbox, indices), outbox)
  {
    if indices != [] {
      RowsAtWithin(outbox, indices[..|indices| - 1]);
    }
  }

  lemma {:induction false} SavesAppend(c: Config, db: Database, sequence: nat, saves: seq<Save>)
    ensures var (d, n) := AfterSaves(c, db, sequence, saves);
      && db.outbox <= d.outbox && sequence <= n
      && forall i :: |db.outbox| <= i < |d.outbox| ==> d.outbox[i].version > sequence
  {
    if saves != [] {
      SavesAppend(c, db, sequence, saves[..|saves| - 1]);
    }
  }

  lemma TransactKeepsConsistent(c: Config, l: Link, t: Transaction)
    requires c.isBox && Consistent(l)
    ensures Consistent(Apply(c, l, Transact(t)))
  {
    SavesKeepFaithful(c, l.db, l.sequence, t.saves);
    SavesAppend(c, l.db, l.sequence, t.saves);
    hide Faithful, NoDuplicates;
    var d := AfterSaves(c, l.db, l.sequence, t.saves).0;
    forall r | r in d.outbox && r.version in l.pushed
      ensures r in l.inbox
    {
      var i :| 0 <= i < |d.outbox| && d.outbox[i] == r;
      assert r == l.db.outbox[i];
    }
  }

  lemma PushKeepsConsistent(c: Config, l: Link, delivery: Delivery)
    requires Consistent(l)
    ensures Consistent(Apply(c, l, Push(delivery)))
  {
    BatchWithin(l);
    ReceiveKeepsConsistent(l, Batch(l));
    if delivery.Acknowledged? {
      var after := Receive(l, Batch(l));
      forall r | r in l.db.outbox && r.version in l.pushed + Versions(Batch(l))
        ensures r in after.inbox
      {
        if r.version in Versions(Batch(l)) {
          var b :| b in Batch(l) && b.version == r.version;
          SameVersionSameRow(l.db.outbox, l.sequence, b, r);
        }
      }
      forall v | v in Versions(Batch(l))
        ensures v <= l.sequence
      {
        var b :| b in Batch(l) && b.version == v;
        assert b in l.db.outbox;
      }
    }
  }

  // Whatever the link does, the receipt log holds exactly the rows that were delivered, each once.
  lemma {:induction false} ReceiptLogIsExact(c: Config, steps: seq<Step>)
    requires c.isBox
    ensures Consistent(Run(c, steps))
  {
    if steps != [] {
      var l, step := Run(c, steps[..|steps| - 1]), steps[|steps| - 1];
      ReceiptLogIsExact(c, steps[..|steps| - 1]);
      match step
      case Transact(t) => TransactKeepsConsistent(c, l, t);
      case Push(delivery) => PushKeepsConsistent(c, l, delivery);
      case Redeliver(rows) =>
        RowsAtWithin(l.db.outbox, rows);
        ReceiveKeepsConsistent(l, RowsAt(l.db.outbox, rows));
    } else {
      OutboxReplaysTables(c, []);
    }
  }

  // Delivering rows that were received before changes nothing.
  lemma RedeliveryIsIdempotent(c: Config, l: Link, rows: seq<OutboxRow>)
    requires Consistent(l) && Within(rows, l.inbox)
    ensures Receive(l, rows) == l
  {
    IngestReceived(l.inbox, rows);
    assert forall r :: r in rows ==> r in l.delivered;
  }

  lemma {:induction false} IngestReceived(inbox: seq<OutboxRow>, rows: seq<OutboxRow>)
    requires Within(rows, inbox)
    ensures Ingest(inbox, rows) == inbox
  {
    if rows != [] {
      var r := rows[|rows| - 1];
      assert forall x :: x in rows[..|rows| - 1] ==> x in rows;
      IngestReceived(inbox, rows[..|rows| - 1]);
      assert r in rows;
      var i :| 0 <= i < |inbox| && inbox[i] == r;
      assert SameReceipt(inbox[i], r);
    }
  }

  // ----- convergence -----

  // The latest version of an entity depends only on which rows there are, not on their order.
  lemma LatestOfSameRows(a: seq<OutboxRow>, b: seq<OutboxRow>, sequence: nat, key: Key)
    requires Versioned(b, sequence) && forall r :: r in a <==> r in b
    ensures Latest(a, key) == Latest(b, key)
  {
    LatestIsQueued(a, key);
    LatestIsQueued(b, key);
    var x, y := Latest(a, key), Latest(b, key);
    if x.Some? {
      var i :| 0 <= i < |b| && b[i] == x.value;
      assert y.Some? && x.value.version <= y.value.version;
      var j :| 0 <= j < |a| && a[j] == y.value;
      SameVersionSameRow(b, sequence, x.value, y.value);
    }
  }

  // Once every outbox row has been delivered, in whatever order and however often, the highest version received for each
  // entity is the box's row of it.
  lemma DeliveredLogConverges(c: Config, steps: seq<Step>, key: Key)
    requires c.isBox && Syncable(key.table)
    requires forall r :: r in Run(c, steps).db.outbox ==> r in Run(c, steps).delivered
    ensures Replayed(Run(c, steps).inbox, key) == Stored(Run(c, steps).db, key)
  {
    var l := Run(c, steps);
    ReceiptLogIsExact(c, steps);
    LatestOfSameRows(l.inbox, l.db.outbox, l.sequence, key);
  }

  // ----- draining -----

  lemma {:induction false} FilterAll(s: seq<OutboxRow>, p: OutboxRow -> bool)
    ensures (forall x :: x in s ==> p(x)) ==> Filter(s, p) == s
    ensures (forall x :: x in s ==> !p(x)) ==> Filter(s, p) == []
  {
    if s != [] {
      FilterAll(s[..|s| - 1], p);
    }
  }

  ghost predicate Growing(s: seq<OutboxRow>) {
    forall i, j :: 0 <= i < j < |s| ==> s[i].version < s[j].version
  }

  lemma {:induction false} FilterGrowing(s: seq<OutboxRow>, p: OutboxRow -> bool)
    requires Growing(s)
    ensures Growing(Filter(s, p))
  {
    if s != [] {
      var init, x := s[..|s| - 1], s[|s| - 1];
      var f := Filter(init, p);
      FilterGrowing(init, p);
      FilterKeeps(init, p);
      forall i | 0 <= i < |f|
        ensures f[i].version < x.version
      {
        assert f[i] in init;
      }
      assert Filter(s, p) == if p(x) then f + [x] else f;
    }
  }

  lemma LaterNotInPrefix(p: seq<OutboxRow>, m: nat)
    requires Growing(p) && m <= |p|
    ensures forall x :: x in p[m..] ==> x.version !in Versions(p[..m])
  {
  }

  lemma FilterSplits(a: seq<OutboxRow>, b: seq<OutboxRow>, q: OutboxRow -> bool)
    requires (forall x :: x in a ==> !q(x)) && forall x :: x in b ==> q(x)
    ensures Filter(a + b, q) == b
  {
    FilterConcat(a, b, q);
    FilterAll(a, q);
    FilterAll(b, q);
  }

  // Taking the versions of the first m rows out of growing rows leaves the others.
  lemma PrefixTakenOut(p: seq<OutboxRow>, m: nat)
    requires Growing(p) && m <= |p|
    ensures Filter(p, NotIn(Versions(p[..m]))) == p[m..]
  {
    LaterNotInPrefix(p, m);
    assert p == p[..m] + p[m..];
    FilterSplits(p[..m], p[m..], NotIn(Versions(p[..m])));
  }

  // An acknowledged push takes its batch off the pending rows and leaves the rest.
  lemma AcknowledgedPushDrains(c: Config, l: Link)
    requires Growing(l.db.outbox)
    ensures Pending(Apply(c, l, Push(Acknowledged))) == Pending(l)[|Batch(l)|..]
  {
    var p, b := Pending(l), Batch(l);
    assert b == p[..|b|];
    FilterGrowing(l.db.outbox, NotIn(l.pushed));
    PrefixTakenOut(p, |b|);
    FilterTwice(l.db.outbox, NotIn(l.pushed), NotIn(Versions(b)), NotIn(l.pushed + Versions(b)));
  }

  function PushAll(c: Config, l: Link, n: nat): Link {
    if n == 0 then l else Apply(c, PushAll(c, l, n - 1), Push(Acknowledged))
  }

  lemma PushDrainsBatch(c: Config, l: Link)
    requires Consistent(l)
    ensures var after := Apply(c, l, Push(Acknowledged));
      && Consistent(after) && after.db == l.db
      && |Pending(after)| == if |Pending(l)| <= BATCH_SIZE then 0 else |Pending(l)| - BATCH_SIZE
  {
    PushKeepsConsistent(c, l, Acknowledged);
    AcknowledgedPushDrains(c, l);
  }

  lemma {:induction false} PushesDrain(c: Config, l: Link, n: nat)
    requires Consistent(l)
    ensures var after := PushAll(c, l, n);
      && Consistent(after) && after.db == l.db
      && |Pending(after)| == if |Pending(l)| <= n * BATCH_SIZE then 0 else |Pending(l)| - n * BATCH_SIZE
  {
    hide Consistent, Apply, Pending;
    if n > 0 {
      PushesDrain(c, l, n - 1);
      PushDrainsBatch(c, PushAll(c, l, n - 1));
    }
  }

  // When the link recovers after any history, as many acknowledged pushes as there are batches pending bring the central
  // installation to the box's state.
  lemma RecoveredLinkConverges(c: Config, steps: seq<Step>, n: nat, key: Key)
    requires c.isBox && Syncable(key.table) && |Pending(Run(c, steps))| <= n * BATCH_SIZE
    ensures var after := PushAll(c, Run(c, steps), n);
      Pending(after) == [] && Replayed(after.inbox, key) == Stored(Run(c, steps).db, key)
  {
    var l := Run(c, steps);
    var after := PushAll(c, l, n);
    ReceiptLogIsExact(c, steps);
    PushesDrain(c, l, n);
    FilterKeeps(after.db.outbox, NotIn(after.pushed));
    forall r | r in after.db.outbox
      ensures r in after.inbox
    {
      assert NotIn(after.pushed)(r) ==> r in Pending(after);
    }
    LatestOfSameRows(after.inbox, after.db.outbox, after.sequence, key);
  }
}
