// The transactional outbox of an offline box: every save of a synchronized entity stamps the row with the next value of
// a sequence and queues a snapshot of it, in the transaction of the save itself.
module SyncOutbox {
  import opened Options
  import opened Groups

  datatype Table = Orders | OrderItems | Payments | PrintJobs | OtherTable

  datatype Key = Key(table: Table, id: nat)

  // An entity row: its business columns, and the columns that the subscriber stamps.
  datatype Row = Row(content: int, originNode: Option<string>, syncVersion: Option<nat>)

  // A queued snapshot: type and id of the entity, its version and its full row.
  datatype OutboxRow = OutboxRow(key: Key, version: nat, payload: Row)

  datatype Database = Database(rows: map<Key, Row>, outbox: seq<OutboxRow>)

  datatype Save = Save(key: Key, content: int)

  // A transaction saves entities in order and then commits or rolls back.
  datatype Transaction = Transaction(saves: seq<Save>, commits: bool)

  // The role of the installation and, for a box, the assignment that it stamps.
  datatype Config = Config(isBox: bool, node: string)

  predicate Syncable(t: Table) {
    t != OtherTable
  }

  function Unstamped(db: Database, key: Key, content: int): Row {
    if key in db.rows then db.rows[key].(content := content) else Row(content, None, None)
  }

  // One save in a transaction: the new working state, and the sequence, which no rollback takes back.
  function AfterSave(c: Config, db: Database, sequence: nat, s: Save): (Database, nat) {
    if c.isBox && Syncable(s.key.table) then
      var row := Row(s.content, Some(c.node), Some(sequence + 1));
      (Database(db.rows[s.key := row], db.outbox + [OutboxRow(s.key, sequence + 1, row)]), sequence + 1)
    else
      (db.(rows := db.rows[s.key := Unstamped(db, s.key, s.content)]), sequence)
  }

  function AfterSaves(c: Config, db: Database, sequence: nat, saves: seq<Save>): (Database, nat) {
    if saves == [] then (db, sequence)
    else
      var (d, n) := AfterSaves(c, db, sequence, saves[..|saves| - 1]);
      AfterSave(c, d, n, saves[|saves| - 1])
  }

  function AfterTransaction(c: Config, db: Database, sequence: nat, t: Transaction): (Database, nat) {
    var (d, n) := AfterSaves(c, db, sequence, t.saves);
    (if t.commits then d else db, n)
  }

  function Run(c: Config, ts: seq<Transaction>): (Database, nat) {
    if ts == [] then (Database(map[], []), 0)
    else
      var (d, n) := Run(c, ts[..|ts| - 1]);
      AfterTransaction(c, d, n, ts[|ts| - 1])
  }

  // ----- the subscriber -----

  class Box {
    const config: Config
    var committed: Database
    // The state that the running transaction sees, and sync_version_seq.
    var working: Database
    var sequence: nat

    constructor (config: Config)
      ensures this.config == config && committed == working == Database(map[], []) && sequence == 0
    {
      this.config := config;
      committed := Database(map[], []);
      working := Database(map[], []);
      sequence := 0;
    }

    // beforeInsert and beforeUpdate: stamp the entity and assign the next version.
    method Stamp(key: Key, row: Row) returns (stamped: Row)
      modifies this`sequence
      ensures config.isBox && Syncable(key.table) ==>
        sequence == old(sequence) + 1 && stamped == Row(row.content, Some(config.node), Some(sequence))
      ensures !(config.isBox && Syncable(key.table)) ==> sequence == old(sequence) && stamped == row
    {
      stamped := row;
      if config.isBox && Syncable(key.table) {
        stamped := stamped.(originNode := Some(config.node));
        sequence := sequence + 1;
        stamped := stamped.(syncVersion := Some(sequence));
      }
    }

    // afterInsert and afterUpdate: queue the snapshot, unless the entity carries no version.
    method Enqueue(key: Key, row: Row)
      modifies this`working
      ensures working.rows == old(working).rows
      ensures working.outbox == old(working).outbox +
        if config.isBox && Syncable(key.table) && row.syncVersion.Some? then [OutboxRow(key, row.syncVersion.value, row)] else []
    {
      if config.isBox && Syncable(key.table) && row.syncVersion.Some? {
        working := working.(outbox := working.outbox + [OutboxRow(key, row.syncVersion.value, row)]);
      }
    }

    method SaveEntity(s: Save)
      modifies this`working, this`sequence
      ensures (working, sequence) == AfterSave(config, old(working), old(sequence), s)
    {
      var row := Unstamped(working, s.key, s.content);
      row := Stamp(s.key, row);
      working := working.(rows := working.rows[s.key := row]);
      Enqueue(s.key, row);
      assert working.outbox == AfterSave(config, old(working), old(sequence), s).0.outbox;
    }

    method RunTransaction(t: Transaction)
      requires working == committed
      modifies this
      ensures (committed, sequence) == AfterTransaction(config, old(committed), old(sequence), t) && working == committed
    {
      for i := 0 to |t.saves|
        invariant committed == old(committed)
        invariant (working, sequence) == AfterSaves(config, old(committed), old(sequence), t.saves[..i])
      {
        assert t.saves[..i + 1][..i] == t.saves[..i];
        SaveEntity(t.saves[i]);
      }
      assert t.saves[..|t.saves|] == t.saves;
      if t.commits {
        committed := working;
      } else {
        working := committed;
      }
    }
  }

  // ----- replaying the outbox -----

  // The payload of the highest version queued for an entity, in whatever order the rows come.
  function Latest(rows: seq<OutboxRow>, key: Key): Option<OutboxRow> {
    if rows == [] then None
    else
      var r, rest := rows[|rows| - 1], Latest(rows[..|rows| - 1], key);
      if r.key == key && (rest.None? || rest.value.version < r.version) then Some(r) else rest
  }

  // What replaying the outbox says about an entity.
  function Replayed(rows: seq<OutboxRow>, key: Key): Option<Row> {
    var r := Latest(rows, key);
    if r.None? then None else Some(r.value.payload)
  }

  function Stored(db: Database, key: Key): Option<Row> {
    if key in db.rows then Some(db.rows[key]) else None
  }

  // Versions grow strictly along the outbox and never exceed the sequence; each snapshot carries its own version.
  ghost predicate Versioned(outbox: seq<OutboxRow>, sequence: nat) {
    && (forall i, j :: 0 <= i < j < |outbox| ==> outbox[i].version < outbox[j].version)
    && (forall i :: 0 <= i < |outbox| ==>
          && 1 <= outbox[i].version <= sequence
          && outbox[i].payload.syncVersion == Some(outbox[i].version)
          && Syncable(outbox[i].key.table))
  }

  // Replaying the outbox rebuilds every synchronized entity, and nothing else.
  ghost predicate Replays(db: Database) {
    forall k: Key :: Syncable(k.table) ==> Stored(db, k) == Replayed(db.outbox, k)
  }

  ghost predicate Faithful(db: Database, sequence: nat) {
    Versioned(db.outbox, sequence) && Replays(db)
  }

  lemma {:induction false} LatestIsQueued(rows: seq<OutboxRow>, key: Key)
    ensures var r := Latest(rows, key);
      && (r.Some? ==> r.value in rows && r.value.key == key)
      && (forall i :: 0 <= i < |rows| && rows[i].key == key ==> r.Some? && rows[i].version <= r.value.version)
  {
    if rows != [] {
      LatestIsQueued(rows[..|rows| - 1], key);
      assert rows == rows[..|rows| - 1] + [rows[|rows| - 1]];
    }
  }

  lemma SaveKeepsFaithful(c: Config, db: Database, sequence: nat, s: Save)
    requires c.isBox && Faithful(db, sequence)
    ensures var (d, n) := AfterSave(c, db, sequence, s); Faithful(d, n)
  {
    var (d, n) := AfterSave(c, db, sequence, s);
    assert Versioned(d.outbox, n);
    hide Versioned;
    forall k: Key | Syncable(k.table)
      ensures Stored(d, k) == Replayed(d.outbox, k)
    {
      assert Stored(db, k) == Replayed(db.outbox, k);
      if Syncable(s.key.table) {
        NewestQueued(db, sequence, OutboxRow(s.key, n, Row(s.content, Some(c.node), Some(n))), k);
      }
    }
  }

  lemma NewestQueued(db: Database, sequence: nat, r: OutboxRow, key: Key)
    requires Versioned(db.outbox, sequence) && r.version == sequence + 1
    ensures Replayed(db.outbox + [r], key) == if r.key == key then Some(r.payload) else Replayed(db.outbox, key)
  {
    QueueingReplaces(db.outbox, r, key);
  }

  // A row with a new highest version becomes the latest of its entity and changes no other.
  lemma QueueingReplaces(outbox: seq<OutboxRow>, r: OutboxRow, key: Key)
    requires forall i :: 0 <= i < |outbox| ==> outbox[i].version < r.version
    ensures Latest(outbox + [r], key) == if r.key == key then Some(r) else Latest(outbox, key)
  {
    LatestIsQueued(outbox, key);
    assert (outbox + [r])[..|outbox|] == outbox;
  }

  lemma {:induction false} SavesKeepFaithful(c: Config, db: Database, sequence: nat, saves: seq<Save>)
    requires c.isBox && Faithful(db, sequence)
    ensures var (d, n) := AfterSaves(c, db, sequence, saves); Faithful(d, n) && n >= sequence
  {
    if saves != [] {
      SavesKeepFaithful(c, db, sequence, saves[..|saves| - 1]);
      var (d, n) := AfterSaves(c, db, sequence, saves[..|saves| - 1]);
      SaveKeepsFaithful(c, d, n, saves[|saves| - 1]);
    }
  }

  // After any serial run of transactions on a box, committed or rolled back, the committed outbox has strictly growing
  // versions and replays to exactly the committed synchronized tables.
  lemma {:induction false} OutboxReplaysTables(c: Config, ts: seq<Transaction>)
    requires c.isBox
    ensures var (db, n) := Run(c, ts); Faithful(db, n)
  {
    if ts != [] {
      OutboxReplaysTables(c, ts[..|ts| - 1]);
      var (db, n) := Run(c, ts[..|ts| - 1]);
      SavesKeepFaithful(c, db, n, ts[|ts| - 1].saves);
    }
  }

  // ----- one row per committed save -----

  function SyncedSave(s: Save): bool { Syncable(s.key.table) }

  function SavesOf(t: Transaction): seq<Save> {
    if t.commits then Filter(t.saves, SyncedSave) else []
  }

  function ToSave(r: OutboxRow): Save { Save(r.key, r.payload.content) }

  lemma {:induction false} SavesQueueOnce(c: Config, db: Database, sequence: nat, saves: seq<Save>)
    requires c.isBox
    ensures Map(AfterSaves(c, db, sequence, saves).0.outbox, ToSave) == Map(db.outbox, ToSave) + Filter(saves, SyncedSave)
  {
    if saves != [] {
      SavesQueueOnce(c, db, sequence, saves[..|saves| - 1]);
      var (d, n) := AfterSaves(c, db, sequence, saves[..|saves| - 1]);
      var s := saves[|saves| - 1];
      if Syncable(s.key.table) {
        var r := OutboxRow(s.key, n + 1, Row(s.content, Some(c.node), Some(n + 1)));
        MapAppend(d.outbox, [r], ToSave);
        MapOne(r, ToSave);
      }
    }
  }

  // The outbox holds exactly one row for each committed save of a synchronized entity, in the order of the saves;
  // rolled back saves leave none.
  lemma {:induction false} OneRowPerCommittedSave(c: Config, ts: seq<Transaction>)
    requires c.isBox
    ensures Map(Run(c, ts).0.outbox, ToSave) == FlatMap(ts, SavesOf)
  {
    if ts != [] {
      OneRowPerCommittedSave(c, ts[..|ts| - 1]);
      var (db, n) := Run(c, ts[..|ts| - 1]);
      SavesQueueOnce(c, db, n, ts[|ts| - 1].saves);
    }
  }

  // A central installation queues nothing and stamps nothing.
  lemma {:induction false} CentralQueuesNothing(c: Config, ts: seq<Transaction>)
    requires !c.isBox
    ensures var (db, n) := Run(c, ts);
      db.outbox == [] && n == 0 && forall k :: k in db.rows ==> db.rows[k].syncVersion.None? && db.rows[k].originNode.None?
  {
    if ts != [] {
      CentralQueuesNothing(c, ts[..|ts| - 1]);
      var (db, n) := Run(c, ts[..|ts| - 1]);
      CentralSaves(c, db, n, ts[|ts| - 1].saves);
    }
  }

  lemma {:induction false} CentralSaves(c: Config, db: Database, sequence: nat, saves: seq<Save>)
    requires !c.isBox && db.outbox == []
    requires forall k :: k in db.rows ==> db.rows[k].syncVersion.None? && db.rows[k].originNode.None?
    ensures var (d, n) := AfterSaves(c, db, sequence, saves);
      d.outbox == [] && n == sequence && forall k :: k in d.rows ==> d.rows[k].syncVersion.None? && d.rows[k].originNode.None?
  {
    if saves != [] {
      CentralSaves(c, db, sequence, saves[..|saves| - 1]);
    }
  }

  function SyncedSaves(t: Transaction): int { |Filter(t.saves, SyncedSave)| }

  lemma {:induction false} SavesAdvanceSequence(c: Config, db: Database, sequence: nat, saves: seq<Save>)
    requires c.isBox
    ensures AfterSaves(c, db, sequence, saves).1 == sequence + |Filter(saves, SyncedSave)|
  {
    if saves != [] {
      SavesAdvanceSequence(c, db, sequence, saves[..|saves| - 1]);
    }
  }

  // The sequence has advanced once for every save of a synchronized entity, rolled back ones included: they leave gaps.
  lemma {:induction false} SequenceCountsSaves(c: Config, ts: seq<Transaction>)
    requires c.isBox
    ensures Run(c, ts).1 == Sum(ts, SyncedSaves)
  {
    if ts != [] {
      SequenceCountsSaves(c, ts[..|ts| - 1]);
      var (db, n) := Run(c, ts[..|ts| - 1]);
      SavesAdvanceSequence(c, db, n, ts[|ts| - 1].saves);
    }
  }

  // ----- what the tables hold -----

  // The content of the last save of an entity, in a transaction and over all committed ones.
  function LastSaved(saves: seq<Save>, k: Key): Option<int> {
    if saves == [] then None
    else if saves[|saves| - 1].key == k then Some(saves[|saves| - 1].content)
    else LastSaved(saves[..|saves| - 1], k)
  }

  function LastCommitted(ts: seq<Transaction>, k: Key): Option<int> {
    if ts == [] then None
    else
      var t := ts[|ts| - 1];
      if t.commits && LastSaved(t.saves, k).Some? then LastSaved(t.saves, k) else LastCommitted(ts[..|ts| - 1], k)
  }

  // The row of an entity: its content, and on a box, for the four synchronized tables, the stamp of the installation.
  ghost predicate Holds(c: Config, db: Database, k: Key, content: Option<int>) {
    && (k in db.rows <==> content.Some?)
    && (k in db.rows ==> db.rows[k].content == content.value)
    && (k in db.rows ==>
          if c.isBox && k.table in {Orders, OrderItems, Payments, PrintJobs} then
            db.rows[k].originNode == Some(c.node) && db.rows[k].syncVersion.Some?
          else db.rows[k].originNode.None? && db.rows[k].syncVersion.None?)
    && (IsQueued(db.outbox, k) <==> c.isBox && k.table in {Orders, OrderItems, Payments, PrintJobs} && content.Some?)
  }

  ghost predicate IsQueued(outbox: seq<OutboxRow>, k: Key) {
    exists r :: r in outbox && r.key == k
  }

  lemma SaveHolds(c: Config, db: Database, sequence: nat, s: Save, k: Key, content: Option<int>)
    requires Holds(c, db, k, content)
    ensures Holds(c, AfterSave(c, db, sequence, s).0, k, if s.key == k then Some(s.content) else content)
  {
    var after := AfterSave(c, db, sequence, s).0;
    if c.isBox && Syncable(s.key.table) {
      var r := after.outbox[|db.outbox|];
      assert after.outbox == db.outbox + [r] && r.key == s.key;
      assert r in after.outbox;
      assert forall q :: q in after.outbox <==> q in db.outbox || q == r;
    }
  }

  lemma {:induction false} SavesHold(c: Config, db: Database, sequence: nat, saves: seq<Save>, k: Key, content: Option<int>)
    requires Holds(c, db, k, content)
    ensures Holds(c, AfterSaves(c, db, sequence, saves).0, k, if LastSaved(saves, k).Some? then LastSaved(saves, k) else content)
  {
    if saves != [] {
      var init, s := saves[..|saves| - 1], saves[|saves| - 1];
      SavesHold(c, db, sequence, init, k, content);
      var (d, n) := AfterSaves(c, db, sequence, init);
      SaveHolds(c, d, n, s, k, if LastSaved(init, k).Some? then LastSaved(init, k) else content);
      hide Holds;
    }
  }

  // After any serial run, on a box or on a central installation: the tables hold exactly the last committed save of each
  // entity; on a box the orders, order items, payments and print jobs are stamped and queued, and nothing else is.
  lemma {:induction false} TablesHoldLastSaves(c: Config, ts: seq<Transaction>, k: Key)
    ensures Holds(c, Run(c, ts).0, k, LastCommitted(ts, k))
  {
    if ts != [] {
      var init, t := ts[..|ts| - 1], ts[|ts| - 1];
      TablesHoldLastSaves(c, init, k);
      var (d, n) := Run(c, init);
      SavesHold(c, d, n, t.saves, k, LastCommitted(init, k));
      hide Holds;
    }
  }
}
