/** Local SQL statements on synced tables and the outbox triggers they fire: clock tick, outbox entry,
    row stamp, tombstone. Random ids are parameters. */
module OutboxHook {
  import opened SyncTypes
  import opened Materializer
  import opened EngineSpec

  datatype Statement =
    | InsertRow(key: Key, row: Row, id: ChangeId, stampId: ChangeId)
    | UpdateRow(key: Key, cols: string, id: ChangeId)
    | UpsertRow(key: Key, row: Row, id: ChangeId, stampId: ChangeId)
    | DeleteRow(key: Key, id: ChangeId)

  /** The triggers fire only once a device id other than the default has been set. */
  predicate GateOn(db: Db) { db.gate != "local" }

  function Capture(db: Db, id: ChangeId, k: Key, op: SyncOp, data: Payload): Change {
    Change(id, k.table, k.row, op, data, db.lamport + 1, db.gate)
  }

  /** First two statements of every trigger: bump the clock, insert the outbox entry. */
  function Enter(db: Db, c: Change): Db {
    db.(lamport := db.lamport + 1, outbox := db.outbox[c.id := c])
  }

  /** Last statement of the insert and update triggers: stamp the row with the current clock. */
  function StampRow(db: Db, k: Key): Db
    requires k in db.store.rows
  {
    db.(store := db.store.(rows := db.store.rows[k := Row(db.store.rows[k].cols, db.lamport, db.gate)]))
  }

  /** The update trigger. Its own stamping update does not fire it again. */
  function UpdateTrigger(db: Db, k: Key, id: ChangeId): Db
    requires k in db.store.rows
  {
    StampRow(Enter(db, Capture(db, id, k, Update, Record(db.store.rows[k]))), k)
  }

  /** The insert trigger. Its stamping update does fire the update trigger, with the row stamped once. */
  function InsertTrigger(db: Db, k: Key, id: ChangeId, stampId: ChangeId): Db
    requires k in db.store.rows
  {
    UpdateTrigger(StampRow(Enter(db, Capture(db, id, k, Insert, Record(db.store.rows[k]))), k), k, stampId)
  }

  function DeleteTrigger(db: Db, k: Key, id: ChangeId): Db {
    var e := Enter(db, Capture(db, id, k, Delete, KeyOnly));
    e.(store := e.store.(tombs := e.store.tombs[k := Tombstone(e.lamport, e.gate)]))
  }

  function PutRow(db: Db, k: Key, row: Row): Db {
    db.(store := db.store.(rows := db.store.rows[k := row]))
  }

  function DropRow(db: Db, k: Key): Db {
    db.(store := db.store.(rows := db.store.rows - {k}))
  }

  /** One statement: inserting an existing key fails, updating or deleting a missing one does nothing. An
      upsert writes the whole row and fires the triggers of what it turns out to be. */
  function Exec(db: Db, s: Statement): Db {
    match s
    case InsertRow(k, row, id, stampId) =>
      if k in db.store.rows then db
      else if !GateOn(db) then PutRow(db, k, row)
      else InsertTrigger(PutRow(db, k, row), k, id, stampId)
    case UpdateRow(k, cols, id) =>
      if k !in db.store.rows then db
      else
        var updated := PutRow(db, k, db.store.rows[k].(cols := cols));
        if !GateOn(db) then updated else UpdateTrigger(updated, k, id)
    case UpsertRow(k, row, id, stampId) =>
      var put := PutRow(db, k, row);
      if !GateOn(db) then put
      else if k in db.store.rows then UpdateTrigger(put, k, id)
      else InsertTrigger(put, k, id, stampId)
    case DeleteRow(k, id) =>
      if k !in db.store.rows then db
      else if !GateOn(db) then DropRow(db, k) else DeleteTrigger(DropRow(db, k), k, id)
  }

  /** The entry of an insert and the one its stamping update leaves. */
  function CapturedInsert(db: Db, k: Key, row: Row, id: ChangeId, stampId: ChangeId): seq<Change> {
    var c := Capture(db, id, k, Insert, Record(row));
    [c, Change(stampId, k.table, k.row, Update, Record(Row(row.cols, c.ts, c.dev)), c.ts + 1, c.dev)]
  }

  /** The entries a statement adds to the outbox, in order. */
  function Captured(db: Db, s: Statement): seq<Change> {
    if !GateOn(db) then []
    else
      match s
      case InsertRow(k, row, id, stampId) =>
        if k in db.store.rows then [] else CapturedInsert(db, k, row, id, stampId)
      case UpdateRow(k, cols, id) =>
        if k !in db.store.rows then [] else [Capture(db, id, k, Update, Record(db.store.rows[k].(cols := cols)))]
      case UpsertRow(k, row, id, stampId) =>
        if k in db.store.rows then [Capture(db, id, k, Update, Record(row))]
        else CapturedInsert(db, k, row, id, stampId)
      case DeleteRow(k, id) =>
        if k !in db.store.rows then [] else [Capture(db, id, k, Delete, KeyOnly)]
  }

  function ExecAll(db: Db, ss: seq<Statement>): Db {
    if ss == [] then db else Exec(ExecAll(db, ss[..|ss| - 1]), ss[|ss| - 1])
  }

  /** Everything captured over a run of statements, in order. */
  function Log(db: Db, ss: seq<Statement>): seq<Change> {
    if ss == [] then [] else Log(db, ss[..|ss| - 1]) + Captured(ExecAll(db, ss[..|ss| - 1]), ss[|ss| - 1])
  }

  // ---- What a statement does ------------------------------------------------------------------

  /** The statement finds what it needs: an insert a free key, an update or delete a row. */
  predicate Applies(db: Db, s: Statement) {
    if s.InsertRow? then s.key !in db.store.rows else s.UpsertRow? || s.key in db.store.rows
  }

  /** The gate decides what is recorded, never what the application sees: with it on or off the statement leaves
      the columns it names at its key, or no row there, and a statement that finds nothing to do does nothing. */
  lemma StatementShows(db: Db, s: Statement)
    ensures var rows, after := db.store.rows, Exec(db, s).store.rows;
            && (!Applies(db, s) ==> Exec(db, s) == db && Captured(db, s) == [])
            && (Applies(db, s) ==>
                  match s
                  case InsertRow(k, row, _, _) => k in after && after[k].cols == row.cols
                  case UpdateRow(k, cols, _) => k in after && after[k].cols == cols
                  case UpsertRow(k, row, _, _) => k in after && after[k].cols == row.cols
                  case DeleteRow(k, _) => k !in after)
            && forall j :: j != s.key ==> (j in after <==> j in rows) && (j in rows ==> after[j] == rows[j])
  {
    match s
    case InsertRow(_, _, _, _) =>
    case UpdateRow(_, _, _) =>
    case UpsertRow(_, _, _, _) =>
    case DeleteRow(_, _) =>
  }

  /** With the gate off nothing is recorded and no row is stamped; with it on every statement that applies is:
      one entry, or two for a new row, of its kind, its table and row, by this device, from the next tick on. */
  lemma StatementRecords(db: Db, s: Statement)
    requires Applies(db, s)
    ensures var cs, after, isNew := Captured(db, s), Exec(db, s), !s.DeleteRow? && s.key !in db.store.rows;
            if !GateOn(db) then cs == [] && after == db.(store := db.store.(rows := after.store.rows))
            else
              && |cs| == (if isNew then 2 else 1) && after.lamport == db.lamport + |cs|
              && (forall i :: 0 <= i < |cs| ==>
                    cs[i].RowKey() == s.key && cs[i].dev == db.gate && cs[i].ts == db.lamport + 1 + i)
              && cs[0].op == (if s.DeleteRow? then Delete else if isNew then Insert else Update)
              && (isNew ==> cs[1].op == Update)
              && (s.DeleteRow? ==> cs[0].data == KeyOnly)
              && (!s.DeleteRow? ==> cs[0].data.Record? && cs[0].data.full.cols == after.store.rows[s.key].cols)
  {
  }

  // ---- Bookkeeping over runs ------------------------------------------------------------------

  /** The stored clock bounds every timestamp in the outbox, the rows and the tombstones. */
  predicate Bounded(db: Db) {
    && (forall id :: id in db.outbox ==> db.outbox[id].ts <= db.lamport)
    && (forall k :: k in db.store.rows ==> db.store.rows[k].ts <= db.lamport)
    && (forall k :: k in db.store.tombs ==> db.store.tombs[k].ts <= db.lamport)
  }

  predicate Increasing(cs: seq<Change>) { forall i, j :: 0 <= i < j < |cs| ==> cs[i].ts < cs[j].ts }

  /** The last captured entry of row `k`. */
  function LastOf(log: seq<Change>, k: Key): Option<Change> {
    if log == [] then None
    else if log[|log| - 1].RowKey() == k then Some(log[|log| - 1])
    else LastOf(log[..|log| - 1], k)
  }

  function LastDeleteOf(log: seq<Change>, k: Key): Option<Change> {
    if log == [] then None
    else if log[|log| - 1].RowKey() == k && log[|log| - 1].op.Delete? then Some(log[|log| - 1])
    else LastDeleteOf(log[..|log| - 1], k)
  }

  /** A row written in the run is stamped by its last entry, and gone if that entry is a delete;
      its tombstone is stamped by its last delete; what the run did not touch is as before. */
  predicate RowBooked(before: Db, db: Db, log: seq<Change>, k: Key) {
    && (match LastOf(log, k)
        case None =>
          (k in db.store.rows <==> k in before.store.rows)
          && (k in db.store.rows ==> db.store.rows[k] == before.store.rows[k])
        case Some(c) =>
          if c.op.Delete? then k !in db.store.rows
          else k in db.store.rows && db.store.rows[k].ts == c.ts && db.store.rows[k].dev == c.dev)
    && (match LastDeleteOf(log, k)
        case None =>
          (k in db.store.tombs <==> k in before.store.tombs)
          && (k in db.store.tombs ==> db.store.tombs[k] == before.store.tombs[k])
        case Some(c) => k in db.store.tombs && db.store.tombs[k] == Tombstone(c.ts, c.dev))
  }

  lemma LastOfSnoc(log: seq<Change>, c: Change, k: Key)
    ensures LastOf(log + [c], k) == if c.RowKey() == k then Some(c) else LastOf(log, k)
    ensures LastDeleteOf(log + [c], k) == if c.RowKey() == k && c.op.Delete? then Some(c) else LastDeleteOf(log, k)
  {
    assert (log + [c])[..|log|] == log;
  }

  /** Timestamps of a run lie above the starting clock and end at the clock. */
  predicate LogWithin(log: seq<Change>, low: int, high: int) {
    Increasing(log) && low <= high && forall c :: c in log ==> low < c.ts <= high
  }

  /** What a captured statement leaves at key `k`: nothing changes at other keys; at its own, the row
      carries the stamp of the statement's last entry, or is gone under that stamp. */
  lemma CapturedEffect(db: Db, s: Statement, k: Key)
    requires GateOn(db) && Captured(db, s) != []
    ensures var st, st', c := db.store, Exec(db, s).store, Captured(db, s)[|Captured(db, s)| - 1];
            if k != s.key then
              && (k in st'.rows <==> k in st.rows) && (k in st.rows ==> st'.rows[k] == st.rows[k])
              && (k in st'.tombs <==> k in st.tombs) && (k in st.tombs ==> st'.tombs[k] == st.tombs[k])
            else if s.DeleteRow? then
              c.op.Delete? && k !in st'.rows && k in st'.tombs && st'.tombs[k] == Tombstone(c.ts, c.dev)
            else
              && !c.op.Delete? && k in st'.rows && st'.rows[k].ts == c.ts && st'.rows[k].dev == c.dev
              && (k in st'.tombs <==> k in st.tombs) && (k in st.tombs ==> st'.tombs[k] == st.tombs[k])
  {
  }

  lemma StatementBooked(before: Db, db: Db, log: seq<Change>, s: Statement, k: Key)
    requires GateOn(db) && RowBooked(before, db, log, k)
    ensures RowBooked(before, Exec(db, s), log + Captured(db, s), k)
  {
    var cs := Captured(db, s);
    if cs == [] {
      assert log + cs == log;
      assert Exec(db, s) == db;
    } else {
      CapturedEffect(db, s, k);
      if |cs| == 1 {
        LastOfSnoc(log, cs[0], k);
        assert log + cs == log + [cs[0]];
      } else {
        LastOfSnoc(log, cs[0], k);
        LastOfSnoc(log + [cs[0]], cs[1], k);
        assert log + cs == log + [cs[0]] + [cs[1]];
      }
      assert LastOf(log + cs, k) == if k == s.key then Some(cs[|cs| - 1]) else LastOf(log, k);
      assert LastDeleteOf(log + cs, k)
          == if k == s.key && s.DeleteRow? then Some(cs[|cs| - 1]) else LastDeleteOf(log, k);
    }
  }

  lemma StatementBounded(db: Db, s: Statement)
    requires Bounded(db) && (s.InsertRow? || s.UpsertRow? ==> s.row.ts <= db.lamport)
    ensures Bounded(Exec(db, s)) && Exec(db, s).gate == db.gate
  {
  }

  lemma StatementLogWithin(db: Db, s: Statement)
    ensures LogWithin(Captured(db, s), db.lamport, Exec(db, s).lamport)
  {
  }

  lemma LogWithinAppend(a: seq<Change>, b: seq<Change>, low: int, mid: int, high: int)
    requires LogWithin(a, low, mid) && LogWithin(b, mid, high)
    ensures LogWithin(a + b, low, high)
  {
    forall i, j | 0 <= i < j < |a + b|
      ensures (a + b)[i].ts < (a + b)[j].ts
    {
      if i < |a| <= j {
        assert a[i] in a && b[j - |a|] in b;
      }
    }
  }

  /** Over any run with the gate on: captured timestamps strictly increase from the starting clock, the
      clock bounds every timestamp, every row written carries its last entry's stamp and every delete's
      tombstone its entry's stamp. */
  lemma {:induction false} TriggerBookkeeping(db: Db, ss: seq<Statement>)
    requires GateOn(db) && Bounded(db)
    requires forall s :: s in ss && (s.InsertRow? || s.UpsertRow?) ==> s.row.ts <= db.lamport
    ensures Bounded(ExecAll(db, ss)) && ExecAll(db, ss).gate == db.gate
    ensures LogWithin(Log(db, ss), db.lamport, ExecAll(db, ss).lamport)
    ensures forall k :: RowBooked(db, ExecAll(db, ss), Log(db, ss), k)
  {
    if ss != [] {
      var front, s := ss[..|ss| - 1], ss[|ss| - 1];
      assert forall x :: x in front ==> x in ss;
      assert s in ss;
      TriggerBookkeeping(db, front);
      var mid := ExecAll(db, front);
      StatementBounded(mid, s);
      StatementLogWithin(mid, s);
      LogWithinAppend(Log(db, front), Captured(mid, s), db.lamport, mid.lamport, Exec(mid, s).lamport);
      forall k
        ensures RowBooked(db, ExecAll(db, ss), Log(db, ss), k)
      {
        StatementBooked(db, mid, Log(db, front), s, k);
      }
    }
  }

  /** With fresh ids nothing captured is lost: the outbox is the old one plus the log. */
  lemma {:induction false} OutboxIsLog(db: Db, ss: seq<Statement>, c: Change)
    requires GateOn(db) && c in Log(db, ss)
    requires forall d, e :: d in Log(db, ss) && e in Log(db, ss) && d.id == e.id ==> d == e
    ensures ExecAll(db, ss).gate == db.gate
    ensures c.id in ExecAll(db, ss).outbox && ExecAll(db, ss).outbox[c.id] == c
  {
    GateStays(db, ss);
    var front, s := ss[..|ss| - 1], ss[|ss| - 1];
    var mid := ExecAll(db, front);
    GateStays(db, front);
    var added := Captured(mid, s);
    assert forall d :: d in Log(db, front) ==> d in Log(db, ss);
    assert forall d :: d in added ==> d in Log(db, ss);
    if c in Log(db, front) {
      OutboxIsLog(db, front, c);
      assert forall i :: 0 <= i < |added| ==> added[i] in added && (added[i].id == c.id ==> added[i] == c);
    }
    ExecOutbox(mid, s, c);
  }

  lemma ExecOutbox(db: Db, s: Statement, c: Change)
    requires GateOn(db)
    requires forall d :: d in Captured(db, s) && d.id == c.id ==> d == c
    requires c in Captured(db, s) || (c.id in db.outbox && db.outbox[c.id] == c)
    ensures c.id in Exec(db, s).outbox && Exec(db, s).outbox[c.id] == c
  {
    var cs := Captured(db, s);
    assert |cs| > 0 ==> cs[0] in cs;
    assert |cs| > 1 ==> cs[1] in cs;
  }

  lemma {:induction false} GateStays(db: Db, ss: seq<Statement>)
    ensures ExecAll(db, ss).gate == db.gate
  {
    if ss != [] { GateStays(db, ss[..|ss| - 1]); }
  }

  /** An insert leaves two outbox entries, and neither carries the stamp the row ends with: payloads
      are captured before the stamping update. */
  lemma InsertLeavesTwoEntries(db: Db, k: Key, row: Row, id: ChangeId, stampId: ChangeId)
    requires GateOn(db) && Bounded(db) && k !in db.store.rows && id != stampId
    requires row.ts <= db.lamport
    ensures var after := Exec(db, InsertRow(k, row, id, stampId));
            && {id, stampId} <= after.outbox.Keys && k in after.store.rows
            && after.store.rows[k].ts == after.outbox[stampId].ts == after.outbox[id].ts + 1
            && after.outbox[id].data == Record(row)
            && after.outbox[stampId].data == Record(Row(row.cols, after.outbox[id].ts, db.gate))
            && after.outbox[stampId].data != Record(after.store.rows[k])
  {
  }
}
