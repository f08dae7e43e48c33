/** The sync tables of one device's database as the code changes them in place, the materializer that
    writes remote changes into them, and local statements with their triggers. */
module LocalDatabase {
  import opened SyncTypes
  import opened Materializer
  import opened EngineSpec
  import opened OutboxHook
  import opened Receipt

  class Database {
    var outbox: map<ChangeId, Change>
    var cursors: map<CursorKey, int>
    var known: set<DeviceId>
    var lamport: int
    var gate: DeviceId
    var rows: map<Key, Row>
    var tombs: map<Key, Tombstone>

    ghost function Value(): Db
      reads this
    {
      Db(outbox, cursors, known, lamport, gate, Store(rows, tombs))
    }

    constructor (initial: Db)
      ensures Value() == initial
    {
      outbox, cursors, known := initial.outbox, initial.cursors, initial.known;
      lamport, gate := initial.lamport, initial.gate;
      rows, tombs := initial.store.rows, initial.store.tombs;
    }

    // ---- Local statements and triggers ------------------------------------------------

    method InsertStatement(k: Key, row: Row, ids: TriggerIds) returns (ok: bool)
      modifies this
      ensures Value() == Exec(old(Value()), InsertRow(k, row, ids.entry, ids.stamp))
      ensures ok == (k !in old(rows))
    {
      if k in rows { return false; }
      rows := rows[k := row];
      if gate != "local" { FireInsertTrigger(k, ids); }
      ok := true;
    }

    /** The insert trigger; its stamping update fires the update trigger. */
    method FireInsertTrigger(k: Key, ids: TriggerIds)
      requires k in rows
      modifies this
      ensures Value() == InsertTrigger(old(Value()), k, ids.entry, ids.stamp)
    {
      lamport := lamport + 1;
      outbox := outbox[ids.entry := Change(ids.entry, k.table, k.row, Insert, Record(rows[k]), lamport, gate)];
      rows := rows[k := Row(rows[k].cols, lamport, gate)];
      FireUpdateTrigger(k, ids.stamp);
    }

    /** The materializer's INSERT ... ON CONFLICT DO UPDATE: writes the whole row, and fires the triggers of an
        insert or of an update. */
    method UpsertStatement(k: Key, row: Row, ids: TriggerIds)
      modifies this
      ensures Value() == Exec(old(Value()), UpsertRow(k, row, ids.entry, ids.stamp))
    {
      var present := k in rows;
      rows := rows[k := row];
      if gate != "local" {
        if present { FireUpdateTrigger(k, ids.entry); } else { FireInsertTrigger(k, ids); }
      }
    }

    method UpdateStatement(k: Key, cols: string, id: ChangeId)
      modifies this
      ensures Value() == Exec(old(Value()), UpdateRow(k, cols, id))
    {
      if k in rows {
        rows := rows[k := rows[k].(cols := cols)];
        if gate != "local" { FireUpdateTrigger(k, id); }
      }
    }

    method FireUpdateTrigger(k: Key, id: ChangeId)
      requires k in rows
      modifies this
      ensures Value() == UpdateTrigger(old(Value()), k, id)
    {
      lamport := lamport + 1;
      outbox := outbox[id := Change(id, k.table, k.row, Update, Record(rows[k]), lamport, gate)];
      rows := rows[k := Row(rows[k].cols, lamport, gate)];
    }

    method DeleteStatement(k: Key, id: ChangeId)
      modifies this
      ensures Value() == Exec(old(Value()), DeleteRow(k, id))
    {
      if k in rows {
        rows := rows - {k};
        if gate != "local" {
          lamport := lamport + 1;
          outbox := outbox[id := Change(id, k.table, k.row, Delete, KeyOnly, lamport, gate)];
          tombs := tombs[k := Tombstone(lamport, gate)];
        }
      }
    }
  }

  // ---- Materializer ---------------------------------------------------------------------

  /** `ChangeMaterializer::apply`: tombstone check, then upsert or delete. What it writes fires the triggers. */
  method Apply(db: Database, c: Change, ids: TriggerIds) returns (ok: bool)
    modifies db
    ensures db.Value() == Fire(old(db.Value()), c, ids)
    ensures ok == !Fails(old(db.Value()).store, c)
  {
    if c.op != Delete {
      if c.RowKey() in db.tombs && db.tombs[c.RowKey()].ts >= c.ts { return true; }
    }
    if c.op == Delete {
      ok := ApplyDelete(db, c, ids);
    } else {
      ok := ApplyUpsert(db, c, ids);
    }
  }

  method ApplyUpsert(db: Database, c: Change, ids: TriggerIds) returns (ok: bool)
    requires !c.op.Delete? && !Hidden(db.Value().store, c)
    modifies db
    ensures db.Value() == Fire(old(db.Value()), c, ids)
    ensures ok == !Fails(old(db.Value()).store, c)
  {
    var k := c.RowKey();
    if c.data.NotObject? || c.data.EmptyObject? { return false; }
    if k in db.rows {
      if db.rows[k].ts > c.ts { return true; }
      if db.rows[k].ts == c.ts && Less(c.dev, db.rows[k].dev) { return true; }
    }
    if !Synced(c.table) { return false; }
    if c.data.Record? { db.UpsertStatement(k, c.data.full, ids); }
    ok := true;
  }

  method ApplyDelete(db: Database, c: Change, ids: TriggerIds) returns (ok: bool)
    requires c.op.Delete?
    modifies db
    ensures db.Value() == Fire(old(db.Value()), c, ids)
    ensures ok == !Fails(old(db.Value()).store, c)
    ensures ok <==> c.table in SYNCED_TABLES && c.table != "preferences"
    ensures c.RowKey() in db.rows <==> c.RowKey() in old(db.rows) && !ok
    ensures forall k :: k != c.RowKey() ==> (k in db.rows <==> k in old(db.rows))
  {
    if !KeyedById(c.table) { return false; }
    db.DeleteStatement(c.RowKey(), ids.entry);
    ok := true;
  }
}
