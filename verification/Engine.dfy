/** The sync engine of one device: its in-memory clock and the in-place changes its operations make
    to the database. Every method is proved against the functions of `EngineSpec`. */
module Engine {
  import opened SyncTypes
  import opened Materializer
  import opened EngineSpec
  import opened Receipt
  import opened LocalDatabase
  import opened StateTransfer

  class SyncEngine {
    const db: Database
    const deviceId: DeviceId
    var clock: int

    ghost function State(): Replica
      reads this, db
    {
      Replica(deviceId, clock, db.Value())
    }

    /** The clock starts at the larger of the stored clock and the outbox maximum. */
    constructor (db: Database, deviceId: DeviceId)
      ensures this.db == db && IsStart(deviceId, db.Value(), State())
    {
      this.db, this.deviceId := db, deviceId;
      var m := OutboxMax(db.outbox);
      clock := Max(db.lamport, m);
    }

    method NextLamport() returns (ts: int)
      modifies this
      ensures ts == clock == old(clock) + 1
    {
      clock := clock + 1;
      ts := clock;
    }

    method MergeLamport(ts: int)
      modifies this, db
      ensures State() == Merge(old(State()), ts)
    {
      clock := Max(clock, ts + 1);
      db.lamport := Max(db.lamport, clock);
    }

    method PersistLamport()
      modifies db
      ensures State() == Persist(old(State()))
    {
      db.lamport := Max(db.lamport, clock);
    }

    method RecordLocalChange(id: ChangeId, table: TableName, row: RowId, op: SyncOp, data: Payload) returns (c: Change)
      modifies this, db
      ensures c == LocalChange(old(State()), id, table, row, op, data)
      ensures State() == RecordChange(old(State()), c)
    {
      var ts := NextLamport();
      c := Change(id, table, row, op, data, ts, deviceId);
      db.outbox := db.outbox[id := c];
    }

    // ---- Outbox ---------------------------------------------------------------------

    /** Entries of one table above `since`, ascending. Picking the least timestamp stands for ORDER BY. */
    method GetOutboxSince(table: TableName, since: int) returns (cs: seq<Change>)
      ensures IsOutboxSince(db.outbox, table, since, cs)
    {
      var todo := set id | id in db.outbox && db.outbox[id].table == table && db.outbox[id].ts > since :: db.outbox[id];
      ghost var all := todo;
      cs := [];
      while todo != {}
        invariant todo <= all && forall c :: c in cs <==> c in all && c !in todo
        invariant forall i, j :: 0 <= i < j < |cs| ==> cs[i] != cs[j] && cs[i].ts <= cs[j].ts
        invariant forall c, d :: c in cs && d in todo ==> c.ts <= d.ts
        decreases todo
      {
        LeastExists(todo);
        var c :| c in todo && IsLeast(todo, c);
        assert c !in cs;
        cs := cs + [c];
        todo := todo - {c};
      }
    }

    /** Of the own entries of each row the newest stays. */
    method CompactOutbox() returns (deleted: nat)
      modifies db
      ensures IsCompaction(deviceId, old(db.outbox), db.outbox)
      ensures State() == old(State()).(db := old(State()).db.(outbox := db.outbox))
      ensures deleted == |old(db.outbox)| - |db.outbox|
    {
      var best := NewestOwn(deviceId, db.outbox);
      var before := db.outbox;
      var after := map id | id in before && (before[id].dev != deviceId || best[before[id].RowKey()] == id) ::
          before[id];
      BestIsCompaction(deviceId, before, best, after);
      SubmapSize(before, after);
      db.outbox := after;
      deleted := |before| - |after|;
    }

    /** Compacts, then sends everything above the peer's cursors in chunks of 50. `accepts` is how many
        messages the transport takes before it fails. */
    method SyncToPeer(peer: DeviceId, accepts: nat) returns (sent: seq<seq<Change>>, ok: bool)
      modifies db
      ensures IsCompaction(deviceId, old(db.outbox), db.outbox)
      ensures State() == old(State()).(db := old(State()).db.(outbox := db.outbox))
      ensures exists all :: IsPending(State(), peer, all) && Transmitted(all, accepts, sent, ok)
      ensures forall i :: 0 <= i < |sent| ==> 1 <= |sent[i]| <= 50
      ensures forall i :: 0 <= i < |sent| - 1 ==> |sent[i]| == 50
    {
      var _ := CompactOutbox();
      var all := GatherPending(peer);
      var chunks := Chunks(all, SEND_CHUNK);
      ghost var compacted := db.Value();
      sent, ok := [], true;
      while |sent| < |chunks| && ok
        invariant |sent| <= |chunks| && sent == chunks[..|sent|]
        invariant db.Value() == compacted
        invariant if ok then |sent| <= accepts else |sent| == accepts < |chunks|
        decreases |chunks| - |sent|, ok
      {
        if |sent| == accepts {
          ok := false;
        } else {
          sent := sent + [chunks[|sent|]];
        }
      }
      ChunksFlatten(all, SEND_CHUNK);
      assert chunks[..|chunks|] == chunks && Transmitted(all, accepts, sent, ok);
      forall i | 0 <= i < |chunks|
        ensures 1 <= |chunks[i]| <= 50 && (i < |chunks| - 1 ==> |chunks[i]| == 50)
      {
        ChunkSizes(all, SEND_CHUNK, i);
      }
    }

    method GatherPending(peer: DeviceId) returns (all: seq<Change>)
      ensures IsPending(State(), peer, all)
    {
      var tables := set id | id in db.outbox :: db.outbox[id].table;
      ghost var done: set<TableName> := {};
      all := [];
      while tables != {}
        invariant done + tables == set id | id in db.outbox :: db.outbox[id].table
        invariant done !! tables && Ascending(all) && Distinct(all) && forall c :: c in all ==> c.table in done
        invariant forall c :: c in all <==> exists id :: id in db.outbox && db.outbox[id] == c && c.table in done
                                              && c.ts > Cursor(State(), peer, c.table)
        decreases tables
      {
        var t :| t in tables;
        var cursor := GetCursor(peer, t);
        var cs := GetOutboxSince(t, cursor);
        PendingExtend(State(), peer, all, done, t, cs);
        all := all + cs;
        tables, done := tables - {t}, done + {t};
      }
      assert forall id :: id in db.outbox ==> db.outbox[id].table in done;
    }

    method GetCursor(peer: DeviceId, table: TableName) returns (ts: int)
      ensures ts == Cursor(State(), peer, table)
    {
      var k := CursorKey(peer, table);
      ts := if k in db.cursors then db.cursors[k] else 0;
    }

    method UpdateCursor(peer: DeviceId, table: TableName, ts: int)
      modifies db
      ensures State() == SetCursor(old(State()), peer, table, ts)
    {
      db.cursors := db.cursors[CursorKey(peer, table) := ts];
    }

    // ---- Receiving ---------------------------------------------------------------------

    /** Applies a batch: per change, clock merge, conflict check, outbox entry, materialization with its
        triggers; then one cursor update per (origin device, table) pair of the batch. */
    method ApplyRemoteChanges(changes: seq<Change>, ids: seq<TriggerIds>) returns (applied: nat)
      requires |ids| == |changes|
      modifies this, db
      ensures State() == ReceiveFiring(old(State()), changes, ids)
      ensures applied == NotSkipped(old(State()), changes, ids)
    {
      applied := 0;
      for i := 0 to |changes|
        invariant State() == FireAll(old(State()), changes[..i], ids[..i])
        invariant applied == NotSkipped(old(State()), changes[..i], ids[..i])
      {
        var c := changes[i];
        assert changes[..i + 1][..i] == changes[..i] && ids[..i + 1][..i] == ids[..i];
        MergeLamport(c.ts);
        if !Dominated(deviceId, db.outbox, c) {
          db.outbox := db.outbox[c.id := c];
          var _ := Apply(db, c, ids[i]);
          applied := applied + 1;
        }
      }
      assert changes[..|changes|] == changes && ids[..|ids|] == ids;
      BumpAll(changes);
    }

    /** One cursor update per entry of the batch maximum map. */
    method BumpAll(changes: seq<Change>)
      modifies db
      ensures db.Value() == old(db.Value()).(cursors := BumpCursors(old(db.cursors), changes))
    {
      var high := HighWaterMarks(changes);
      var todo := high.Keys;
      ghost var value := db.Value();
      while todo != {}
        invariant todo <= high.Keys && value == old(db.Value())
        invariant db.Value() == value.(cursors := Overlay(value.cursors, high, high.Keys - todo))
        decreases todo
      {
        var k :| k in todo;
        OverlayStep(value.cursors, high, high.Keys - todo, k);
        assert high.Keys - (todo - {k}) == high.Keys - todo + {k};
        db.cursors := db.cursors[k := high[k]];
        todo := todo - {k};
      }
      assert high.Keys - todo == high.Keys;
      OverlayAll(value.cursors, high, changes);
    }

    /** Answers a cursor exchange, table by table, with what lies above the sender's cursors: one reply for each
        table that has anything. */
    method AnswerCursorExchange(cursors: map<TableName, int>) returns (replies: seq<seq<Change>>)
      ensures forall i :: 0 <= i < |replies| ==> IsReply(db.outbox, cursors, replies[i])
      ensures forall t :: t in cursors ==> AllAnswered(db.outbox, t, cursors[t], replies)
      ensures OnePerTable(replies)
    {
      var todo := cursors.Keys;
      ghost var done: set<TableName> := {};
      replies := [];
      while todo != {}
        invariant todo <= cursors.Keys
        invariant forall i :: 0 <= i < |replies| ==> IsReply(db.outbox, cursors, replies[i])
        invariant forall t :: t in cursors && t !in todo ==> AllAnswered(db.outbox, t, cursors[t], replies)
        invariant OnePerTable(replies) && AboutTables(replies, done) && done !! todo
        decreases todo
      {
        var t :| t in todo;
        todo := todo - {t};
        var cs := GetOutboxSince(t, cursors[t]);
        if cs != [] {
          AnsweredMore(replies, cs);
          OneMoreTable(replies, cs, done, t);
          replies := replies + [cs];
        }
        done := done + {t};
        assert AllAnswered(db.outbox, t, cursors[t], replies);
      }
    }

    method HandleAck(peer: DeviceId, id: ChangeId)
      modifies db
      ensures State() == AckFrom(old(State()), peer, id)
      ensures db.cursors == if id !in db.outbox then old(db.cursors)
                            else old(db.cursors)[CursorKey(peer, db.outbox[id].table) := db.outbox[id].ts]
    {
      if id in db.outbox {
        UpdateCursor(peer, db.outbox[id].table, db.outbox[id].ts);
      }
    }

    // ---- Known devices and pruning ---------------------------------------------------------

    /** Keeps exactly the listed devices other than this one. */
    method RefreshKnownDevices(devices: seq<DeviceId>)
      modifies db
      ensures State() == old(State()).(db := old(State()).db.(known := (set d | d in devices) - {deviceId}))
    {
      for i := 0 to |devices|
        invariant db.Value() == old(db.Value()).(known := old(db.known) + ((set d | d in devices[..i]) - {deviceId}))
      {
        assert devices[..i + 1] == devices[..i] + [devices[i]];
        if devices[i] != deviceId {
          db.known := db.known + {devices[i]};
        }
      }
      assert devices[..|devices|] == devices;
      var ids := (set d | d in devices) - {deviceId};
      db.known := if ids == {} then {} else db.known * ids;
    }

    /** Removes own entries every known device has, and reports how many. */
    method PruneDeliveredOutbox() returns (deleted: nat)
      modifies db
      ensures State() == Prune(old(State()))
      ensures forall id :: id in old(db.outbox) ==>
                (id !in db.outbox <==>
                 && old(db.outbox)[id].dev == deviceId && db.known != {}
                 && forall p :: p in db.known ==>
                      var k := CursorKey(p, old(db.outbox)[id].table);
                      k in db.cursors && db.cursors[k] >= old(db.outbox)[id].ts)
      ensures deleted == |old(db.outbox)| - |db.outbox|
    {
      if db.known == {} { return 0; }
      var before, value := db.outbox, Db(db.outbox, db.cursors, db.known, db.lamport, db.gate, Store(db.rows,
          db.tombs));
      var after := map id | id in before && !(before[id].dev == deviceId && Delivered(value, before[id])) :: before[id];
      SubmapSize(before, after);
      db.outbox := after;
      deleted := |before| - |after|;
    }

    // ---- State transfer -----------------------------------------------------------------------

    /** The highest stamp over the synced tables, at least 0. */
    method MaxLamportTs() returns (m: int)
      ensures IsMaxStamp(Store(db.rows, db.tombs), m)
    {
      m := 0;
      var todo := set k | k in db.rows && Synced(k.table);
      ghost var all := todo;
      while todo != {}
        invariant todo <= all && m >= 0
        invariant forall k :: k in all && k !in todo ==> db.rows[k].ts <= m
        invariant m == 0 || exists k :: k in db.rows && Synced(k.table) && db.rows[k].ts == m
        decreases todo
      {
        var k :| k in todo;
        todo := todo - {k};
        if db.rows[k].ts > m { m := db.rows[k].ts; }
      }
    }

    /** The rows for a peer's cursor, each once, in no particular order. */
    method GenerateDelta(cursor: int) returns (entries: seq<Entry>)
      ensures ListsOnce(entries, DeltaRows(Store(db.rows, db.tombs), cursor))
      ensures forall k, row :: Entry(k, row) in entries
                <==> k in db.rows && db.rows[k] == row && k.table in SYNCED_TABLES
                     && (cursor == 0 || row.ts > cursor || row.ts == 0)
    {
      entries := ListRows(DeltaRows(Store(db.rows, db.tombs), cursor));
      forall k, row
        ensures Entry(k, row) in entries
                <==> k in db.rows && db.rows[k] == row && k.table in SYNCED_TABLES
                     && (cursor == 0 || row.ts > cursor || row.ts == 0)
      {
        DeltaCarriesIff(Store(db.rows, db.tombs), cursor, entries, k, row);
      }
    }

    /** The receiving loop for a delta response. */
    method TakeDeltaResponse(entries: seq<Entry>, sender: DeviceId, ids: seq<TriggerIds>)
      requires |ids| == |entries|
      modifies db
      ensures db.Value() == TakeDelta(old(db.Value()), entries, sender, ids)
    {
      for i := 0 to |entries|
        invariant db.Value() == TakeDelta(old(db.Value()), entries[..i], sender, ids[..i])
      {
        assert entries[..i + 1][..i] == entries[..i] && ids[..i + 1][..i] == ids[..i];
        var _ := Apply(db, RowChange(entries[i], entries[i].row.ts, sender), ids[i]);
      }
      assert entries[..|entries|] == entries && ids[..|ids|] == ids;
    }

    /** The receiving loop for a snapshot chunk: every row with timestamp 0. */
    method TakeFullStateChunk(chunk: SnapshotChunk, sender: DeviceId, ids: seq<TriggerIds>)
      requires |ids| == |chunk.rows|
      modifies db
      ensures db.Value() == TakeSnapshotRows(old(db.Value()), chunk.rows, sender, ids)
    {
      for i := 0 to |chunk.rows|
        invariant db.Value() == TakeSnapshotRows(old(db.Value()), chunk.rows[..i], sender, ids[..i])
      {
        assert chunk.rows[..i + 1][..i] == chunk.rows[..i] && ids[..i + 1][..i] == ids[..i];
        var _ := Apply(db, RowChange(chunk.rows[i], 0, sender), ids[i]);
      }
      assert chunk.rows[..|chunk.rows|] == chunk.rows && ids[..|ids|] == ids;
    }

    /** All chunks of all synced tables; tables without rows contribute none. */
    method GenerateFullState(chunkSize: nat) returns (chunks: seq<SnapshotChunk>)
      requires chunkSize > 0
      ensures exists lists :: ListsTablesOnce(Store(db.rows, db.tombs), lists)
               && chunks == AllChunks(lists, chunkSize, |lists|)
    {
      var st := Store(db.rows, db.tombs);
      var lists: seq<seq<Entry>> := [];
      chunks := [];
      for i := 0 to |SYNCED_TABLES|
        invariant |lists| == i && chunks == AllChunks(lists, chunkSize, i)
        invariant forall j :: 0 <= j < i ==> ListsOnce(lists[j], RowsOf(st, SYNCED_TABLES[j]))
      {
        var rows := ListRows(RowsOf(st, SYNCED_TABLES[i]));
        var added := ChunkTable(SYNCED_TABLES[i], rows, chunkSize);
        AllChunksPrefix(lists, [rows], chunkSize, i);
        lists, chunks := lists + [rows], chunks + added;
      }
    }

    /** Cuts one table's rows into numbered chunks. */
    method ChunkTable(table: TableName, rows: seq<Entry>, chunkSize: nat) returns (chunks: seq<SnapshotChunk>)
      requires chunkSize > 0
      ensures chunks == TableChunks(table, rows, chunkSize)
    {
      chunks := [];
      if |rows| == 0 { return; }
      var total := (|rows| + chunkSize - 1) / chunkSize;
      var pieces := Chunks(rows, chunkSize);
      for i := 0 to |pieces|
        invariant chunks == TableChunks(table, rows, chunkSize)[..i]
      {
        chunks := chunks + [SnapshotChunk(table, pieces[i], i, total)];
      }
    }
  }

  /** Starting sync: device id into the triggers' gate, clock bootstrapped from the outbox, new engine. */
  method StartSync(db: Database, deviceId: DeviceId) returns (engine: SyncEngine)
    modifies db
    ensures fresh(engine) && engine.db == db
    ensures exists m :: IsOutboxMax(old(db.outbox), m)
              && engine.State() == Booted(Replica(deviceId, 0, old(db.Value())), m)
  {
    db.gate := deviceId;
    db.lamport := OutboxMax(db.outbox);
    engine := new SyncEngine(db, deviceId);
    OutboxMaxUnique(db.outbox, db.lamport);
  }

  lemma OutboxMaxUnique(outbox: map<ChangeId, Change>, m: int)
    requires IsOutboxMax(outbox, m)
    ensures forall n :: IsOutboxMax(outbox, n) ==> n == m
  {
  }

  /** Per row the newest own entry: `ROW_NUMBER() OVER (PARTITION BY ... ORDER BY lamport_ts DESC) = 1`. */
  method NewestOwn(me: DeviceId, outbox: map<ChangeId, Change>) returns (best: map<Key, ChangeId>)
    ensures forall k :: k in best ==> IsBest(me, outbox, {}, k, best[k])
    ensures forall id :: id in outbox && outbox[id].dev == me ==> outbox[id].RowKey() in best
  {
    best := map[];
    var todo := outbox.Keys;
    while todo != {}
      invariant todo <= outbox.Keys
      invariant forall k :: k in best ==> IsBest(me, outbox, todo, k, best[k])
      invariant forall id :: id in outbox && id !in todo && outbox[id].dev == me ==> outbox[id].RowKey() in best
      decreases todo
    {
      var id :| id in todo;
      var c := outbox[id];
      todo := todo - {id};
      if c.dev == me {
        if c.RowKey() !in best || c.ts > outbox[best[c.RowKey()]].ts {
          best := best[c.RowKey() := id];
        }
      }
    }
  }

  /** `SELECT COALESCE(MAX(lamport_ts), 0)` over the outbox. */
  method OutboxMax(outbox: map<ChangeId, Change>) returns (m: int)
    ensures IsOutboxMax(outbox, m)
  {
    if outbox == map[] { return 0; }
    var todo := outbox.Keys;
    var first :| first in todo;
    m := outbox[first].ts;
    while todo != {}
      invariant todo <= outbox.Keys && exists id :: id in outbox && outbox[id].ts == m
      invariant forall id :: id in outbox && id !in todo ==> outbox[id].ts <= m
      decreases todo
    {
      var id :| id in todo;
      todo := todo - {id};
      if outbox[id].ts > m { m := outbox[id].ts; }
    }
  }

  /** The batch maximum per (origin device, table) pair, starting from 0. */
  method HighWaterMarks(changes: seq<Change>) returns (high: map<CursorKey, int>)
    ensures IsMarks(high, changes)
  {
    high := map[];
    for i := 0 to |changes|
      invariant IsMarks(high, changes[..i])
    {
      var k := CursorKey(changes[i].dev, changes[i].table);
      MarksSnoc(high, changes[..i], changes[i]);
      assert changes[..i + 1] == changes[..i] + [changes[i]];
      high := high[k := Max(if k in high then high[k] else 0, changes[i].ts)];
    }
    assert changes[..|changes|] == changes;
  }

  ghost predicate IsMarks(high: map<CursorKey, int>, cs: seq<Change>) {
    high.Keys == CursorKeys(cs) && forall k :: k in high ==> high[k] == HighWater(cs, k)
  }

  lemma MarksSnoc(high: map<CursorKey, int>, cs: seq<Change>, c: Change)
    requires IsMarks(high, cs)
    ensures var k := CursorKey(c.dev, c.table);
            IsMarks(high[k := Max(if k in high then high[k] else 0, c.ts)], cs + [c])
  {
    var k := CursorKey(c.dev, c.table);
    var high' := high[k := Max(if k in high then high[k] else 0, c.ts)];
    HighWaterAbsent(cs, k);
    CursorKeysSnoc(cs, c);
    forall j | j in high'
      ensures high'[j] == HighWater(cs + [c], j)
    {
      HighWaterSnoc(cs, c, j);
    }
  }

  lemma HighWaterSnoc(cs: seq<Change>, c: Change, j: CursorKey)
    ensures HighWater(cs + [c], j) ==
            if j == CursorKey(c.dev, c.table) then Max(HighWater(cs, j), c.ts) else HighWater(cs, j)
  {
    assert (cs + [c])[..|cs|] == cs;
  }

  lemma CursorKeysSnoc(cs: seq<Change>, c: Change)
    ensures CursorKeys(cs + [c]) == CursorKeys(cs) + {CursorKey(c.dev, c.table)}
  {
  }

  /** The cursors with the marks `done` written over them. */
  ghost function Overlay(cursors: map<CursorKey, int>, high: map<CursorKey, int>,
                         done: set<CursorKey>): map<CursorKey, int>
    requires done <= high.Keys
  {
    map k | k in cursors.Keys + done :: if k in done then high[k] else cursors[k]
  }

  lemma OverlayStep(cursors: map<CursorKey, int>, high: map<CursorKey, int>, done: set<CursorKey>, k: CursorKey)
    requires done <= high.Keys && k in high
    ensures Overlay(cursors, high, done)[k := high[k]] == Overlay(cursors, high, done + {k})
  {
  }

  lemma OverlayAll(cursors: map<CursorKey, int>, high: map<CursorKey, int>, changes: seq<Change>)
    requires IsMarks(high, changes)
    ensures Overlay(cursors, high, high.Keys) == BumpCursors(cursors, changes)
  {
  }

  /** SELECT without ORDER BY: every row once, in some order. */
  method ListRows(m: map<Key, Row>) returns (entries: seq<Entry>)
    ensures ListsOnce(entries, m)
  {
    var todo := m.Keys;
    entries := [];
    while todo != {}
      invariant todo <= m.Keys && |entries| + |todo| == |m.Keys|
      invariant forall e :: e in entries ==> e.key in m && m[e.key] == e.row
      invariant forall k :: k in m && k !in todo ==> Entry(k, m[k]) in entries
      decreases todo
    {
      var k :| k in todo;
      todo := todo - {k};
      entries := entries + [Entry(k, m[k])];
    }
  }

  /** A non-empty reply to a cursor exchange: for one of its tables, the outbox above the given cursor. */
  ghost predicate IsReply(outbox: map<ChangeId, Change>, cursors: map<TableName, int>, cs: seq<Change>) {
    cs != [] && exists t :: t in cursors && IsOutboxSince(outbox, t, cursors[t], cs)
  }

  /** No two replies are about the same table. */
  ghost predicate OnePerTable(replies: seq<seq<Change>>) {
    forall i, j, c, e :: 0 <= i < j < |replies| && c in replies[i] && e in replies[j] ==> c.table != e.table
  }

  ghost predicate AboutTables(replies: seq<seq<Change>>, tables: set<TableName>) {
    forall i, c :: 0 <= i < |replies| && c in replies[i] ==> c.table in tables
  }

  lemma OneMoreTable(replies: seq<seq<Change>>, cs: seq<Change>, tables: set<TableName>, t: TableName)
    requires OnePerTable(replies) && AboutTables(replies, tables)
    requires t !in tables && forall c :: c in cs ==> c.table == t
    ensures OnePerTable(replies + [cs]) && AboutTables(replies + [cs], tables + {t})
  {
  }

  ghost predicate Answered(replies: seq<seq<Change>>, c: Change) { exists i :: 0 <= i < |replies| && c in replies[i] }

  /** Every entry of table `t` above `since` is in some reply. */
  ghost predicate AllAnswered(outbox: map<ChangeId, Change>, t: TableName, since: int, replies: seq<seq<Change>>) {
    forall id :: id in outbox && outbox[id].table == t && outbox[id].ts > since ==> Answered(replies, outbox[id])
  }

  lemma AnsweredMore(replies: seq<seq<Change>>, cs: seq<Change>)
    ensures forall c :: Answered(replies, c) || c in cs ==> Answered(replies + [cs], c)
  {
    forall c | Answered(replies, c) || c in cs
      ensures Answered(replies + [cs], c)
    {
      if Answered(replies, c) {
        var i :| 0 <= i < |replies| && c in replies[i];
        assert (replies + [cs])[i] == replies[i];
      } else {
        assert (replies + [cs])[|replies|] == cs;
      }
    }
  }

  predicate IsLeast(cs: set<Change>, c: Change) { forall d :: d in cs ==> c.ts <= d.ts }

  lemma {:induction false} LeastExists(cs: set<Change>)
    requires cs != {}
    ensures exists c :: c in cs && IsLeast(cs, c)
    decreases cs
  {
    var c :| c in cs;
    var rest := cs - {c};
    if rest != {} {
      LeastExists(rest);
      var d :| d in rest && IsLeast(rest, d);
      var least := if c.ts <= d.ts then c else d;
      assert cs == rest + {c};
      assert least in cs && IsLeast(cs, least);
    } else {
      assert cs == {c};
      assert IsLeast(cs, c);
    }
  }

  /** `id` is the newest own entry of row `k` among those already visited. */
  predicate IsBest(me: DeviceId, outbox: map<ChangeId, Change>, todo: set<ChangeId>, k: Key, id: ChangeId) {
    && id in outbox && id !in todo && outbox[id].dev == me && outbox[id].RowKey() == k
    && forall j :: j in outbox && j !in todo && outbox[j].dev == me && outbox[j].RowKey() == k ==>
         outbox[j].ts <= outbox[id].ts
  }

  lemma BestIsCompaction(me: DeviceId, before: map<ChangeId, Change>, best: map<Key, ChangeId>, after: map<ChangeId,
                         Change>)
    requires forall k :: k in best ==> IsBest(me, before, {}, k, best[k])
    requires forall id :: id in before && before[id].dev == me ==> before[id].RowKey() in best
    requires after == map id | id in before && (before[id].dev != me || best[before[id].RowKey()] == id) :: before[id]
    ensures IsCompaction(me, before, after)
  {
    forall id | id in before && before[id].dev == me
      ensures exists w :: KeptFor(me, after, before[id], w)
    {
      var w := best[before[id].RowKey()];
      assert IsBest(me, before, {}, before[id].RowKey(), w);
      assert KeptFor(me, after, before[id], w);
    }
  }

  lemma SubmapSize(before: map<ChangeId, Change>, after: map<ChangeId, Change>)
    requires after.Keys <= before.Keys
    ensures |after| <= |before|
  {
    SubsetSize(after.Keys, before.Keys);
  }

  lemma {:induction false} SubsetSize(a: set<ChangeId>, b: set<ChangeId>)
    requires a <= b
    ensures |a| <= |b|
    decreases a
  {
    if a != {} {
      var x :| x in a;
      SubsetSize(a - {x}, b - {x});
    }
  }

  lemma PendingExtend(r: Replica, peer: DeviceId, all: seq<Change>, done: set<TableName>, t: TableName, cs: seq<Change>)
    requires t !in done && Ascending(all) && Distinct(all) && IsOutboxSince(r.db.outbox, t, Cursor(r, peer, t), cs)
    requires forall c :: c in all ==> c.table in done
    requires forall c :: c in all <==> exists id :: id in r.db.outbox && r.db.outbox[id] == c && c.table in done
                                         && c.ts > Cursor(r, peer, c.table)
    ensures Ascending(all + cs) && Distinct(all + cs)
    ensures forall c :: c in all + cs <==>
              exists id :: id in r.db.outbox && r.db.outbox[id] == c && c.table in done + {t}
                           && c.ts > Cursor(r, peer, c.table)
  {
    assert forall i :: 0 <= i < |all| ==> all[i] in all && all[i].table != t;
    assert forall j :: 0 <= j < |cs| ==> cs[j] in cs && cs[j].table == t;
  }

  /** A cursor key no change of the batch has contributes nothing. */
  lemma {:induction false} HighWaterAbsent(cs: seq<Change>, k: CursorKey)
    ensures k !in CursorKeys(cs) ==> HighWater(cs, k) == 0
  {
    if cs != [] {
      assert cs == cs[..|cs| - 1] + [cs[|cs| - 1]];
      HighWaterAbsent(cs[..|cs| - 1], k);
    }
  }

  lemma {:induction false} AllChunksPrefix(lists: seq<seq<Entry>>, more: seq<seq<Entry>>, n: nat, i: nat)
    requires n > 0 && i <= |lists| && i <= |SYNCED_TABLES|
    ensures AllChunks(lists + more, n, i) == AllChunks(lists, n, i)
  {
    if i > 0 { AllChunksPrefix(lists, more, n, i - 1); }
  }
}
