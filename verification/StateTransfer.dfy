/** Catching a peer up from the tables instead of the outbox: delta responses and full snapshots, as the
    sender generates them and as the receiving loop applies them, triggers included. */
module StateTransfer {
  import opened SyncTypes
  import opened Materializer
  import opened EngineSpec
  import opened OutboxHook
  import opened Receipt

  /** A row as it travels: its key and its full record. */
  datatype Entry = Entry(key: Key, row: Row)

  /** The entries of `m`, in any order, each key once or more. */
  ghost predicate Lists(entries: seq<Entry>, m: map<Key, Row>) {
    && (forall e :: e in entries ==> e.key in m && m[e.key] == e.row)
    && (forall k :: k in m ==> Entry(k, m[k]) in entries)
  }

  /** The entries of `m`, in any order, each key once. */
  ghost predicate ListsOnce(entries: seq<Entry>, m: map<Key, Row>) { Lists(entries, m) && |entries| == |m| }

  /** The change a receiver makes of a row: always from the sending device, never from the row's own. */
  function RowChange(e: Entry, ts: int, sender: DeviceId): Change {
    Change("", e.key.table, e.key.row, Upsert, Record(e.row), ts, sender)
  }

  // ---- Delta ----------------------------------------------------------------------------

  /** A delta for `cursor` carries the row: everything for cursor 0, else newer or never-stamped rows. */
  predicate InDelta(row: Row, cursor: int) { cursor == 0 || row.ts > cursor || row.ts == 0 }

  function DeltaRows(st: Store, cursor: int): map<Key, Row> {
    map k | k in st.rows && Synced(k.table) && InDelta(st.rows[k], cursor) :: st.rows[k]
  }

  /** The receiving loop for a delta: every row through the materializer, and so through the triggers. */
  function TakeDelta(db: Db, entries: seq<Entry>, sender: DeviceId, ids: seq<TriggerIds>): (r: Db)
    requires |ids| == |entries|
    ensures r.store.tombs == db.store.tombs && r.gate == db.gate && r.lamport >= db.lamport
  {
    if entries == [] then db
    else
      var n := |entries| - 1;
      var mid := TakeDelta(db, entries[..n], sender, ids[..n]);
      var c := RowChange(entries[n], entries[n].row.ts, sender);
      FireUpsert(mid, c, ids[n]);
      Fire(mid, c, ids[n])
  }

  /** The store has the row at least as new, or knows it was deleted at least as late. */
  predicate AsNew(st: Store, k: Key, row: Row) {
    || (k in st.rows && st.rows[k].ts >= row.ts)
    || (k in st.tombs && st.tombs[k].ts >= row.ts)
  }

  /** At least as new, or the same to the application. */
  predicate UpToDate(st: Store, k: Key, row: Row) {
    AsNew(st, k, row) || (k in st.rows && st.rows[k].cols == row.cols)
  }

  /** Keys that are not in the delta keep their rows. */
  lemma {:induction false} DeltaLeavesOthers(db: Db, entries: seq<Entry>, sender: DeviceId, ids: seq<TriggerIds>,
                                             k: Key)
    requires |ids| == |entries| && forall e :: e in entries ==> e.key != k
    ensures k in TakeDelta(db, entries, sender, ids).store.rows <==> k in db.store.rows
    ensures k in db.store.rows ==> TakeDelta(db, entries, sender, ids).store.rows[k] == db.store.rows[k]
  {
    if entries != [] {
      var n := |entries| - 1;
      assert forall x :: x in entries[..n] ==> x in entries;
      DeltaLeavesOthers(db, entries[..n], sender, ids[..n], k);
      assert entries[n] in entries;
      FireUpsert(TakeDelta(db, entries[..n], sender, ids[..n]), RowChange(entries[n], entries[n].row.ts, sender),
          ids[n]);
    }
  }

  /** Timestamps of rows are within the clock that stamps them anew. */
  predicate RowsBounded(db: Db) { forall k :: k in db.store.rows ==> db.store.rows[k].ts <= db.lamport }

  /** No timestamp goes down and no row disappears; with the gate on, as long as the clock bounds the rows. */
  lemma {:induction false} DeltaNeverLowers(db: Db, entries: seq<Entry>, sender: DeviceId, ids: seq<TriggerIds>, k: Key)
    requires |ids| == |entries| && (GateOn(db) ==> RowsBounded(db))
    ensures var after := TakeDelta(db, entries, sender, ids);
            && (k in db.store.rows ==> k in after.store.rows && after.store.rows[k].ts >= db.store.rows[k].ts)
            && (GateOn(db) ==> RowsBounded(after))
  {
    if entries != [] {
      var n := |entries| - 1;
      var mid := TakeDelta(db, entries[..n], sender, ids[..n]);
      DeltaNeverLowers(db, entries[..n], sender, ids[..n], k);
      FireUpsert(mid, RowChange(entries[n], entries[n].row.ts, sender), ids[n]);
    }
  }

  lemma {:induction false} DeltaDelivers(db: Db, entries: seq<Entry>, sender: DeviceId, ids: seq<TriggerIds>, e: Entry)
    requires |ids| == |entries| && e in entries && Synced(e.key.table)
    requires forall x :: x in entries && x.key == e.key ==> x == e
    ensures UpToDate(TakeDelta(db, entries, sender, ids).store, e.key, e.row)
    ensures !GateOn(db) ==> AsNew(TakeDelta(db, entries, sender, ids).store, e.key, e.row)
  {
    var n := |entries| - 1;
    var last := entries[n];
    assert entries == entries[..n] + [last];
    if e in entries[..n] { DeltaDelivers(db, entries[..n], sender, ids[..n], e); }
    FireUpsert(TakeDelta(db, entries[..n], sender, ids[..n]), RowChange(last, last.row.ts, sender), ids[n]);
  }

  /** What a delta for `cursor` carries, by stamps: every synced row for cursor 0, otherwise the synced rows
      stamped above the cursor and the unstamped ones. */
  lemma DeltaCarriesIff(a: Store, cursor: int, entries: seq<Entry>, k: Key, row: Row)
    requires Lists(entries, DeltaRows(a, cursor))
    ensures Entry(k, row) in entries
            <==> k in a.rows && a.rows[k] == row && k.table in SYNCED_TABLES
                 && (cursor == 0 || row.ts > cursor || row.ts == 0)
  {
    if k in a.rows && Synced(k.table) && InDelta(a.rows[k], cursor) { assert k in DeltaRows(a, cursor); }
  }

  /** The delta closes the gap exactly when it was no gap: B ends up to date with A on every synced row if
      and only if it already was on the rows the cursor leaves out: for a cursor other than 0, those stamped
      at most the cursor and not 0. With the gate off "up to date" can be read in stamps alone. */
  lemma DeltaClosesGapIff(a: Store, b: Db, cursor: int, entries: seq<Entry>, sender: DeviceId, ids: seq<TriggerIds>)
    requires Lists(entries, DeltaRows(a, cursor)) && |ids| == |entries|
    ensures var after := TakeDelta(b, entries, sender, ids).store;
            && ((forall k :: k in a.rows && Synced(k.table) ==> UpToDate(after, k, a.rows[k]))
                <==> (forall k :: k in a.rows && Synced(k.table)
                                  && cursor != 0 && a.rows[k].ts <= cursor && a.rows[k].ts != 0
                                  ==> UpToDate(b.store, k, a.rows[k])))
            && (!GateOn(b) ==>
                  ((forall k :: k in a.rows && Synced(k.table) ==> AsNew(after, k, a.rows[k]))
                   <==> (forall k :: k in a.rows && Synced(k.table)
                                     && cursor != 0 && a.rows[k].ts <= cursor && a.rows[k].ts != 0
                                     ==> AsNew(b.store, k, a.rows[k]))))
  {
    var after := TakeDelta(b, entries, sender, ids).store;
    forall k | k in a.rows && Synced(k.table)
      ensures InDelta(a.rows[k], cursor) ==>
                UpToDate(after, k, a.rows[k]) && (!GateOn(b) ==> AsNew(after, k, a.rows[k]))
      ensures !InDelta(a.rows[k], cursor) ==>
                && (UpToDate(after, k, a.rows[k]) <==> UpToDate(b.store, k, a.rows[k]))
                && (AsNew(after, k, a.rows[k]) <==> AsNew(b.store, k, a.rows[k]))
    {
      if InDelta(a.rows[k], cursor) {
        assert k in DeltaRows(a, cursor);
        DeltaDelivers(b, entries, sender, ids, Entry(k, a.rows[k]));
      } else {
        assert forall e: Entry :: e in entries ==> e.key != k;
        DeltaLeavesOthers(b, entries, sender, ids, k);
      }
    }
  }

  /** With cursor 0 no hypothesis is needed. */
  lemma FirstDeltaIsComplete(a: Store, b: Db, entries: seq<Entry>, sender: DeviceId, ids: seq<TriggerIds>, k: Key)
    requires Lists(entries, DeltaRows(a, 0)) && |ids| == |entries| && k in a.rows && Synced(k.table)
    ensures UpToDate(TakeDelta(b, entries, sender, ids).store, k, a.rows[k])
    ensures !GateOn(b) ==> AsNew(TakeDelta(b, entries, sender, ids).store, k, a.rows[k])
  {
    DeltaClosesGapIff(a, b, 0, entries, sender, ids);
  }

  /** With the gate on a taken row is stamped by the receiver's own clock, which a delta does not move past
      the row: it ends at least as new exactly when it is not written or that clock has caught up. */
  lemma TakenRowAsNewIff(b: Db, e: Entry, sender: DeviceId, ids: TriggerIds)
    requires Synced(e.key.table)
    ensures AsNew(TakeDelta(b, [e], sender, [ids]).store, e.key, e.row)
            <==> !GateOn(b) || !Touches(b.store, RowChange(e, e.row.ts, sender))
                 || b.lamport + Ticks(b, e.key) >= e.row.ts
  {
    TakeOne(b, e, sender, ids);
    FireUpsert(b, RowChange(e, e.row.ts, sender), ids);
  }

  lemma TakeOne(b: Db, e: Entry, sender: DeviceId, ids: TriggerIds)
    ensures TakeDelta(b, [e], sender, [ids]) == Fire(b, RowChange(e, e.row.ts, sender), ids)
  {
    assert [e][..0] == [] && [ids][..0] == [];
    assert TakeDelta(b, [e][..0], sender, [ids][..0]) == b;
  }

  /** `max_lamport_ts` of a store: at least 0, at least every synced stamp, and one of them. */
  ghost predicate IsMaxStamp(st: Store, m: int) {
    && m >= 0
    && (forall k :: k in st.rows && Synced(k.table) ==> st.rows[k].ts <= m)
    && (m == 0 || exists k :: k in st.rows && Synced(k.table) && st.rows[k].ts == m)
  }

  /** The cursor peers actually send is their own largest stamp. It leaves a gap as soon as a device
      has a newer row of its own: here B never receives A's only row. */
  lemma OwnMaximumLeavesGap() returns (a: Store, b: Db, cursor: int, k: Key)
    ensures IsMaxStamp(b.store, cursor) && k in a.rows && Synced(k.table)
    ensures forall entries, sender, ids :: Lists(entries, DeltaRows(a, cursor)) && |ids| == |entries| ==>
              !UpToDate(TakeDelta(b, entries, sender, ids).store, k, a.rows[k])
  {
    k := Key("workspaces", "r");
    var own := Key("workspaces", "s");
    assert SYNCED_TABLES[5] == "workspaces";
    assert Synced("workspaces");
    a := Store(map[k := Row("x", 1, "a")], map[]);
    b := Db(map[], map[], {}, 2, "b", Store(map[own := Row("y", 2, "b")], map[]));
    cursor := 2;
    assert b.store.rows[own].ts == 2 && Synced(own.table);
    forall entries: seq<Entry>, sender, ids: seq<TriggerIds> | Lists(entries, DeltaRows(a, cursor))
        && |ids| == |entries|
      ensures !UpToDate(TakeDelta(b, entries, sender, ids).store, k, a.rows[k])
    {
      assert forall e: Entry :: e in entries ==> e.key != k;
      DeltaLeavesOthers(b, entries, sender, ids, k);
    }
  }

  /** A taken row lowers a stored stamp in two ways. With the gate off, on a tie: the receiver takes the
      sender's id for the row's, and the incoming row's device is smaller than the stored one while the
      sender's is not. With the gate on: the row is written, and the receiver's next tick is behind. */
  lemma DeltaLowersStampIff(b: Db, e: Entry, sender: DeviceId, ids: TriggerIds)
    requires e.key in b.store.rows && Synced(e.key.table)
    ensures var after := TakeDelta(b, [e], sender, [ids]);
            && e.key in after.store.rows
            && var old_, new_, c := b.store.rows[e.key], after.store.rows[e.key], RowChange(e, e.row.ts, sender);
            !StampLe(old_.ts, old_.dev, new_.ts, new_.dev)
            <==> Touches(b.store, c)
                 && if GateOn(b) then !StampLe(old_.ts, old_.dev, b.lamport + 1, b.gate)
                    else old_.ts == e.row.ts && Less(e.row.dev, old_.dev)
  {
    TakeOne(b, e, sender, ids);
    FireUpsert(b, RowChange(e, e.row.ts, sender), ids);
    LessIrreflexive(b.store.rows[e.key].dev);
  }

  /** An edit of a row just taken from a delta, with the gate on for the edit and set to `gate` while the row
      was taken. Taking it moved the clock by the ticks the triggers cost and no further, so the edit reaches
      the sender's table exactly when the tick after those is past the row's stamp (or ties with it and the
      editor's id is not smaller). Otherwise it stays at the receiver and the two devices differ. */
  lemma EditAfterDeltaReachesIff(a: Db, b: Db, gate: DeviceId, e: Entry, sender: DeviceId, cols: string,
                                 ids: TriggerIds, id: ChangeId, more: TriggerIds)
    requires Synced(e.key.table) && e.key in a.store.rows && a.store.rows[e.key] == e.row && e.key !in a.store.tombs
    requires GateOn(b) && cols != e.row.cols && Touches(b.store, RowChange(e, e.row.ts, sender))
    ensures var atReceipt := b.(gate := gate);
            var taken := TakeDelta(atReceipt, [e], sender, [ids]).(gate := b.gate);
            var edit := UpdateRow(e.key, cols, id);
            var tick := b.lamport + Ticks(atReceipt, e.key) + 1;
            && Captured(taken, edit) == [Change(id, e.key.table, e.key.row, Update,
                                                Record(taken.store.rows[e.key].(cols := cols)), tick, b.gate)]
            && Exec(taken, edit).store.rows[e.key].cols == cols
            && var sent := Fire(a, Captured(taken, edit)[0], more);
            && e.key in sent.store.rows
            && (sent.store.rows[e.key].cols == cols
                <==> tick > e.row.ts || (tick == e.row.ts && !Less(b.gate, e.row.dev)))
  {
    var atReceipt := b.(gate := gate);
    TakeOne(atReceipt, e, sender, ids);
    FireUpsert(atReceipt, RowChange(e, e.row.ts, sender), ids);
    var taken := TakeDelta(atReceipt, [e], sender, [ids]).(gate := b.gate);
    FireUpsert(a, Captured(taken, UpdateRow(e.key, cols, id))[0], more);
  }

  // ---- Snapshot ----------------------------------------------------------------------------

  /** A snapshot message: some rows of one table, its index and the number of chunks of the table. */
  datatype SnapshotChunk = SnapshotChunk(table: TableName, rows: seq<Entry>, index: nat, total: nat)

  /** The chunks of one table whose rows are listed in `rows`. */
  function TableChunks(table: TableName, rows: seq<Entry>, n: nat): seq<SnapshotChunk>
    requires n > 0
  {
    var pieces := Chunks(rows, n);
    seq(|pieces|, i requires 0 <= i < |pieces| => SnapshotChunk(table, pieces[i], i, (|rows| + n - 1) / n))
  }

  /** `lists[i]` is a listing of synced table `i`; tables without rows send nothing. */
  ghost predicate ListsTables(st: Store, lists: seq<seq<Entry>>) {
    |lists| == |SYNCED_TABLES| && forall i :: 0 <= i < |lists| ==> Lists(lists[i], RowsOf(st, SYNCED_TABLES[i]))
  }

  ghost predicate ListsTablesOnce(st: Store, lists: seq<seq<Entry>>) {
    |lists| == |SYNCED_TABLES| && forall i :: 0 <= i < |lists| ==> ListsOnce(lists[i], RowsOf(st, SYNCED_TABLES[i]))
  }

  function RowsOf(st: Store, table: TableName): map<Key, Row> {
    map k | k in st.rows && k.table == table :: st.rows[k]
  }

  /** All chunks of the first `i` tables, table after table. */
  function AllChunks(lists: seq<seq<Entry>>, n: nat, i: nat): seq<SnapshotChunk>
    requires n > 0 && i <= |lists| && i <= |SYNCED_TABLES|
  {
    if i == 0 then [] else AllChunks(lists, n, i - 1) + TableChunks(SYNCED_TABLES[i - 1], lists[i - 1], n)
  }

  /** The chunks come table after table, in the order of the synced tables. */
  lemma {:induction false} ChunksInOrder(lists: seq<seq<Entry>>, n: nat, i: nat, j: nat)
    requires n > 0 && i < j <= |lists| && j <= |SYNCED_TABLES|
    ensures AllChunks(lists, n, i) <= AllChunks(lists, n, i + 1) <= AllChunks(lists, n, j)
    ensures forall c :: c in AllChunks(lists, n, i + 1)[|AllChunks(lists, n, i)|..] ==> c.table == SYNCED_TABLES[i]
    decreases j
  {
    if i + 1 < j { ChunksInOrder(lists, n, i, j - 1); }
  }

  /** Chunk sizes are 1 to `n`, indices run from 0 to `total - 1`, and in index order the chunks are the rows. */
  lemma TableChunksPartition(table: TableName, rows: seq<Entry>, n: nat)
    requires n > 0
    ensures var cs := TableChunks(table, rows, n);
            && (forall i :: 0 <= i < |cs| ==> cs[i].index == i && cs[i].total == |cs| && 1 <= |cs[i].rows| <= n)
            && (forall i :: 0 <= i < |cs| - 1 ==> |cs[i].rows| == n)
            && Flatten(seq(|cs|, i requires 0 <= i < |cs| => cs[i].rows)) == rows
  {
    var cs := TableChunks(table, rows, n);
    ChunkCount(rows, n);
    ChunksFlatten(rows, n);
    assert seq(|cs|, i requires 0 <= i < |cs| => cs[i].rows) == Chunks(rows, n);
    forall i | 0 <= i < |cs|
      ensures 1 <= |cs[i].rows| <= n && (i < |cs| - 1 ==> |cs[i].rows| == n)
    {
      ChunkSizes(rows, n, i);
    }
  }

  /** The receiving loop for a chunk: every row through the materializer and the triggers, with timestamp 0. */
  function TakeSnapshotRows(db: Db, entries: seq<Entry>, sender: DeviceId, ids: seq<TriggerIds>): (r: Db)
    requires |ids| == |entries|
    ensures r.gate == db.gate
  {
    if entries == [] then db
    else
      var n := |entries| - 1;
      Fire(TakeSnapshotRows(db, entries[..n], sender, ids[..n]), RowChange(entries[n], 0, sender), ids[n])
  }

  /** Ids for the rows of each chunk. */
  predicate IdsFor(chunks: seq<SnapshotChunk>, ids: seq<seq<TriggerIds>>) {
    |ids| == |chunks| && forall i :: 0 <= i < |chunks| ==> |ids[i]| == |chunks[i].rows|
  }

  function TakeSnapshot(db: Db, chunks: seq<SnapshotChunk>, sender: DeviceId, ids: seq<seq<TriggerIds>>): (r: Db)
    requires IdsFor(chunks, ids)
    ensures r.gate == db.gate
  {
    if chunks == [] then db
    else
      var n := |chunks| - 1;
      TakeSnapshotRows(TakeSnapshot(db, chunks[..n], sender, ids[..n]), chunks[n].rows, sender, ids[n])
  }

  /** Every stored row is one of `m`'s, with the gate on restamped by this device, and nothing is deleted. */
  predicate PartOf(db: Db, m: map<Key, Row>) {
    && db.store.tombs == map[]
    && forall k :: k in db.store.rows ==>
         k in m && db.store.rows[k].cols == m[k].cols
         && (if GateOn(db) then db.store.rows[k].dev == db.gate else db.store.rows[k] == m[k])
  }

  lemma {:induction false} SnapshotRows(db: Db, entries: seq<Entry>, sender: DeviceId, ids: seq<TriggerIds>,
                                        m: map<Key, Row>)
    requires |ids| == |entries| && PartOf(db, m) && forall k :: k in m ==> Synced(k.table)
    requires forall e :: e in entries ==> e.key in m && m[e.key] == e.row
    ensures var after := TakeSnapshotRows(db, entries, sender, ids);
            && PartOf(after, m)
            && (forall k :: k in db.store.rows ==> k in after.store.rows)
            && (forall e :: e in entries ==> e.key in after.store.rows)
  {
    if entries != [] {
      var n := |entries| - 1;
      assert entries == entries[..n] + [entries[n]];
      assert forall e :: e in entries[..n] ==> e in entries;
      SnapshotRows(db, entries[..n], sender, ids[..n], m);
      assert entries[n] in entries;
      SnapshotRow(TakeSnapshotRows(db, entries[..n], sender, ids[..n]), entries[n], sender, ids[n], m);
    }
  }

  lemma SnapshotRow(db: Db, e: Entry, sender: DeviceId, ids: TriggerIds, m: map<Key, Row>)
    requires PartOf(db, m) && e.key in m && m[e.key] == e.row && Synced(e.key.table)
    ensures var after := Fire(db, RowChange(e, 0, sender), ids);
            PartOf(after, m) && e.key in after.store.rows && forall k :: k in db.store.rows ==> k in after.store.rows
  {
    FireUpsert(db, RowChange(e, 0, sender), ids);
  }

  lemma {:induction false} SnapshotChunks(db: Db, chunks: seq<SnapshotChunk>, sender: DeviceId,
                                          ids: seq<seq<TriggerIds>>,
                                          m: map<Key, Row>)
    requires IdsFor(chunks, ids) && PartOf(db, m) && forall k :: k in m ==> Synced(k.table)
    requires forall c, e :: c in chunks && e in c.rows ==> e.key in m && m[e.key] == e.row
    ensures PartOf(TakeSnapshot(db, chunks, sender, ids), m)
    ensures forall c, e :: c in chunks && e in c.rows ==> e.key in TakeSnapshot(db, chunks, sender, ids).store.rows
  {
    if chunks != [] {
      var n := |chunks| - 1;
      assert chunks == chunks[..n] + [chunks[n]];
      assert forall c :: c in chunks[..n] ==> c in chunks;
      SnapshotChunks(db, chunks[..n], sender, ids[..n], m);
      assert chunks[n] in chunks;
      SnapshotRows(TakeSnapshot(db, chunks[..n], sender, ids[..n]), chunks[n].rows, sender, ids[n], m);
    }
  }

  function SyncedRows(st: Store): map<Key, Row> {
    map k | k in st.rows && Synced(k.table) :: st.rows[k]
  }

  /** Chunks carry rows of the store only. */
  lemma {:induction false} ChunksSound(st: Store, lists: seq<seq<Entry>>, n: nat, i: nat, c: SnapshotChunk, e: Entry)
    requires n > 0 && ListsTables(st, lists) && i <= |lists| && c in AllChunks(lists, n, i) && e in c.rows
    ensures e.key in SyncedRows(st) && st.rows[e.key] == e.row
  {
    var table, rows := SYNCED_TABLES[i - 1], lists[i - 1];
    if c in TableChunks(table, rows, n) {
      ChunkSubset(table, rows, n, c, e);
      assert Lists(rows, RowsOf(st, table));
    } else {
      ChunksSound(st, lists, n, i - 1, c, e);
    }
  }

  /** Every row of the first `i` tables is in some chunk. */
  lemma {:induction false} ChunksComplete(st: Store, lists: seq<seq<Entry>>, n: nat, i: nat, j: nat, k: Key)
    returns (c: SnapshotChunk)
    requires n > 0 && ListsTables(st, lists) && j < i <= |lists| && k in st.rows && k.table == SYNCED_TABLES[j]
    ensures c in AllChunks(lists, n, i) && Entry(k, st.rows[k]) in c.rows
    decreases i
  {
    if j == i - 1 {
      assert Lists(lists[j], RowsOf(st, SYNCED_TABLES[j]));
      assert k in RowsOf(st, SYNCED_TABLES[j]);
      c := ChunkOf(SYNCED_TABLES[j], lists[j], n, Entry(k, st.rows[k]));
    } else {
      c := ChunksComplete(st, lists, n, i - 1, j, k);
    }
  }

  lemma ChunkSubset(table: TableName, rows: seq<Entry>, n: nat, c: SnapshotChunk, e: Entry)
    requires n > 0 && c in TableChunks(table, rows, n) && e in c.rows
    ensures e in rows
  {
    var i :| 0 <= i < |Chunks(rows, n)| && TableChunks(table, rows, n)[i] == c;
    ChunkAt(rows, n, i);
  }

  lemma ChunkOf(table: TableName, rows: seq<Entry>, n: nat, e: Entry) returns (c: SnapshotChunk)
    requires n > 0 && e in rows
    ensures c in TableChunks(table, rows, n) && e in c.rows
  {
    var j :| 0 <= j < |rows| && rows[j] == e;
    var i := PositionInChunk(rows, n, j);
    c := TableChunks(table, rows, n)[i];
  }

  /** Round trip: for every chunk size above 0, upserting all chunks of all tables, in any order and with any
      repetition, into a database with empty tables reproduces every synced table: its rows and their columns
      whatever the gate, the stamp columns too with the gate off, while with it on the rows are this device's. */
  lemma SnapshotRoundTrip(st: Store, lists: seq<seq<Entry>>, n: nat, empty: Db, delivered: seq<SnapshotChunk>,
                          sender: DeviceId, ids: seq<seq<TriggerIds>>)
    requires n > 0 && ListsTables(st, lists) && IdsFor(delivered, ids) && empty.store == Store(map[], map[])
    requires forall c :: c in delivered <==> c in AllChunks(lists, n, |lists|)
    ensures var out, m := TakeSnapshot(empty, delivered, sender, ids).store, SyncedRows(st);
            && out.tombs == map[] && out.rows.Keys == m.Keys
            && (forall k :: k in m ==> out.rows[k].cols == m[k].cols)
            && (if GateOn(empty) then forall k :: k in m ==> out.rows[k].dev == empty.gate else out.rows == m)
  {
    var m := SyncedRows(st);
    forall c, e | c in delivered && e in c.rows
      ensures e.key in m && m[e.key] == e.row
    {
      ChunksSound(st, lists, n, |lists|, c, e);
    }
    SnapshotChunks(empty, delivered, sender, ids, m);
    var out := TakeSnapshot(empty, delivered, sender, ids).store;
    forall k | k in m
      ensures k in out.rows
    {
      var j :| 0 <= j < |SYNCED_TABLES| && SYNCED_TABLES[j] == k.table;
      var c := ChunksComplete(st, lists, n, |lists|, j, k);
      assert c in delivered && Entry(k, st.rows[k]) in c.rows;
    }
    assert out.rows.Keys == m.Keys;
  }

  /** The receiving loop says snapshot rows are accepted unconditionally. They are not: a row with other
      columns than the stored one gets its columns in exactly when there is no tombstone stamped 0 or later
      and no stored row that is stamped above 0 or unstamped from a device greater than the sender. Its stamp
      columns come with it only if the gate is off. */
  lemma SnapshotRowAcceptedIff(b: Db, e: Entry, sender: DeviceId, ids: TriggerIds)
    requires Synced(e.key.table) && !(e.key in b.store.rows && b.store.rows[e.key].cols == e.row.cols)
    ensures var rows, st := TakeSnapshotRows(b, [e], sender, [ids]).store.rows, b.store;
            && ((e.key in rows && rows[e.key].cols == e.row.cols)
                <==> !HasTombstone(st, e.key, 0)
                     && !(e.key in st.rows && (st.rows[e.key].ts > 0
                                               || (st.rows[e.key].ts == 0 && Less(sender, st.rows[e.key].dev)))))
            && (e.key in rows && rows[e.key].cols == e.row.cols ==>
                  rows[e.key] == if GateOn(b) then Row(e.row.cols, b.lamport + Ticks(b, e.key), b.gate) else e.row)
  {
    assert [e][..0] == [] && [ids][..0] == [];
    assert TakeSnapshotRows(b, [e][..0], sender, [ids][..0]) == b;
    FireUpsert(b, RowChange(e, 0, sender), ids);
  }
}
