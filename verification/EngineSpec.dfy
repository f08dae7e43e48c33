/** Specification functions of the sync engine: the state of one device and what each engine
    operation makes of it. The engine class is proved against these; the run-level theorems
    are about them. */
module EngineSpec {
  import opened SyncTypes
  import opened Materializer

  /** The sync tables of one device's database. */
  datatype Db = Db(outbox: map<ChangeId, Change>, cursors: map<CursorKey, int>, known: set<DeviceId>,
                   lamport: int, gate: DeviceId, store: Store)

  /** One device: its id, its in-memory clock and its database. */
  datatype Replica = Replica(me: DeviceId, clock: int, db: Db)

  function Max(a: int, b: int): int { if a >= b then a else b }

  // ---- Clock -----------------------------------------------------------------------

  /** `merge_lamport`: the clock and the stored clock move past a received timestamp. */
  function Merge(r: Replica, ts: int): Replica {
    var merged := Max(r.clock, ts + 1);
    r.(clock := merged, db := r.db.(lamport := Max(r.db.lamport, merged)))
  }

  /** `persist_lamport`. */
  function Persist(r: Replica): Replica {
    r.(db := r.db.(lamport := Max(r.db.lamport, r.clock)))
  }

  /** `COALESCE(MAX(lamport_ts), 0)` over the outbox, stated by its two properties. */
  ghost predicate IsOutboxMax(outbox: map<ChangeId, Change>, m: int) {
    if outbox == map[] then m == 0
    else (exists id :: id in outbox && outbox[id].ts == m) && forall id :: id in outbox ==> outbox[id].ts <= m
  }

  /** `SyncEngine::new` on a database: the clock is the larger of the stored clock and the outbox maximum. */
  ghost predicate IsStart(me: DeviceId, db: Db, r: Replica) {
    r.me == me && r.db == db && exists m :: IsOutboxMax(db.outbox, m) && r.clock == Max(db.lamport, m)
  }

  /** A new engine's clock is past nothing it knows of and behind nothing: the largest of the stored clock and the
      outbox timestamps. */
  lemma StartClock(me: DeviceId, db: Db, r: Replica)
    requires IsStart(me, db, r) && db.lamport >= 0
    ensures r.clock >= db.lamport && forall id :: id in db.outbox ==> r.clock >= db.outbox[id].ts
    ensures r.clock == db.lamport || exists id :: id in db.outbox && db.outbox[id].ts == r.clock
  {
  }

  /** `bootstrap_lamport_clock`: the stored clock becomes the outbox maximum, whatever it was. */
  function Bootstrap(db: Db, outboxMax: int): Db {
    db.(lamport := outboxMax)
  }

  /** Starting sync: the triggers get the device id, the stored clock is bootstrapped, and the new engine
      reads it. `m` is the outbox maximum. */
  function Booted(r: Replica, m: int): Replica {
    Replica(r.me, m, Bootstrap(r.db, m).(gate := r.me))
  }

  /** A clean stop before it makes no difference: what `persist_lamport` stored is overwritten. */
  lemma BootedIsStart(r: Replica, m: int)
    requires IsOutboxMax(r.db.outbox, m)
    ensures IsStart(r.me, Bootstrap(Persist(r).db.(gate := r.me), m), Booted(r, m))
  {
  }

  // ---- Local change ------------------------------------------------------------------

  function LocalChange(r: Replica, id: ChangeId, table: TableName, row: RowId, op: SyncOp, data: Payload): Change {
    Change(id, table, row, op, data, r.clock + 1, r.me)
  }

  /** `record_change`: tick the clock and put the stamped change into the outbox. */
  function RecordChange(r: Replica, c: Change): Replica {
    r.(clock := r.clock + 1, db := r.db.(outbox := r.db.outbox[c.id := c]))
  }

  /** Which clock stamps local changes: the engine's in-memory clock or the triggers' stored clock. */
  datatype WritePath = ViaEngine | ViaTriggers

  function LocalClock(r: Replica, path: WritePath): int {
    if path.ViaEngine? then r.clock else r.db.lamport
  }

  /** A local change recorded through `record_change`, or captured by the triggers. */
  function Recorded(r: Replica, path: WritePath, c: Change): Replica {
    if path.ViaEngine? then RecordChange(r, c)
    else r.(db := r.db.(outbox := r.db.outbox[c.id := c], lamport := r.db.lamport + 1))
  }

  // ---- Compaction, cursors, sending ------------------------------------------------------

  /** Entry `b` is an own entry for the same row as own entry `a`. */
  predicate SameOwnRow(me: DeviceId, a: Change, b: Change) {
    a.dev == me && b.dev == me && a.RowKey() == b.RowKey()
  }

  /** `compact_outbox`: of the own entries of each row exactly one stays, one with the largest
      timestamp (SQL picks freely among equals); entries of other devices stay. */
  ghost predicate IsCompaction(me: DeviceId, before: map<ChangeId, Change>, after: map<ChangeId, Change>) {
    && (forall id :: id in after ==> id in before && after[id] == before[id])
    && (forall id :: id in before && before[id].dev != me ==> id in after)
    && (forall id :: id in before && before[id].dev == me ==> exists w :: KeptFor(me, after, before[id], w))
    && (forall i, j :: i in after && j in after && SameOwnRow(me, after[i], after[j]) ==> i == j)
  }

  /** `w` is the surviving entry of the row of own entry `c`. */
  predicate KeptFor(me: DeviceId, after: map<ChangeId, Change>, c: Change, w: ChangeId) {
    w in after && SameOwnRow(me, c, after[w]) && after[w].ts >= c.ts
  }

  /** `get_cursor`. */
  function Cursor(r: Replica, peer: DeviceId, table: TableName): int {
    var k := CursorKey(peer, table);
    if k in r.db.cursors then r.db.cursors[k] else 0
  }

  /** `update_cursor`: overwrites, also with a smaller value. */
  function SetCursor(r: Replica, peer: DeviceId, table: TableName, ts: int): Replica {
    r.(db := r.db.(cursors := r.db.cursors[CursorKey(peer, table) := ts]))
  }

  /** Per table, ascending timestamps. */
  ghost predicate Ascending(cs: seq<Change>) {
    forall i, j :: 0 <= i < j < |cs| && cs[i].table == cs[j].table ==> cs[i].ts <= cs[j].ts
  }

  predicate Distinct(cs: seq<Change>) { forall i, j :: 0 <= i < j < |cs| ==> cs[i] != cs[j] }

  /** `get_outbox_since` for one table. */
  ghost predicate IsOutboxSince(outbox: map<ChangeId, Change>, table: TableName, since: int, cs: seq<Change>) {
    && Ascending(cs) && Distinct(cs)
    && (forall c :: c in cs <==> exists id :: id in outbox && outbox[id] == c && c.table == table && c.ts > since)
  }

  /** Everything above the peer's cursors, table after table. */
  ghost predicate IsPending(r: Replica, peer: DeviceId, cs: seq<Change>) {
    && Ascending(cs) && Distinct(cs)
    && (forall c :: c in cs <==>
          exists id :: id in r.db.outbox && r.db.outbox[id] == c && c.ts > Cursor(r, peer, c.table))
  }

  const SEND_CHUNK: nat := 50

  /** The messages of a flush of `all`: all its chunks, or, if the transport fails, the first `accepts`. */
  predicate Transmitted(all: seq<Change>, accepts: nat, sent: seq<seq<Change>>, ok: bool) {
    var chunks := Chunks(all, SEND_CHUNK);
    if ok then sent == chunks && Flatten(sent) == all else accepts < |chunks| && sent == chunks[..accepts]
  }

  // ---- Receiving -----------------------------------------------------------------------

  /** A local outbox entry of the same row is newer, or equally new and this device's id is greater
      than the sender's: the comparison uses the receiving device, not the entry's origin. */
  predicate Dominated(me: DeviceId, outbox: map<ChangeId, Change>, c: Change) {
    || (exists id :: id in outbox && outbox[id].RowKey() == c.RowKey() && outbox[id].ts > c.ts)
    || (Less(c.dev, me)
        && exists id :: id in outbox && outbox[id].RowKey() == c.RowKey() && outbox[id].ts == c.ts)
  }

  function ApplyOne(r: Replica, c: Change): (r': Replica)
    ensures r'.me == r.me && r'.clock == Max(r.clock, c.ts + 1) && r'.db.lamport == Max(r.db.lamport, r'.clock)
    ensures r'.db.cursors == r.db.cursors && r'.db.known == r.db.known && r'.db.gate == r.db.gate
  {
    var m := Merge(r, c.ts);
    if Dominated(m.me, m.db.outbox, c) then m
    else m.(db := m.db.(outbox := m.db.outbox[c.id := c], store := Materialize(m.db.store, c)))
  }

  function ApplyAll(r: Replica, cs: seq<Change>): (r': Replica)
    ensures r'.me == r.me && r'.clock >= r.clock && r'.db.lamport >= r.db.lamport
    ensures r'.db.cursors == r.db.cursors && r'.db.known == r.db.known && r'.db.gate == r.db.gate
  {
    if cs == [] then r else ApplyOne(ApplyAll(r, cs[..|cs| - 1]), cs[|cs| - 1])
  }

  /** The largest timestamp of the changes under cursor key `k`, at least 0. */
  function HighWater(cs: seq<Change>, k: CursorKey): (m: int)
    ensures m >= 0
    ensures forall c :: c in cs && CursorKey(c.dev, c.table) == k ==> c.ts <= m
    ensures m == 0 || exists c :: c in cs && CursorKey(c.dev, c.table) == k && c.ts == m
  {
    if cs == [] then 0
    else
      var c := cs[|cs| - 1];
      var rest := HighWater(cs[..|cs| - 1], k);
      assert cs == cs[..|cs| - 1] + [c];
      if CursorKey(c.dev, c.table) == k then Max(rest, c.ts) else rest
  }

  function CursorKeys(cs: seq<Change>): set<CursorKey> {
    set c | c in cs :: CursorKey(c.dev, c.table)
  }

  /** Each (origin device, table) seen in the batch gets its batch maximum, whatever it was before. */
  function BumpCursors(cursors: map<CursorKey, int>, cs: seq<Change>): map<CursorKey, int> {
    map k | k in cursors.Keys + CursorKeys(cs) :: if k in CursorKeys(cs) then HighWater(cs, k) else cursors[k]
  }

  /** `apply_remote_changes` where the triggers stay silent; `Receipt` has it with the triggers. */
  function Receive(r: Replica, cs: seq<Change>): Replica {
    var a := ApplyAll(r, cs);
    a.(db := a.db.(cursors := BumpCursors(a.db.cursors, cs)))
  }

  /** `handle_ack`: the cursor of the acknowledged entry's table is set to the entry's timestamp. */
  function AckFrom(r: Replica, peer: DeviceId, id: ChangeId): Replica {
    if id in r.db.outbox then SetCursor(r, peer, r.db.outbox[id].table, r.db.outbox[id].ts) else r
  }

  // ---- Pruning ---------------------------------------------------------------------------

  /** Every known device has a cursor row at or above the entry. */
  predicate Delivered(db: Db, c: Change) {
    forall p :: p in db.known ==>
      CursorKey(p, c.table) in db.cursors && db.cursors[CursorKey(p, c.table)] >= c.ts
  }

  /** `prune_delivered_outbox`: nothing without known devices, otherwise own delivered entries go. */
  function Prune(r: Replica): Replica {
    if r.db.known == {} then r
    else r.(db := r.db.(outbox :=
      map id | id in r.db.outbox && !(r.db.outbox[id].dev == r.me && Delivered(r.db, r.db.outbox[id]))
        :: r.db.outbox[id]))
  }

  /** An entry is pruned if and only if it is the device's own, some device is known, and every known device
      has a cursor row for its table at or above its timestamp. Nothing else changes. */
  lemma PrunedIff(r: Replica, id: ChangeId)
    requires id in r.db.outbox
    ensures var c, after := r.db.outbox[id], Prune(r);
            && (id !in after.db.outbox
                <==> c.dev == r.me && r.db.known != {}
                     && forall p :: p in r.db.known ==>
                          CursorKey(p, c.table) in r.db.cursors && r.db.cursors[CursorKey(p, c.table)] >= c.ts)
            && (id in after.db.outbox ==> after.db.outbox[id] == c)
            && after == r.(db := r.db.(outbox := after.db.outbox))
            && after.db.outbox.Keys <= r.db.outbox.Keys
  {
  }

  /** An acknowledged entry, whoever made it, puts the peer's cursor for its table at its timestamp, up or
      down; no other cursor moves, and an unknown id moves none. */
  lemma AckMovesCursor(r: Replica, peer: DeviceId, id: ChangeId, p: DeviceId, t: TableName)
    ensures Cursor(AckFrom(r, peer, id), p, t) ==
            if id in r.db.outbox && p == peer && t == r.db.outbox[id].table then r.db.outbox[id].ts
            else Cursor(r, p, t)
    ensures AckFrom(r, peer, id) == r.(db := r.db.(cursors := AckFrom(r, peer, id).db.cursors))
  {
  }

  /** What is left to send to a peer after its acknowledgement of a known entry: of the entry's table exactly
      what is newer, of every other table what there was. */
  lemma AckSettlesIff(r: Replica, peer: DeviceId, id: ChangeId, cs: seq<Change>, c: Change)
    requires id in r.db.outbox && IsPending(AckFrom(r, peer, id), peer, cs)
    ensures c in cs
            <==> c in r.db.outbox.Values
                 && if c.table == r.db.outbox[id].table then c.ts > r.db.outbox[id].ts
                    else c.ts > Cursor(r, peer, c.table)
  {
    AckMovesCursor(r, peer, id, peer, c.table);
    if c in r.db.outbox.Values { var i :| i in r.db.outbox && r.db.outbox[i] == c; }
  }

  // ---- Basic facts about receiving ----------------------------------------------------------

  /** Outbox entries survive a batch unless the batch carries a change of the same id. */
  lemma {:induction false} ApplyAllKeepsEntries(r: Replica, cs: seq<Change>, id: ChangeId)
    requires id in r.db.outbox && forall c :: c in cs && c.id == id ==> c == r.db.outbox[id]
    ensures id in ApplyAll(r, cs).db.outbox && ApplyAll(r, cs).db.outbox[id] == r.db.outbox[id]
  {
    if cs != [] {
      assert forall c :: c in cs[..|cs| - 1] ==> c in cs;
      ApplyAllKeepsEntries(r, cs[..|cs| - 1], id);
      assert cs[|cs| - 1] in cs;
    }
  }

  /** Every entry after a batch was there before or came with the batch. */
  lemma {:induction false} ApplyAllEntriesFrom(r: Replica, cs: seq<Change>, id: ChangeId)
    requires id in ApplyAll(r, cs).db.outbox
    ensures || (id in r.db.outbox && r.db.outbox[id] == ApplyAll(r, cs).db.outbox[id])
            || (ApplyAll(r, cs).db.outbox[id] in cs && ApplyAll(r, cs).db.outbox[id].id == id)
  {
    if cs != [] {
      var init := cs[..|cs| - 1];
      assert forall c :: c in init ==> c in cs;
      assert cs[|cs| - 1] in cs;
      if id in ApplyAll(r, init).db.outbox { ApplyAllEntriesFrom(r, init, id); }
    }
  }

  /** Some entry of the row of `c` is at least as new as `c`. */
  ghost predicate Holds(outbox: map<ChangeId, Change>, c: Change) {
    exists id :: id in outbox && outbox[id].RowKey() == c.RowKey() && outbox[id].ts >= c.ts
  }

  /** Applied or dominated, a received change leaves an entry at least as new in the outbox. */
  lemma {:induction false} ApplyAllHolds(r: Replica, cs: seq<Change>, c: Change)
    requires c in cs
    requires forall d, e :: d in cs && e in cs && d.id == e.id ==> d == e
    requires forall d :: d in cs && d.id in r.db.outbox ==> d == r.db.outbox[d.id]
    ensures Holds(ApplyAll(r, cs).db.outbox, c)
  {
    var init, last := cs[..|cs| - 1], cs[|cs| - 1];
    assert cs == init + [last];
    assert forall d :: d in init ==> d in cs;
    var mid := ApplyAll(r, init);
    if c in init {
      ApplyAllHolds(r, init, c);
      forall id | id in mid.db.outbox && id == last.id
        ensures mid.db.outbox[id] == last
      {
        ApplyAllEntriesFrom(r, init, id);
        assert last in cs;
      }
      ApplyOneKeepsHeld(mid, last, c);
    } else {
      ApplyOneHolds(mid, last);
    }
  }

  lemma ApplyOneKeepsHeld(r: Replica, last: Change, c: Change)
    requires Holds(r.db.outbox, c) && (last.id in r.db.outbox ==> r.db.outbox[last.id] == last)
    ensures Holds(ApplyOne(r, last).db.outbox, c)
  {
    var id :| id in r.db.outbox && r.db.outbox[id].RowKey() == c.RowKey() && r.db.outbox[id].ts >= c.ts;
    assert ApplyOne(r, last).db.outbox[id] == r.db.outbox[id];
  }

  lemma ApplyOneHolds(r: Replica, c: Change)
    ensures Holds(ApplyOne(r, c).db.outbox, c)
  {
    if !Dominated(r.me, r.db.outbox, c) { assert ApplyOne(r, c).db.outbox[c.id] == c; }
  }

  lemma HoldsOlder(outbox: map<ChangeId, Change>, e: Change, c: Change)
    requires Holds(outbox, e) && e.RowKey() == c.RowKey() && e.ts >= c.ts
    ensures Holds(outbox, c)
  {
    var id :| id in outbox && outbox[id].RowKey() == e.RowKey() && outbox[id].ts >= e.ts;
  }

  lemma HoldsKept(out: map<ChangeId, Change>, out': map<ChangeId, Change>, c: Change)
    requires Holds(out, c) && forall id :: id in out ==> id in out' && out'[id] == out[id]
    ensures Holds(out', c)
  {
    var id :| id in out && out[id].RowKey() == c.RowKey() && out[id].ts >= c.ts;
    assert id in out' && out'[id] == out[id];
  }

  lemma {:induction false} ApplyAllClock(r: Replica, cs: seq<Change>, c: Change)
    requires c in cs
    ensures ApplyAll(r, cs).clock >= c.ts + 1 && ApplyAll(r, cs).db.lamport >= c.ts + 1
  {
    if cs[|cs| - 1] != c {
      assert c in cs[..|cs| - 1];
      ApplyAllClock(r, cs[..|cs| - 1], c);
    }
  }

  // ---- Compaction keeps the meaning of the outbox ----------------------------------------------

  /** Own entries of one row never share a timestamp: each comes from its own clock tick. */
  ghost predicate DistinctOwn(me: DeviceId, outbox: map<ChangeId, Change>) {
    forall i, j ::
      i in outbox && j in outbox && SameOwnRow(me, outbox[i], outbox[j]) && outbox[i].ts == outbox[j].ts ==> i == j
  }

  /** The newest own entry of its row, the one that wins when the row's own entries are merged. */
  ghost predicate OwnWinner(me: DeviceId, outbox: map<ChangeId, Change>, id: ChangeId) {
    && id in outbox && outbox[id].dev == me
    && forall j :: j in outbox && SameOwnRow(me, outbox[id], outbox[j]) ==> outbox[j].ts <= outbox[id].ts
  }

  /** For every cursor, the winners above it are the same entries before and after. */
  lemma CompactionKeepsWinners(me: DeviceId, before: map<ChangeId, Change>, after: map<ChangeId, Change>,
                               id: ChangeId)
    requires IsCompaction(me, before, after) && DistinctOwn(me, before)
    ensures OwnWinner(me, before, id) <==> OwnWinner(me, after, id)
    ensures OwnWinner(me, before, id) ==> after[id] == before[id]
    ensures OwnWinner(me, before, id) <==> id in after && after[id].dev == me
  {
    if id in before && before[id].dev == me {
      var w :| KeptFor(me, after, before[id], w);
      assert SameOwnRow(me, before[id], before[w]);
      if id in after {
        forall j | j in before && SameOwnRow(me, before[id], before[j])
          ensures before[j].ts <= before[id].ts
        {
          var v :| KeptFor(me, after, before[j], v);
          assert SameOwnRow(me, after[id], after[v]);
        }
      }
    }
  }

  /** A row has an undelivered own change above a cursor before exactly when it has one after. */
  lemma CompactionKeepsUndelivered(me: DeviceId, before: map<ChangeId, Change>, after: map<ChangeId, Change>,
                                   k: Key, cursor: int)
    requires IsCompaction(me, before, after)
    ensures (exists id :: id in before && before[id].dev == me && before[id].RowKey() == k && before[id].ts > cursor)
       <==> (exists id :: id in after && after[id].dev == me && after[id].RowKey() == k && after[id].ts > cursor)
  {
    if i :| i in before && before[i].dev == me && before[i].RowKey() == k && before[i].ts > cursor {
      var w :| KeptFor(me, after, before[i], w);
      assert w in after && after[w].dev == me && after[w].RowKey() == k && after[w].ts > cursor;
    }
  }

  /** The result of a compaction is unique. */
  lemma CompactionUnique(me: DeviceId, before: map<ChangeId, Change>, a: map<ChangeId, Change>, b: map<ChangeId,
                         Change>)
    requires DistinctOwn(me, before)
    requires IsCompaction(me, before, a) && IsCompaction(me, before, b)
    ensures a == b
  {
    forall id
      ensures id in a <==> id in b
    {
      CompactionKeepsWinners(me, before, a, id);
      CompactionKeepsWinners(me, before, b, id);
    }
    assert a.Keys == b.Keys;
  }

  /** Compacting twice is compacting once. */
  lemma CompactionIdempotent(me: DeviceId, before: map<ChangeId, Change>, a: map<ChangeId, Change>, b: map<ChangeId,
                             Change>)
    requires IsCompaction(me, before, a) && IsCompaction(me, a, b)
    ensures a == b
  {
    forall id | id in a
      ensures id in b
    {
      if a[id].dev == me {
        var w :| KeptFor(me, b, a[id], w);
        assert SameOwnRow(me, a[id], a[w]);
      }
    }
    assert a.Keys == b.Keys;
  }
}
