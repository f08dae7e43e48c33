/** Strong convergence with deletes: replicas that have seen the same changes, in any order, batching
    and duplication, interleaved with local writes and compaction, show the same tables. Receipts fire the
    triggers when the gate is on; what they capture counts as the replica's own writes. */
module Convergence {
  import opened SyncTypes
  import opened Materializer
  import opened EngineSpec
  import OutboxHook
  import opened Receipt

  datatype Action =
    | Write(c: Change)
    | Take(cs: seq<Change>, ids: seq<TriggerIds>, echoes: seq<Change>)
    | Switch(gate: DeviceId)
    | Compact(after: map<ChangeId, Change>)

  /** The application's own write: the row stamped with the change, or a tombstone in its place. */
  function LocalEffect(st: Store, c: Change): Store
    requires c.op.Delete? || c.data.Record?
  {
    if c.op.Delete? then Store(st.rows - {c.RowKey()}, st.tombs[c.RowKey() := Tombstone(c.ts, c.dev)])
    else st.(rows := st.rows[c.RowKey() := Row(c.data.full.cols, c.ts, c.dev)])
  }

  /** A local write: the change recorded and its effect on the tables. */
  function Written(r: Replica, path: WritePath, c: Change): Replica
    requires c.op.Delete? || c.data.Record?
  {
    var recorded := Recorded(r, path, c);
    recorded.(db := recorded.db.(store := LocalEffect(r.db.store, c)))
  }

  /** What a receipt captures is this device's own, stamped by the clock that stamps its writes. */
  predicate CapturesAsOwn(r: Replica, path: WritePath, echoes: seq<Change>) {
    echoes != [] ==> path.ViaTriggers? && r.db.gate == r.me
  }

  ghost predicate Acts(r: Replica, path: WritePath, a: Action, r': Replica) {
    match a
    case Write(c) =>
      (c.op.Delete? || c.data.Record?) && c.dev == r.me && c.ts == LocalClock(r, path) + 1 && r' == Written(r, path, c)
    case Take(cs, ids, echoes) =>
      && |ids| == |cs| && echoes == EchoAll(r, cs, ids) && CapturesAsOwn(r, path, echoes)
      && r' == ReceiveFiring(r, cs, ids)
    case Switch(gate) => r' == r.(db := r.db.(gate := gate))
    case Compact(after) =>
      IsCompaction(r.me, r.db.outbox, after) && r' == r.(db := r.db.(outbox := after))
  }

  /** A replica starts with an empty outbox and no tombstones; its tables need not be empty. */
  ghost predicate IsReplicaRun(rs: seq<Replica>, path: WritePath, acts: seq<Action>) {
    && |rs| == |acts| + 1
    && rs[0].db.outbox == map[] && rs[0].db.store.tombs == map[]
    && forall i :: 0 <= i < |acts| ==> Acts(rs[i], path, acts[i], rs[i + 1])
  }

  function ChangesOf(a: Action): set<Change> {
    match a
    case Write(c) => {c}
    case Take(cs, _, echoes) => Elements(cs) + Elements(echoes)
    case Switch(_) => {}
    case Compact(_) => {}
  }

  /** Every change a replica has written, taken or captured. */
  function Seen(acts: seq<Action>): set<Change> {
    if acts == [] then {} else Seen(acts[..|acts| - 1]) + ChangesOf(acts[|acts| - 1])
  }

  // ---- The regime -----------------------------------------------------------------------------

  /** The payload is a full record stamped no later than the change; if equally, by the same device. */
  predicate GoodChange(c: Change) {
    && Synced(c.table)
    && (c.op.Delete? ==> KeyedById(c.table))
    && (!c.op.Delete? ==>
          c.data.Record? && (c.data.full.ts < c.ts || (c.data.full.ts == c.ts && c.data.full.dev == c.dev)))
  }

  /** Changes to one row have distinct timestamps, ids identify changes, and the initial rows are older. */
  ghost predicate GoodUniverse(u: set<Change>, init: Store) {
    && (forall c :: c in u ==> GoodChange(c))
    && (forall c, d :: c in u && d in u && c.RowKey() == d.RowKey() && c.ts == d.ts ==> c == d)
    && (forall c, d :: c in u && d in u && c.id == d.id ==> c == d)
    && (forall c :: c in u && c.RowKey() in init.rows ==> init.rows[c.RowKey()].ts < c.ts)
  }

  // ---- What a replica shows ---------------------------------------------------------------------

  /** The change with the highest timestamp among those to row `k`. */
  ghost predicate IsTop(seen: set<Change>, k: Key, m: Change) {
    m in seen && m.RowKey() == k && forall c :: c in seen && c.RowKey() == k ==> c.ts <= m.ts
  }

  /** The row is the effect of change `m`: gone, or its record, as carried or stamped with `m`'s own stamp. */
  predicate Shows(st: Store, k: Key, m: Change) {
    if m.op.Delete? then k !in st.rows
    else
      m.data.Record? && k in st.rows
      && (st.rows[k] == m.data.full || st.rows[k] == Row(m.data.full.cols, m.ts, m.dev))
  }

  predicate Untouched(seen: set<Change>, k: Key) { forall c :: c in seen ==> c.RowKey() != k }

  lemma {:induction false} TopExists(seen: set<Change>, k: Key) returns (m: Change)
    requires !Untouched(seen, k)
    ensures IsTop(seen, k, m)
    decreases seen
  {
    m :| m in seen && m.RowKey() == k;
    var rest := seen - {m};
    if !Untouched(rest, k) {
      var n := TopExists(rest, k);
      assert seen == rest + {m};
      if n.ts > m.ts { m := n; }
    }
  }

  ghost predicate RowOk(st: Store, init: Store, seen: set<Change>, k: Key) {
    if Untouched(seen, k) then (k in st.rows <==> k in init.rows) && (k in st.rows ==> st.rows[k] == init.rows[k])
    else forall m :: IsTop(seen, k, m) ==> Shows(st, k, m)
  }

  ghost predicate TombOk(st: Store, seen: set<Change>, k: Key) {
    k in st.tombs ==> exists d :: d in seen && d.op.Delete? && d.RowKey() == k && d.ts == st.tombs[k].ts
  }

  ghost predicate OutboxOk(outbox: map<ChangeId, Change>, seen: set<Change>) {
    EntriesFrom(outbox, seen) && HoldsAll(outbox, seen)
  }

  predicate EntriesFrom(outbox: map<ChangeId, Change>, seen: set<Change>) {
    forall id :: id in outbox ==> outbox[id] in seen && outbox[id].id == id
  }

  ghost predicate HoldsAll(outbox: map<ChangeId, Change>, seen: set<Change>) {
    forall c {:trigger Holds(outbox, c)} :: c in seen ==> Holds(outbox, c)
  }

  ghost predicate Inv(r: Replica, path: WritePath, init: Store, seen: set<Change>) {
    && OutboxOk(r.db.outbox, seen)
    && ClockOk(LocalClock(r, path), seen)
    && RowsOk(r.db.store, init, seen)
    && TombsOk(r.db.store, seen)
  }

  predicate ClockOk(clock: int, seen: set<Change>) { forall c :: c in seen ==> c.ts <= clock }

  ghost predicate RowsOk(st: Store, init: Store, seen: set<Change>) { forall k :: RowOk(st, init, seen, k) }

  ghost predicate TombsOk(st: Store, seen: set<Change>) { forall k :: TombOk(st, seen, k) }

  // ---- One change -----------------------------------------------------------------------------

  lemma DominatedIsOlder(r: Replica, init: Store, u: set<Change>, seen: set<Change>, c: Change)
    requires GoodUniverse(u, init) && seen <= u && c in u && OutboxOk(r.db.outbox, seen)
    requires Dominated(r.me, r.db.outbox, c)
    ensures c in seen || exists e :: e in seen && e.RowKey() == c.RowKey() && e.ts > c.ts
  {
    if id :| id in r.db.outbox && r.db.outbox[id].RowKey() == c.RowKey() && r.db.outbox[id].ts > c.ts {
      assert r.db.outbox[id] in seen;
    } else {
      var id :| id in r.db.outbox && r.db.outbox[id].RowKey() == c.RowKey() && r.db.outbox[id].ts == c.ts;
      assert r.db.outbox[id] == c;
    }
  }

  lemma UndominatedIsTop(r: Replica, seen: set<Change>, c: Change)
    requires OutboxOk(r.db.outbox, seen) && !Dominated(r.me, r.db.outbox, c)
    ensures IsTop(seen + {c}, c.RowKey(), c)
  {
    forall d | d in seen && d.RowKey() == c.RowKey()
      ensures d.ts <= c.ts
    {
      assert Holds(r.db.outbox, d);
      var id :| id in r.db.outbox && r.db.outbox[id].RowKey() == d.RowKey() && r.db.outbox[id].ts >= d.ts;
    }
  }

  /** A change that is the newest to its row is not stopped by the materializer. */
  lemma TopIsMaterialized(st: Store, init: Store, u: set<Change>, seen: set<Change>, c: Change)
    requires GoodUniverse(u, init) && seen <= u && c in u && IsTop(seen + {c}, c.RowKey(), c)
    requires RowOk(st, init, seen, c.RowKey()) && TombOk(st, seen, c.RowKey())
    ensures Shows(Materialize(st, c), c.RowKey(), c)
  {
    var k := c.RowKey();
    if !c.op.Delete? {
      if k in st.tombs {
        var d :| d in seen && d.op.Delete? && d.RowKey() == k && d.ts == st.tombs[k].ts;
        assert d in seen + {c} && d.ts <= c.ts && d != c;
        assert d.ts != c.ts;
      }
      if k in st.rows { NotBeaten(st, init, u, seen, c); }
    }
  }

  lemma NotBeaten(st: Store, init: Store, u: set<Change>, seen: set<Change>, c: Change)
    requires GoodUniverse(u, init) && seen <= u && c in u && IsTop(seen + {c}, c.RowKey(), c)
    requires RowOk(st, init, seen, c.RowKey()) && c.RowKey() in st.rows
    ensures !Beats(st.rows[c.RowKey()], c)
  {
    var k := c.RowKey();
    LessIrreflexive(c.dev);
    if !Untouched(seen, k) {
      var m := TopExists(seen, k);
      assert m in seen + {c};
      assert Shows(st, k, m);
      assert m.ts == c.ts ==> m == c;
    }
  }

  /** Adding the newest change to its row: that row shows it, all other rows are as before. */
  lemma NewTopRows(st: Store, st': Store, init: Store, u: set<Change>, seen: set<Change>, c: Change)
    requires GoodUniverse(u, init) && seen <= u && c in u && IsTop(seen + {c}, c.RowKey(), c)
    requires RowsOk(st, init, seen)
    requires Shows(st', c.RowKey(), c)
    requires forall k :: k != c.RowKey() ==>
               (k in st'.rows <==> k in st.rows) && (k in st.rows ==> st'.rows[k] == st.rows[k])
    ensures RowsOk(st', init, seen + {c})
  {
    forall k
      ensures RowOk(st', init, seen + {c}, k)
    {
      assert RowOk(st, init, seen, k);
      if k == c.RowKey() {
        assert c in seen + {c};
        forall m | IsTop(seen + {c}, k, m)
          ensures m == c
        {
          assert m.ts <= c.ts && c.ts <= m.ts;
        }
      } else {
        OtherRow(st, st', init, seen, c, k);
      }
    }
  }

  lemma OtherRow(st: Store, st': Store, init: Store, seen: set<Change>, c: Change, k: Key)
    requires RowOk(st, init, seen, k) && k != c.RowKey()
    requires (k in st'.rows <==> k in st.rows) && (k in st.rows ==> st'.rows[k] == st.rows[k])
    ensures RowOk(st', init, seen + {c}, k)
  {
    if !Untouched(seen + {c}, k) {
      assert !Untouched(seen, k);
      forall m | IsTop(seen + {c}, k, m)
        ensures Shows(st', k, m)
      {
        assert forall d :: d in seen ==> d in seen + {c};
        assert IsTop(seen, k, m);
      }
    } else {
      assert Untouched(seen, k);
    }
  }

  /** An older or repeated change leaves every row's newest change as it was. */
  lemma OldChangeRows(st: Store, init: Store, seen: set<Change>, c: Change)
    requires RowsOk(st, init, seen)
    requires c in seen || exists e :: e in seen && e.RowKey() == c.RowKey() && e.ts > c.ts
    ensures RowsOk(st, init, seen + {c})
  {
    if c in seen {
      assert seen + {c} == seen;
    } else {
      var e :| e in seen && e.RowKey() == c.RowKey() && e.ts > c.ts;
      forall k
        ensures RowOk(st, init, seen + {c}, k)
      {
        assert RowOk(st, init, seen, k);
        if k != c.RowKey() {
          OtherRow(st, st, init, seen, c, k);
        } else {
          assert !Untouched(seen, k) && e in seen + {c};
          forall m | IsTop(seen + {c}, k, m)
            ensures IsTop(seen, k, m)
          {
            assert m.ts >= e.ts;
            assert forall d :: d in seen ==> d in seen + {c};
          }
          assert !Untouched(seen + {c}, k);
        }
      }
    }
  }

  lemma OutboxGrows(outbox: map<ChangeId, Change>, seen: set<Change>, c: Change)
    requires OutboxOk(outbox, seen) && forall d :: d in seen && d.id == c.id ==> d == c
    ensures OutboxOk(outbox[c.id := c], seen + {c})
  {
    var out := outbox[c.id := c];
    assert c.id in out && out[c.id] == c;
    assert Holds(out, c);
    assert forall id :: id in outbox ==> out[id] == outbox[id];
    forall d | d in seen
      ensures Holds(out, d)
    {
      HoldsKept(outbox, out, d);
    }
  }

  lemma OutboxSkips(outbox: map<ChangeId, Change>, seen: set<Change>, c: Change)
    requires OutboxOk(outbox, seen)
    requires c in seen || exists e :: e in seen && e.RowKey() == c.RowKey() && e.ts > c.ts
    ensures OutboxOk(outbox, seen + {c})
  {
    assert EntriesFrom(outbox, seen + {c});
    if c in seen {
      assert seen + {c} == seen;
    } else {
      var e :| e in seen && e.RowKey() == c.RowKey() && e.ts > c.ts;
      HoldsOlder(outbox, e, c);
    }
  }

  lemma TombsGrow(st: Store, seen: set<Change>, more: set<Change>)
    requires TombsOk(st, seen) && seen <= more
    ensures TombsOk(st, more)
  {
    forall k
      ensures TombOk(st, more, k)
    {
      assert TombOk(st, seen, k);
    }
  }

  lemma ApplyOneKeepsInv(r: Replica, path: WritePath, init: Store, u: set<Change>, seen: set<Change>, c: Change)
    requires GoodUniverse(u, init) && seen <= u && c in u && Inv(r, path, init, seen)
    ensures Inv(ApplyOne(r, c), path, init, seen + {c})
  {
    var st, k := r.db.store, c.RowKey();
    if Dominated(r.me, r.db.outbox, c) {
      DominatedIsOlder(r, init, u, seen, c);
      OldChangeRows(st, init, seen, c);
      OutboxSkips(r.db.outbox, seen, c);
    } else {
      UndominatedIsTop(r, seen, c);
      assert RowOk(st, init, seen, k) && TombOk(st, seen, k);
      TopIsMaterialized(st, init, u, seen, c);
      NewTopRows(st, Materialize(st, c), init, u, seen, c);
      OutboxGrows(r.db.outbox, seen, c);
    }
    TombsGrow(st, seen, seen + {c});
    assert ApplyOne(r, c).db.store.tombs == st.tombs;
    TombsSame(st, ApplyOne(r, c).db.store, seen + {c});
  }

  lemma TombsSame(st: Store, st': Store, seen: set<Change>)
    requires TombsOk(st, seen) && st'.tombs == st.tombs
    ensures TombsOk(st', seen)
  {
    forall k
      ensures TombOk(st', seen, k)
    {
      assert TombOk(st, seen, k);
    }
  }

  function Elements(cs: seq<Change>): set<Change> { set c | c in cs }

  lemma ElementsSnoc(cs: seq<Change>)
    requires cs != []
    ensures Elements(cs) == Elements(cs[..|cs| - 1]) + {cs[|cs| - 1]}
  {
    assert cs == cs[..|cs| - 1] + [cs[|cs| - 1]];
  }

  lemma WriteKeepsInv(r: Replica, path: WritePath, init: Store, u: set<Change>, seen: set<Change>, c: Change)
    requires GoodUniverse(u, init) && seen <= u && c in u && Inv(r, path, init, seen)
    requires c.dev == r.me && c.ts == LocalClock(r, path) + 1
    ensures Inv(Written(r, path, c), path, init, seen + {c})
  {
    var st := r.db.store;
    var st' := LocalEffect(st, c);
    assert IsTop(seen + {c}, c.RowKey(), c);
    NewTopRows(st, st', init, u, seen, c);
    OutboxGrows(r.db.outbox, seen, c);
    forall k
      ensures TombOk(st', seen + {c}, k)
    {
      assert TombOk(st, seen, k);
      assert c in seen + {c};
    }
  }

  // The triggers as writes: each captured entry is one, on top of the row it was captured from.

  lemma UpdateTriggerIsWrite(r: Replica, k: Key, row: Row, id: ChangeId)
    requires r.me == r.db.gate
    ensures r.(db := OutboxHook.UpdateTrigger(OutboxHook.PutRow(r.db, k, row), k, id))
            == Written(r, ViaTriggers, OutboxHook.Capture(r.db, id, k, Update, Record(row)))
  {
  }

  lemma InsertTriggerIsWrites(r: Replica, k: Key, row: Row, id: ChangeId, stampId: ChangeId)
    requires r.me == r.db.gate
    ensures var cs := OutboxHook.CapturedInsert(r.db, k, row, id, stampId);
            r.(db := OutboxHook.InsertTrigger(OutboxHook.PutRow(r.db, k, row), k, id, stampId))
            == Written(Written(r, ViaTriggers, cs[0]), ViaTriggers, cs[1])
  {
    var cs := OutboxHook.CapturedInsert(r.db, k, row, id, stampId);
    var first := Written(r, ViaTriggers, cs[0]);
    UpdateTriggerIsWrite(first, k, Row(row.cols, cs[0].ts, cs[0].dev), stampId);
    assert first.db.store.rows[k := Row(row.cols, cs[0].ts, cs[0].dev)] == first.db.store.rows;
  }

  lemma DeleteTriggerIsWrite(r: Replica, k: Key, id: ChangeId)
    requires r.me == r.db.gate
    ensures r.(db := OutboxHook.DeleteTrigger(OutboxHook.DropRow(r.db, k), k, id))
            == Written(r, ViaTriggers, OutboxHook.Capture(r.db, id, k, Delete, KeyOnly))
  {
  }

  /** `after` is `r` with the changes `cs`, one or two, written one after the other. */
  predicate AreWrites(r: Replica, cs: seq<Change>, after: Replica) {
    && 1 <= |cs| <= 2
    && (forall i :: 0 <= i < |cs| ==> cs[i].op.Delete? || cs[i].data.Record?)
    && (forall i :: 0 <= i < |cs| ==> cs[i].dev == r.me && cs[i].ts == r.db.lamport + 1 + i)
    && var first := Written(r, ViaTriggers, cs[0]);
    after == if |cs| == 1 then first else Written(first, ViaTriggers, cs[1])
  }

  lemma UpsertIsWrites(e: Replica, k: Key, row: Row, id: ChangeId, stampId: ChangeId)
    requires e.me == e.db.gate && OutboxHook.GateOn(e.db)
    ensures var s := OutboxHook.UpsertRow(k, row, id, stampId);
            AreWrites(e.(db := OutboxHook.PutRow(e.db, k, row)), OutboxHook.Captured(e.db, s),
                      e.(db := OutboxHook.Exec(e.db, s)))
  {
    var put := e.(db := OutboxHook.PutRow(e.db, k, row));
    assert OutboxHook.PutRow(put.db, k, row) == put.db;
    if k in e.db.store.rows {
      UpdateTriggerIsWrite(put, k, row, id);
    } else {
      InsertTriggerIsWrites(put, k, row, id, stampId);
    }
  }

  lemma DeleteIsWrite(e: Replica, k: Key, id: ChangeId)
    requires e.me == e.db.gate && OutboxHook.GateOn(e.db) && k in e.db.store.rows
    ensures var s := OutboxHook.DeleteRow(k, id);
            AreWrites(e.(db := OutboxHook.DropRow(e.db, k)), OutboxHook.Captured(e.db, s),
                      e.(db := OutboxHook.Exec(e.db, s)))
  {
    var dropped := e.(db := OutboxHook.DropRow(e.db, k));
    assert OutboxHook.DropRow(dropped.db, k) == dropped.db;
    DeleteTriggerIsWrite(dropped, k, id);
  }

  /** A received change that is captured again is a plain receipt followed by one or two own writes. */
  lemma FireIsWrites(r: Replica, c: Change, ids: TriggerIds)
    requires EchoOne(r, c, ids) != [] && r.db.gate == r.me
    ensures AreWrites(ApplyOne(r, c), EchoOne(r, c, ids), FireOne(r, c, ids))
  {
    EchoOneIff(r, c, ids);
    var e := Merge(r, c.ts).(db := Entered(r, c));
    if c.op.Delete? {
      DeleteIsWrite(e, c.RowKey(), ids.entry);
    } else {
      UpsertIsWrites(e, c.RowKey(), c.data.full, ids.entry, ids.stamp);
    }
  }

  lemma FireOneKeepsInv(r: Replica, path: WritePath, init: Store, u: set<Change>, seen: set<Change>, c: Change,
                        ids: TriggerIds)
    requires GoodUniverse(u, init) && seen <= u && c in u && Elements(EchoOne(r, c, ids)) <= u
    requires Inv(r, path, init, seen) && CapturesAsOwn(r, path, EchoOne(r, c, ids))
    ensures Inv(FireOne(r, c, ids), path, init, seen + {c} + Elements(EchoOne(r, c, ids)))
  {
    var echo := EchoOne(r, c, ids);
    ApplyOneKeepsInv(r, path, init, u, seen, c);
    EchoOneIff(r, c, ids);
    if echo == [] {
      assert seen + {c} + Elements(echo) == seen + {c};
    } else {
      FireIsWrites(r, c, ids);
      WritesKeepInv(ApplyOne(r, c), path, init, u, seen + {c}, echo, FireOne(r, c, ids));
    }
  }

  lemma WritesKeepInv(r: Replica, path: WritePath, init: Store, u: set<Change>, seen: set<Change>, cs: seq<Change>,
                      after: Replica)
    requires GoodUniverse(u, init) && seen <= u && Elements(cs) <= u && path.ViaTriggers?
    requires Inv(r, path, init, seen) && AreWrites(r, cs, after)
    ensures Inv(after, path, init, seen + Elements(cs))
  {
    ElementsOfFew(cs, seen);
    var first := Written(r, ViaTriggers, cs[0]);
    WriteKeepsInv(r, path, init, u, seen, cs[0]);
    if |cs| == 2 { SecondWrite(first, path, init, u, seen + {cs[0]}, cs[1]); }
  }

  lemma ElementsOfFew(cs: seq<Change>, seen: set<Change>)
    requires 1 <= |cs| <= 2
    ensures cs[0] in Elements(cs) && cs[|cs| - 1] in Elements(cs)
    ensures seen + Elements(cs) == if |cs| == 1 then seen + {cs[0]} else seen + {cs[0]} + {cs[1]}
  {
    assert Elements(cs) == if |cs| == 1 then {cs[0]} else {cs[0], cs[1]};
  }

  lemma SecondWrite(r: Replica, path: WritePath, init: Store, u: set<Change>, seen: set<Change>, c: Change)
    requires GoodUniverse(u, init) && seen <= u && c in u && Inv(r, path, init, seen) && path.ViaTriggers?
    requires (c.op.Delete? || c.data.Record?) && c.dev == r.me && c.ts == r.db.lamport + 1
    ensures Inv(Written(r, ViaTriggers, c), path, init, seen + {c})
  {
    WriteKeepsInv(r, path, init, u, seen, c);
  }

  lemma {:induction false} FireAllKeepsInv(r: Replica, path: WritePath, init: Store, u: set<Change>, seen: set<Change>,
                                           cs: seq<Change>, ids: seq<TriggerIds>)
    requires |ids| == |cs| && GoodUniverse(u, init) && seen <= u && Elements(cs) + Elements(EchoAll(r, cs, ids)) <= u
    requires Inv(r, path, init, seen) && CapturesAsOwn(r, path, EchoAll(r, cs, ids))
    ensures Inv(FireAll(r, cs, ids), path, init, seen + Elements(cs) + Elements(EchoAll(r, cs, ids)))
  {
    if cs == [] {
      assert seen + Elements(cs) + Elements(EchoAll(r, cs, ids)) == seen;
    } else {
      var n := |cs| - 1;
      var front, mid := EchoAll(r, cs[..n], ids[..n]), FireAll(r, cs[..n], ids[..n]);
      var last := EchoOne(mid, cs[n], ids[n]);
      ElementsSnoc(cs);
      ElementsConcat(front, last);
      FireAllKeepsInv(r, path, init, u, seen, cs[..n], ids[..n]);
      FireOneKeepsInv(mid, path, init, u, seen + Elements(cs[..n]) + Elements(front), cs[n], ids[n]);
      assert seen + Elements(cs[..n]) + Elements(front) + {cs[n]} + Elements(last)
          == seen + Elements(cs) + Elements(EchoAll(r, cs, ids));
    }
  }

  lemma ElementsConcat(a: seq<Change>, b: seq<Change>)
    ensures Elements(a + b) == Elements(a) + Elements(b)
  {
  }

  lemma CompactKeepsInv(r: Replica, path: WritePath, init: Store, seen: set<Change>, after: map<ChangeId, Change>)
    requires Inv(r, path, init, seen) && IsCompaction(r.me, r.db.outbox, after)
    ensures Inv(r.(db := r.db.(outbox := after)), path, init, seen)
  {
    CompactionOutbox(r.me, r.db.outbox, after, seen);
  }

  lemma CompactionOutbox(me: DeviceId, before: map<ChangeId, Change>, after: map<ChangeId, Change>, seen: set<Change>)
    requires IsCompaction(me, before, after) && OutboxOk(before, seen)
    ensures OutboxOk(after, seen)
  {
    forall c | c in seen
      ensures Holds(after, c)
    {
      assert Holds(before, c);
      CompactionHolds(me, before, after, c);
    }
  }

  lemma CompactionHolds(me: DeviceId, before: map<ChangeId, Change>, after: map<ChangeId, Change>, c: Change)
    requires IsCompaction(me, before, after) && Holds(before, c)
    ensures Holds(after, c)
  {
    var id :| id in before && before[id].RowKey() == c.RowKey() && before[id].ts >= c.ts;
    if id !in after {
      var w :| KeptFor(me, after, before[id], w);
      assert w in after && after[w].RowKey() == c.RowKey() && after[w].ts >= c.ts;
    }
  }

  lemma ActKeepsInv(r: Replica, path: WritePath, init: Store, u: set<Change>, seen: set<Change>, a: Action, r': Replica)
    requires GoodUniverse(u, init) && seen + ChangesOf(a) <= u && Inv(r, path, init, seen) && Acts(r, path, a, r')
    ensures Inv(r', path, init, seen + ChangesOf(a))
  {
    match a
    case Write(c) =>
      WriteKeepsInv(r, path, init, u, seen, c);
    case Take(cs, ids, echoes) =>
      FireAllKeepsInv(r, path, init, u, seen, cs, ids);
      assert seen + (Elements(cs) + Elements(echoes)) == seen + Elements(cs) + Elements(echoes);
    case Switch(_) =>
      assert seen + ChangesOf(a) == seen;
    case Compact(after) =>
      CompactKeepsInv(r, path, init, seen, after);
      assert seen + ChangesOf(a) == seen;
  }

  lemma {:induction false} RunKeepsInv(rs: seq<Replica>, path: WritePath, acts: seq<Action>, u: set<Change>, i: nat)
    requires IsReplicaRun(rs, path, acts) && GoodUniverse(u, rs[0].db.store) && Seen(acts) <= u && i <= |acts|
    ensures Inv(rs[i], path, rs[0].db.store, Seen(acts[..i]))
  {
    if i == 0 {
      InitInv(rs[0], path);
    } else {
      RunKeepsInv(rs, path, acts, u, i - 1);
      SeenPrefix(acts, i);
      assert acts[..i][..i - 1] == acts[..i - 1];
      ActKeepsInv(rs[i - 1], path, rs[0].db.store, u, Seen(acts[..i - 1]), acts[i - 1], rs[i]);
    }
  }

  lemma InitInv(r: Replica, path: WritePath)
    requires r.db.outbox == map[] && r.db.store.tombs == map[]
    ensures Inv(r, path, r.db.store, {})
  {
    assert forall k :: Untouched({}, k);
  }

  lemma {:induction false} SeenPrefix(acts: seq<Action>, i: nat)
    requires i <= |acts|
    ensures Seen(acts[..i]) <= Seen(acts)
    decreases |acts|
  {
    if i == |acts| {
      assert acts[..i] == acts;
    } else {
      SeenPrefix(acts[..|acts| - 1], i);
      assert acts[..|acts| - 1][..i] == acts[..i];
    }
  }

  // ---- Theorems ------------------------------------------------------------------------------

  /** What the application sees of a row: its columns, or nothing. */
  function Visible(st: Store, k: Key): Option<string> {
    if k in st.rows then Some(st.rows[k].cols) else None
  }

  /** The effect of a change on what is visible. */
  function Effect(m: Change): Option<string> {
    if m.op.Delete? || !m.data.Record? then None else Some(m.data.full.cols)
  }

  /** Every row a replica shows is the effect of the highest-stamped change it has seen to that row. */
  lemma RowIsHighestChange(rs: seq<Replica>, path: WritePath, acts: seq<Action>, u: set<Change>, k: Key, m: Change)
    requires IsReplicaRun(rs, path, acts) && GoodUniverse(u, rs[0].db.store) && Seen(acts) <= u
    requires IsTop(Seen(acts), k, m)
    ensures GoodChange(m) && Visible(rs[|acts|].db.store, k) == Effect(m)
  {
    RunKeepsInv(rs, path, acts, u, |acts|);
    assert acts[..|acts|] == acts;
    assert RowOk(rs[|acts|].db.store, rs[0].db.store, Seen(acts), k);
    assert !Untouched(Seen(acts), k);
  }

  /** What a set of changes makes of a row, whatever the order they arrived in. */
  ghost function Expected(init: Store, seen: set<Change>, k: Key): Option<string> {
    if m :| IsTop(seen, k, m) then Effect(m) else Visible(init, k)
  }

  /** The run starts from `init`, has seen exactly `seen`, and stays within the regime of `u`. */
  ghost predicate RunFrom(rs: seq<Replica>, path: WritePath, acts: seq<Action>, u: set<Change>, init: Store,
                          seen: set<Change>) {
    IsReplicaRun(rs, path, acts) && rs[0].db.store == init && Seen(acts) == seen && seen <= u && GoodUniverse(u, init)
  }

  lemma RowAsExpected(rs: seq<Replica>, path: WritePath, acts: seq<Action>, u: set<Change>, init: Store,
                      seen: set<Change>, k: Key)
    requires RunFrom(rs, path, acts, u, init, seen)
    ensures Visible(rs[|rs| - 1].db.store, k) == Expected(init, seen, k)
  {
    if m :| IsTop(seen, k, m) {
      forall n | IsTop(seen, k, n)
        ensures Visible(rs[|acts|].db.store, k) == Effect(n)
      {
        RowIsHighestChange(rs, path, acts, u, k, n);
      }
    } else {
      if !Untouched(seen, k) { var m := TopExists(seen, k); }
      RunKeepsInv(rs, path, acts, u, |acts|);
      assert acts[..|acts|] == acts;
      assert RowOk(rs[|acts|].db.store, init, seen, k);
    }
  }

  /** Two replicas, with any ids and either write path, that started from the same tables and have
      seen the same changes show the same rows. */
  lemma StrongConvergence(rs: seq<Replica>, p: WritePath, ps: seq<Action>,
                          qs: seq<Replica>, q: WritePath, bs: seq<Action>,
                          u: set<Change>, init: Store, seen: set<Change>, k: Key)
    requires RunFrom(rs, p, ps, u, init, seen) && RunFrom(qs, q, bs, u, init, seen)
    ensures Visible(rs[|rs| - 1].db.store, k) == Visible(qs[|qs| - 1].db.store, k)
  {
    RowAsExpected(rs, p, ps, u, init, seen, k);
    RowAsExpected(qs, q, bs, u, init, seen, k);
  }

  // ---- Superseded changes ------------------------------------------------------------------------

  /** Every change of `a` has a change of `b` to the same row at least as new. */
  ghost predicate CoveredBy(a: set<Change>, b: set<Change>) {
    forall c {:trigger Covered(c, b)} :: c in a ==> Covered(c, b)
  }

  ghost predicate Covered(c: Change, b: set<Change>) { exists d :: d in b && AtLeast(d, c) }

  predicate AtLeast(d: Change, c: Change) { d.RowKey() == c.RowKey() && d.ts >= c.ts }

  lemma TopsAgree(a: set<Change>, b: set<Change>, u: set<Change>, init: Store, k: Key, m: Change)
    requires GoodUniverse(u, init) && a <= u && b <= u && CoveredBy(a, b) && CoveredBy(b, a)
    requires IsTop(a, k, m)
    ensures IsTop(b, k, m)
  {
    assert Covered(m, b);
    var d :| d in b && AtLeast(d, m);
    assert Covered(d, a);
    var e :| e in a && AtLeast(e, d);
    assert d.ts == m.ts && d == m;
    forall c | c in b && c.RowKey() == k
      ensures c.ts <= m.ts
    {
      assert Covered(c, a);
      var f :| f in a && AtLeast(f, c);
    }
  }

  lemma ExpectedAgrees(a: set<Change>, b: set<Change>, u: set<Change>, init: Store, k: Key)
    requires GoodUniverse(u, init) && a <= u && b <= u && CoveredBy(a, b) && CoveredBy(b, a)
    ensures Expected(init, a, k) == Expected(init, b, k)
  {
    if m :| IsTop(a, k, m) {
      forall n | IsTop(a, k, n) || IsTop(b, k, n)
        ensures n == m
      {
        if IsTop(b, k, n) { TopsAgree(b, a, u, init, k, n); }
        assert n.ts <= m.ts && m.ts <= n.ts;
      }
      TopsAgree(a, b, u, init, k, m);
    } else if n :| IsTop(b, k, n) {
      TopsAgree(b, a, u, init, k, n);
      assert false;
    }
  }

  /** Replicas need not even have seen the same changes: a change superseded at its sender, by
      compaction for instance, may be missing as long as a newer one to its row has arrived. */
  lemma ConvergenceUpToSuperseded(rs: seq<Replica>, p: WritePath, ps: seq<Action>,
                                  qs: seq<Replica>, q: WritePath, bs: seq<Action>,
                                  u: set<Change>, init: Store, seen1: set<Change>, seen2: set<Change>, k: Key)
    requires RunFrom(rs, p, ps, u, init, seen1) && RunFrom(qs, q, bs, u, init, seen2)
    requires CoveredBy(seen1, seen2) && CoveredBy(seen2, seen1)
    ensures Visible(rs[|rs| - 1].db.store, k) == Visible(qs[|qs| - 1].db.store, k)
  {
    RowAsExpected(rs, p, ps, u, init, seen1, k);
    RowAsExpected(qs, q, bs, u, init, seen2, k);
    ExpectedAgrees(seen1, seen2, u, init, k);
  }

  function Entries(outbox: map<ChangeId, Change>): set<Change> { set id | id in outbox :: outbox[id] }

  /** Sending a compacted outbox covers sending the full one, and the other way round. */
  lemma CompactedOutboxCovers(me: DeviceId, before: map<ChangeId, Change>, after: map<ChangeId, Change>)
    requires IsCompaction(me, before, after)
    ensures CoveredBy(Entries(before), Entries(after)) && CoveredBy(Entries(after), Entries(before))
  {
    forall c | c in Entries(before)
      ensures Covered(c, Entries(after))
    {
      var id :| id in before && before[id] == c;
      if id in after {
        assert after[id] in Entries(after) && AtLeast(after[id], c);
      } else {
        var w :| KeptFor(me, after, before[id], w);
        assert after[w] in Entries(after) && AtLeast(after[w], c);
      }
    }
    forall c | c in Entries(after)
      ensures Covered(c, Entries(before))
    {
      assert c in Entries(before) && AtLeast(c, c);
    }
  }

  // ---- Stamp columns ---------------------------------------------------------------------------

  predicate CarriesOwnStamp(c: Change) {
    c.data.Record? ==> c.data.full.ts == c.ts && c.data.full.dev == c.dev
  }

  function RowAt(st: Store, k: Key): Option<Row> {
    if k in st.rows then Some(st.rows[k]) else None
  }

  ghost function ExpectedRow(init: Store, seen: set<Change>, k: Key): Option<Row> {
    if m :| IsTop(seen, k, m) then (if m.op.Delete? || !m.data.Record? then None else Some(m.data.full))
    else RowAt(init, k)
  }

  lemma StampedRowAsExpected(rs: seq<Replica>, path: WritePath, acts: seq<Action>, u: set<Change>, init: Store,
                             seen: set<Change>, k: Key)
    requires RunFrom(rs, path, acts, u, init, seen) && forall c :: c in seen ==> CarriesOwnStamp(c)
    ensures RowAt(rs[|rs| - 1].db.store, k) == ExpectedRow(init, seen, k)
  {
    RunKeepsInv(rs, path, acts, u, |acts|);
    assert acts[..|acts|] == acts;
    assert RowOk(rs[|acts|].db.store, init, seen, k);
    if m :| IsTop(seen, k, m) {
      assert !Untouched(seen, k);
      forall n | IsTop(seen, k, n)
        ensures RowAt(rs[|acts|].db.store, k) == (if n.op.Delete? || !n.data.Record? then None else Some(n.data.full))
      {
        assert CarriesOwnStamp(n);
      }
    } else if !Untouched(seen, k) {
      var m := TopExists(seen, k);
    }
  }

  /** When payloads carry their change's own stamp, the tables agree in the stamp columns too. */
  lemma StrongConvergenceOfRows(rs: seq<Replica>, p: WritePath, ps: seq<Action>,
                                qs: seq<Replica>, q: WritePath, bs: seq<Action>,
                                u: set<Change>, init: Store, seen: set<Change>, k: Key)
    requires RunFrom(rs, p, ps, u, init, seen) && RunFrom(qs, q, bs, u, init, seen)
    requires forall c :: c in seen ==> CarriesOwnStamp(c)
    ensures RowAt(rs[|rs| - 1].db.store, k) == RowAt(qs[|qs| - 1].db.store, k)
  {
    StampedRowAsExpected(rs, p, ps, u, init, seen, k);
    StampedRowAsExpected(qs, q, bs, u, init, seen, k);
  }

  // ---- The triggers as local writes -------------------------------------------------------------

  /** Captured statements are local writes: one, or two in a row where a row is inserted. */
  lemma StatementIsWrites(r: Replica, s: OutboxHook.Statement)
    requires r.me == r.db.gate && OutboxHook.GateOn(r.db) && OutboxHook.Captured(r.db, s) != []
    ensures AreWrites(r, OutboxHook.Captured(r.db, s), r.(db := OutboxHook.Exec(r.db, s)))
  {
    match s
    case InsertRow(k, row, id, stampId) => InsertTriggerIsWrites(r, k, row, id, stampId);
    case UpdateRow(k, cols, id) => UpdateTriggerIsWrite(r, k, r.db.store.rows[k].(cols := cols), id);
    case UpsertRow(k, row, id, stampId) =>
      if k in r.db.store.rows { UpdateTriggerIsWrite(r, k, row, id); }
          else { InsertTriggerIsWrites(r, k, row, id, stampId); }
    case DeleteRow(k, id) => DeleteTriggerIsWrite(r, k, id);
  }

  /** Their payloads meet the regime although they carry older stamps than their changes. */
  lemma CapturedAreGood(db: Db, s: OutboxHook.Statement, c: Change)
    requires OutboxHook.Bounded(db) && c in OutboxHook.Captured(db, s)
    requires Synced(s.key.table) && (s.DeleteRow? ==> KeyedById(s.key.table))
    requires s.InsertRow? || s.UpsertRow? ==> s.row.ts <= db.lamport
    ensures GoodChange(c)
  {
  }

  // ---- Ties --------------------------------------------------------------------------------------

  /** What the module documentation promises for a tie with the newest stored change: the greater
      device id wins. */
  predicate DocumentedTieWinner(c: Change, existing: Row) { !Less(c.dev, existing.dev) }

  /** A change that ties with the newest stored upsert of its row is settled as documented exactly
      when it should lose or the receiving device's own id is not greater than the sender's: the
      receiver compares its own id where it should compare the stored entry's. */
  lemma TieSettledAsDocumentedIff(r: Replica, c: Change, ids: TriggerIds, held: ChangeId)
    requires !c.op.Delete? && c.data.Record? && Synced(c.table) && c.RowKey() !in r.db.store.tombs
    requires held in r.db.outbox && r.db.outbox[held].RowKey() == c.RowKey() && r.db.outbox[held].ts == c.ts
    requires forall id :: id in r.db.outbox && r.db.outbox[id].RowKey() == c.RowKey() ==> r.db.outbox[id].ts <= c.ts
    requires c.RowKey() in r.db.store.rows && r.db.store.rows[c.RowKey()].ts == c.ts
    requires r.db.store.rows[c.RowKey()].cols != c.data.full.cols
    ensures c.RowKey() in FireOne(r, c, ids).db.store.rows
    ensures var existing := r.db.store.rows[c.RowKey()];
            var after := FireOne(r, c, ids).db.store.rows[c.RowKey()];
            (after.cols == (if DocumentedTieWinner(c, existing) then c.data.full.cols else existing.cols))
            <==> (!DocumentedTieWinner(c, existing) || !Less(c.dev, r.me))
  {
    FireUpsert(Entered(r, c), c, ids);
  }

  /** Two tied upserts taken in opposite orders by a third device end in different rows, whatever its gate. */
  lemma TiesDivergeAtThirdDevice(gate: DeviceId, ids: TriggerIds, more: TriggerIds)
    returns (r: Replica, a: Change, b: Change)
    ensures a.ts == b.ts && a.dev != b.dev && CarriesOwnStamp(a) && CarriesOwnStamp(b)
    ensures r.me != a.dev && r.me != b.dev && r.db.gate == gate
    ensures Visible(ReceiveFiring(r, [a, b], [ids, more]).db.store, a.RowKey())
            != Visible(ReceiveFiring(r, [b, a], [ids, more]).db.store, a.RowKey())
  {
    r := Replica("c", 0, Db(map[], map[], {}, 0, gate, Store(map[], map[])));
    a := Change("1", "workspaces", "r", Upsert, Record(Row("x", 1, "a")), 1, "a");
    b := Change("2", "workspaces", "r", Upsert, Record(Row("y", 1, "b")), 1, "b");
    assert SYNCED_TABLES[5] == "workspaces";
    TwoTied(r, a, b, ids, more);
    TwoTied(r, b, a, ids, more);
  }

  /** On an empty replica with a greater id than both senders, the first of two tied upserts stays: its entry,
      or a newer one it was captured as, keeps the second out. */
  lemma TwoTied(r: Replica, a: Change, b: Change, ids: TriggerIds, more: TriggerIds)
    requires r.db.outbox == map[] && r.db.store == Store(map[], map[])
    requires a.RowKey() == b.RowKey() && a.ts == b.ts && a.id != b.id && Less(b.dev, r.me)
    requires Synced(a.table) && !a.op.Delete? && a.data.Record?
    ensures Visible(ReceiveFiring(r, [a, b], [ids, more]).db.store, a.RowKey()) == Some(a.data.full.cols)
  {
    var first := FireOne(r, a, ids);
    assert [a, b][..1] == [a] && [ids, more][..1] == [ids] && [a][..0] == [] && [ids][..0] == [];
    assert FireAll(r, [a], [ids]) == first;
    FireUpsert(Entered(r, a), a, ids);
    TiedIsDominated(r, a, b, ids);
    assert FireAll(r, [a, b], [ids, more]).db.store == first.db.store;
  }

  lemma TiedIsDominated(r: Replica, a: Change, b: Change, ids: TriggerIds)
    requires r.db.outbox == map[] && r.db.store == Store(map[], map[])
    requires a.RowKey() == b.RowKey() && a.ts == b.ts && Less(b.dev, r.me)
    requires Synced(a.table) && !a.op.Delete? && a.data.Record?
    ensures Dominated(r.me, FireOne(r, a, ids).db.outbox, b)
  {
    var out, echo := FireOne(r, a, ids).db.outbox, EchoOne(r, a, ids);
    EchoOneStamps(r, a, ids);
    if echo == [] {
      EchoOneIff(r, a, ids);
      assert out[a.id] == a;
    } else {
      var last := echo[|echo| - 1];
      assert last in echo && last.id in out && out[last.id] == last;
    }
  }

  // ---- Ties between echoes -------------------------------------------------------------------------

  /** The stored clock once the change has been merged into it. */
  function MergedClock(r: Replica, c: Change): int { Max(r.db.lamport, Max(r.clock, c.ts + 1)) }

  lemma EchoTicks(r: Replica, c: Change, ids: TriggerIds)
    ensures |EchoOne(r, c, ids)| <= 2
    ensures forall i :: 0 <= i < |EchoOne(r, c, ids)| ==> EchoOne(r, c, ids)[i].ts == MergedClock(r, c) + 1 + i
  {
  }

  /** Some change captured at one device has the stamp of one captured at the other. */
  predicate EchoesTie(es: seq<Change>, fs: seq<Change>) {
    exists i, j :: 0 <= i < |es| && 0 <= j < |fs| && es[i].ts == fs[j].ts
  }

  /** Two devices that take the same change capture it under a common stamp if and only if their merged clocks
      are closer than the ticks each of them spends: always, if neither clock was past the change. */
  lemma EchoesTieIff(p: Replica, q: Replica, c: Change, ids: TriggerIds, more: TriggerIds)
    ensures var es, fs := EchoOne(p, c, ids), EchoOne(q, c, more);
            && (EchoesTie(es, fs) <==> es != [] && fs != [] && MergedClock(p, c) < MergedClock(q, c) + |fs|
                                       && MergedClock(q, c) < MergedClock(p, c) + |es|)
            && (es != [] && fs != [] && Max(p.clock, p.db.lamport) <= c.ts + 1 && Max(q.clock, q.db.lamport) <= c.ts + 1
                ==> EchoesTie(es, fs))
  {
    EchoTicks(p, c, ids);
    EchoTicks(q, c, more);
    var es, fs := EchoOne(p, c, ids), EchoOne(q, c, more);
    var d := MergedClock(p, c) - MergedClock(q, c);
    if es != [] && fs != [] && -|es| < d < |fs| {
      if d >= 0 { assert es[0].ts == fs[d].ts; } else { assert es[-d].ts == fs[0].ts; }
    }
  }

  /** So receipts that two devices capture can leave the regime of distinct stamps: no set of changes with both
      captures in it is in it. */
  lemma TiedEchoesLeaveRegime(p: Replica, q: Replica, c: Change, ids: TriggerIds, more: TriggerIds, u: set<Change>,
                              init: Store)
    requires EchoesTie(EchoOne(p, c, ids), EchoOne(q, c, more)) && p.db.gate != q.db.gate
    requires Elements(EchoOne(p, c, ids)) + Elements(EchoOne(q, c, more)) <= u
    ensures !GoodUniverse(u, init)
  {
    var es, fs := EchoOne(p, c, ids), EchoOne(q, c, more);
    var i, j :| 0 <= i < |es| && 0 <= j < |fs| && es[i].ts == fs[j].ts;
    EchoOneStamps(p, c, ids);
    EchoOneStamps(q, c, more);
    assert es[i] in es && fs[j] in fs;
    assert es[i] in Elements(es) && fs[j] in Elements(fs);
  }
}
