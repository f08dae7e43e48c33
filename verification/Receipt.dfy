/** Receiving remote changes on a database whose triggers are in place: a materialized change is a
    statement like any other, so with the gate on it is captured again as this device's own change. */
module Receipt {
  import opened SyncTypes
  import opened Materializer
  import opened EngineSpec
  import opened OutboxHook

  /** Random ids the triggers of one statement draw: for its entry, and for the nested one of an insert. */
  datatype TriggerIds = TriggerIds(entry: ChangeId, stamp: ChangeId)

  /** The materializer's statement for the change is reached and finds or makes a row to write. */
  predicate Touches(st: Store, c: Change) {
    && !Hidden(st, c) && !Fails(st, c)
    && if c.op.Delete? then c.RowKey() in st.rows
       else c.data.Record? && !(c.RowKey() in st.rows && Beats(st.rows[c.RowKey()], c))
  }

  function StatementOf(c: Change, ids: TriggerIds): Statement
    requires c.op.Delete? || c.data.Record?
  {
    if c.op.Delete? then DeleteRow(c.RowKey(), ids.entry)
    else UpsertRow(c.RowKey(), c.data.full, ids.entry, ids.stamp)
  }

  /** `ChangeMaterializer::apply` on a database with triggers. */
  function Fire(db: Db, c: Change, ids: TriggerIds): (after: Db)
    ensures after.cursors == db.cursors && after.known == db.known && after.gate == db.gate
    ensures after.lamport >= db.lamport
  {
    if Touches(db.store, c) then Exec(db, StatementOf(c, ids)) else db
  }

  /** What the triggers capture of it. */
  function Echo(db: Db, c: Change, ids: TriggerIds): seq<Change> {
    if Touches(db.store, c) then Captured(db, StatementOf(c, ids)) else []
  }

  /** With the gate off the triggers add nothing to the materializer. */
  lemma FireWithGateOff(db: Db, c: Change, ids: TriggerIds)
    requires !GateOn(db)
    ensures Fire(db, c, ids) == db.(store := Materialize(db.store, c)) && Echo(db, c, ids) == []
  {
    if c.op.Delete? && c.RowKey() !in db.store.rows {
      assert db.store.rows - {c.RowKey()} == db.store.rows;
    }
  }

  lemma UntouchedStaysSame(db: Db, c: Change, ids: TriggerIds)
    requires !Touches(db.store, c)
    ensures Fire(db, c, ids) == db == db.(store := Materialize(db.store, c))
  {
    if c.op.Delete? && c.RowKey() !in db.store.rows {
      assert db.store.rows - {c.RowKey()} == db.store.rows;
    }
  }

  /** What an upsert leaves: its own key alone may change; if it is written it has the columns carried and,
      with the gate on, a stamp of this device's own, one tick on or two where the row is new. */
  lemma FireUpsert(db: Db, c: Change, ids: TriggerIds)
    requires !c.op.Delete? && c.data.Record?
    ensures var after, k := Fire(db, c, ids), c.RowKey();
            && after.store.tombs == db.store.tombs
            && (forall j :: j != k ==> (j in after.store.rows <==> j in db.store.rows)
                                       && (j in db.store.rows ==> after.store.rows[j] == db.store.rows[j]))
            && (if !Touches(db.store, c) then after == db
                else
                  && k in after.store.rows
                  && after.lamport == db.lamport + Ticks(db, k)
                  && after.store.rows[k] ==
                     if GateOn(db) then Row(c.data.full.cols, after.lamport, db.gate) else c.data.full)
  {
  }

  /** Ticks of the stored clock that writing row `k` costs. */
  function Ticks(db: Db, k: Key): nat { if !GateOn(db) then 0 else if k in db.store.rows then 1 else 2 }

  // ---- One received change and a batch ------------------------------------------------------

  /** The database when the change is about to be materialized: clock merged, entry recorded. */
  function Entered(r: Replica, c: Change): Db {
    var m := Merge(r, c.ts);
    m.db.(outbox := m.db.outbox[c.id := c])
  }

  function FireOne(r: Replica, c: Change, ids: TriggerIds): (r': Replica)
    ensures r'.me == r.me && r'.clock == Max(r.clock, c.ts + 1) && r'.db.lamport >= Max(r.db.lamport, r'.clock)
    ensures r'.db.cursors == r.db.cursors && r'.db.known == r.db.known && r'.db.gate == r.db.gate
  {
    var m := Merge(r, c.ts);
    if Dominated(r.me, r.db.outbox, c) then m else m.(db := Fire(Entered(r, c), c, ids))
  }

  function EchoOne(r: Replica, c: Change, ids: TriggerIds): seq<Change> {
    if Dominated(r.me, r.db.outbox, c) then [] else Echo(Entered(r, c), c, ids)
  }

  function FireAll(r: Replica, cs: seq<Change>, ids: seq<TriggerIds>): (r': Replica)
    requires |ids| == |cs|
    ensures r'.me == r.me && r'.clock >= r.clock && r'.db.lamport >= r.db.lamport
    ensures r'.db.cursors == r.db.cursors && r'.db.known == r.db.known && r'.db.gate == r.db.gate
  {
    if cs == [] then r
    else
      var n := |cs| - 1;
      FireOne(FireAll(r, cs[..n], ids[..n]), cs[n], ids[n])
  }

  /** Everything captured while the batch is applied, in order. */
  function EchoAll(r: Replica, cs: seq<Change>, ids: seq<TriggerIds>): seq<Change>
    requires |ids| == |cs|
  {
    if cs == [] then []
    else
      var n := |cs| - 1;
      EchoAll(r, cs[..n], ids[..n]) + EchoOne(FireAll(r, cs[..n], ids[..n]), cs[n], ids[n])
  }

  /** `apply_remote_changes` on a database with triggers. */
  function ReceiveFiring(r: Replica, cs: seq<Change>, ids: seq<TriggerIds>): Replica
    requires |ids| == |cs|
  {
    var a := FireAll(r, cs, ids);
    a.(db := a.db.(cursors := BumpCursors(a.db.cursors, cs)))
  }

  /** How many changes of a batch are not skipped as older, the count the engine reports. */
  function NotSkipped(r: Replica, cs: seq<Change>, ids: seq<TriggerIds>): nat
    requires |ids| == |cs|
  {
    if cs == [] then 0
    else
      var n := |cs| - 1;
      var before := FireAll(r, cs[..n], ids[..n]);
      NotSkipped(r, cs[..n], ids[..n]) + if Dominated(r.me, before.db.outbox, cs[n]) then 0 else 1
  }

  /** Change `n` is skipped as older when its turn comes. */
  predicate SkippedAt(r: Replica, cs: seq<Change>, ids: seq<TriggerIds>, n: nat)
    requires |ids| == |cs| && n < |cs|
  {
    Dominated(r.me, FireAll(r, cs[..n], ids[..n]).db.outbox, cs[n])
  }

  /** The positions of the changes that are not. */
  function TakenTurns(r: Replica, cs: seq<Change>, ids: seq<TriggerIds>): set<nat>
    requires |ids| == |cs|
  {
    set n: nat | n < |cs| && !SkippedAt(r, cs, ids, n)
  }

  lemma TurnsSnoc(r: Replica, cs: seq<Change>, ids: seq<TriggerIds>)
    requires |ids| == |cs| > 0
    ensures var last := |cs| - 1;
            TakenTurns(r, cs, ids) == TakenTurns(r, cs[..last], ids[..last])
                                      + if SkippedAt(r, cs, ids, last) then {} else {last}
  {
    var last := |cs| - 1;
    forall n | 0 <= n < last
      ensures SkippedAt(r, cs, ids, n) == SkippedAt(r, cs[..last], ids[..last], n)
    {
      assert cs[..last][..n] == cs[..n] && ids[..last][..n] == ids[..n];
    }
  }

  /** The count is that of the changes not skipped, each at its turn; it is 0 exactly when all are skipped. */
  lemma {:induction false} NotSkippedCounts(r: Replica, cs: seq<Change>, ids: seq<TriggerIds>)
    requires |ids| == |cs|
    ensures NotSkipped(r, cs, ids) == |TakenTurns(r, cs, ids)|
    ensures NotSkipped(r, cs, ids) == 0 <==> forall n :: 0 <= n < |cs| ==> SkippedAt(r, cs, ids, n)
  {
    if cs == [] {
      assert TakenTurns(r, cs, ids) == {};
    } else {
      NotSkippedCounts(r, cs[..|cs| - 1], ids[..|cs| - 1]);
      TurnsSnoc(r, cs, ids);
    }
    forall n | 0 <= n < |cs|
      ensures n in TakenTurns(r, cs, ids) <==> !SkippedAt(r, cs, ids, n)
    {
    }
    assert TakenTurns(r, cs, ids) == {} <==> forall n :: 0 <= n < |cs| ==> n !in TakenTurns(r, cs, ids);
  }

  /** After a batch every entry is an old one or of the row of one of the changes. */
  lemma {:induction false} EntriesOfRows(r: Replica, cs: seq<Change>, ids: seq<TriggerIds>, id: ChangeId)
    requires |ids| == |cs| && id in FireAll(r, cs, ids).db.outbox
    ensures id in r.db.outbox || exists c :: c in cs && c.RowKey() == FireAll(r, cs, ids).db.outbox[id].RowKey()
  {
    if cs != [] {
      var n := |cs| - 1;
      var mid := FireAll(r, cs[..n], ids[..n]);
      assert cs[n] in cs && forall c :: c in cs[..n] ==> c in cs;
      EntryOfRow(mid, cs[n], ids[n], id);
      if id in mid.db.outbox { EntriesOfRows(r, cs[..n], ids[..n], id); }
    }
  }

  lemma EntryOfRow(r: Replica, c: Change, ids: TriggerIds, id: ChangeId)
    requires id in FireOne(r, c, ids).db.outbox
    ensures var e := FireOne(r, c, ids).db.outbox[id];
            (id in r.db.outbox && e == r.db.outbox[id]) || e.RowKey() == c.RowKey()
  {
    FireOneOutbox(r, c, ids);
    EchoOneStamps(r, c, ids);
    if !Dominated(r.me, r.db.outbox, c) { AddAllFrom(r.db.outbox[c.id := c], EchoOne(r, c, ids), id); }
  }

  /** A first batch of changes to different rows is counted in full. */
  lemma FirstBatchCountsAll(r: Replica, cs: seq<Change>, ids: seq<TriggerIds>)
    requires |ids| == |cs| && r.db.outbox == map[]
    requires forall i, j :: 0 <= i < j < |cs| ==> cs[i].RowKey() != cs[j].RowKey()
    ensures NotSkipped(r, cs, ids) == |cs|
  {
    NotSkippedCounts(r, cs, ids);
    forall n | 0 <= n < |cs|
      ensures !SkippedAt(r, cs, ids, n)
    {
      var out := FireAll(r, cs[..n], ids[..n]).db.outbox;
      forall id | id in out
        ensures out[id].RowKey() != cs[n].RowKey()
      {
        EntriesOfRows(r, cs[..n], ids[..n], id);
        var c :| c in cs[..n] && c.RowKey() == out[id].RowKey();
        assert exists i :: 0 <= i < n && cs[i] == c;
      }
    }
    RangeSize(TakenTurns(r, cs, ids), |cs|);
  }

  lemma {:induction false} RangeSize(ns: set<nat>, size: nat)
    requires forall n: nat :: n in ns <==> n < size
    ensures |ns| == size
  {
    if size > 0 { RangeSize(ns - {size - 1}, size - 1); } else { assert ns == {}; }
  }

  /** A batch sets the cursor of every device and table it has changes of to the newest of them, up or down, never
      below 0; every other cursor stays. */
  lemma BatchMovesCursor(r: Replica, cs: seq<Change>, ids: seq<TriggerIds>, p: DeviceId, t: TableName)
    requires |ids| == |cs|
    ensures var x := Cursor(ReceiveFiring(r, cs, ids), p, t);
            if exists c :: c in cs && c.dev == p && c.table == t then
              && x >= 0 && (forall c :: c in cs && c.dev == p && c.table == t ==> c.ts <= x)
              && (x == 0 || exists c :: c in cs && c.dev == p && c.table == t && c.ts == x)
            else x == Cursor(r, p, t)
  {
    assert CursorKey(p, t) in CursorKeys(cs) <==> exists c :: c in cs && c.dev == p && c.table == t;
  }

  // ---- When a receipt is captured again ------------------------------------------------------

  /** The change is skipped as older, or its attempt writes nothing: it is hidden, beaten, failing, carries
      the key alone, or deletes a row that is absent. */
  predicate WritesNothing(r: Replica, c: Change) {
    || Dominated(r.me, r.db.outbox, c)
    || Hidden(r.db.store, c)
    || Fails(r.db.store, c)
    || (if c.op.Delete? then c.RowKey() !in r.db.store.rows
        else c.data.KeyOnly? || (c.RowKey() in r.db.store.rows && Beats(r.db.store.rows[c.RowKey()], c)))
  }

  /** No change of the batch writes when its turn comes. */
  predicate AllWriteNothing(r: Replica, cs: seq<Change>) {
    cs == [] || (AllWriteNothing(r, cs[..|cs| - 1]) && WritesNothing(ApplyAll(r, cs[..|cs| - 1]), cs[|cs| - 1]))
  }

  predicate Quiet(r: Replica, cs: seq<Change>) { !GateOn(r.db) || AllWriteNothing(r, cs) }

  /** One change is captured again exactly when the gate is on and it writes. */
  lemma EchoOneIff(r: Replica, c: Change, ids: TriggerIds)
    ensures EchoOne(r, c, ids) == [] <==> !GateOn(r.db) || WritesNothing(r, c)
    ensures EchoOne(r, c, ids) == [] ==> FireOne(r, c, ids) == ApplyOne(r, c)
    ensures !Dominated(r.me, r.db.outbox, c) ==> (Touches(r.db.store, c) <==> !WritesNothing(r, c))
  {
    if !Dominated(r.me, r.db.outbox, c) {
      if !GateOn(r.db) { FireWithGateOff(Entered(r, c), c, ids); }
      if !Touches(r.db.store, c) { UntouchedStaysSame(Entered(r, c), c, ids); }
    }
  }

  /** A quiet batch is received as if there were no triggers, and nothing is captured. */
  lemma {:induction false} QuietIsPlain(r: Replica, cs: seq<Change>, ids: seq<TriggerIds>)
    requires |ids| == |cs| && Quiet(r, cs)
    ensures FireAll(r, cs, ids) == ApplyAll(r, cs) && EchoAll(r, cs, ids) == []
    ensures ReceiveFiring(r, cs, ids) == Receive(r, cs)
  {
    if cs != [] {
      var n := |cs| - 1;
      QuietIsPlain(r, cs[..n], ids[..n]);
      EchoOneIff(ApplyAll(r, cs[..n]), cs[n], ids[n]);
    }
  }

  /** No entry but the old ones and those of the batch. */
  predicate NoOwnEntryAdded(r: Replica, cs: seq<Change>, r': Replica) {
    forall id :: id in r'.db.outbox ==> id in r.db.outbox || exists c :: c in cs && c.id == id
  }

  /** The ids drawn are new. */
  predicate NewIds(r: Replica, cs: seq<Change>, ids: seq<TriggerIds>) {
    && |ids| == |cs|
    && forall i, c :: 0 <= i < |ids| && c in cs ==> ids[i].entry !in r.db.outbox && c.id != ids[i].entry
  }

  /** A receipt adds no own entry if and only if the gate is off or nothing of the batch writes. */
  lemma EchoesAtReceiptIff(r: Replica, cs: seq<Change>, ids: seq<TriggerIds>)
    requires NewIds(r, cs, ids)
    ensures NoOwnEntryAdded(r, cs, ReceiveFiring(r, cs, ids)) <==> Quiet(r, cs)
  {
    if Quiet(r, cs) {
      QuietIsPlain(r, cs, ids);
      forall id | id in ApplyAll(r, cs).db.outbox
        ensures id in r.db.outbox || exists c :: c in cs && c.id == id
      {
        ApplyAllEntriesFrom(r, cs, id);
      }
    } else {
      LoudHasOwnEntry(r, cs, ids);
    }
  }

  lemma {:induction false} LoudHasOwnEntry(r: Replica, cs: seq<Change>, ids: seq<TriggerIds>)
    requires |ids| == |cs| && !Quiet(r, cs)
    ensures exists i :: 0 <= i < |ids| && ids[i].entry in FireAll(r, cs, ids).db.outbox
  {
    var n := |cs| - 1;
    var mid := FireAll(r, cs[..n], ids[..n]);
    if Quiet(r, cs[..n]) {
      QuietIsPlain(r, cs[..n], ids[..n]);
      FireCaptures(mid, cs[n], ids[n]);
      assert ids[n].entry in FireAll(r, cs, ids).db.outbox;
    } else {
      LoudHasOwnEntry(r, cs[..n], ids[..n]);
      var i :| 0 <= i < n && ids[..n][i].entry in mid.db.outbox;
      FireKeeps(mid, cs[n], ids[n], ids[i].entry);
      assert ids[i].entry in FireAll(r, cs, ids).db.outbox;
    }
  }

  lemma FireCaptures(r: Replica, c: Change, ids: TriggerIds)
    requires GateOn(r.db) && !WritesNothing(r, c)
    ensures ids.entry in FireOne(r, c, ids).db.outbox
  {
    EchoOneIff(r, c, ids);
  }

  lemma FireKeeps(r: Replica, c: Change, ids: TriggerIds, id: ChangeId)
    requires id in r.db.outbox
    ensures id in FireOne(r, c, ids).db.outbox
  {
  }

  // ---- What is captured ------------------------------------------------------------------------

  /** Captured entries are stamped by ticks of the stored clock during the receipt, by this device. */
  lemma {:induction false} EchoStamps(r: Replica, cs: seq<Change>, ids: seq<TriggerIds>)
    requires |ids| == |cs|
    ensures LogWithin(EchoAll(r, cs, ids), r.db.lamport, FireAll(r, cs, ids).db.lamport)
    ensures forall e :: e in EchoAll(r, cs, ids) ==> e.dev == r.db.gate
  {
    if cs != [] {
      var n := |cs| - 1;
      var mid := FireAll(r, cs[..n], ids[..n]);
      EchoStamps(r, cs[..n], ids[..n]);
      EchoOneStamps(mid, cs[n], ids[n]);
      var low, high := mid.db.lamport, FireOne(mid, cs[n], ids[n]).db.lamport;
      LogWithinAppend(EchoAll(r, cs[..n], ids[..n]), EchoOne(mid, cs[n], ids[n]), r.db.lamport, low, high);
    }
  }

  /** The echo of a change is newer than the change, and of the same row. */
  lemma EchoOneStamps(r: Replica, c: Change, ids: TriggerIds)
    ensures LogWithin(EchoOne(r, c, ids), r.db.lamport, FireOne(r, c, ids).db.lamport)
    ensures forall e :: e in EchoOne(r, c, ids) ==> e.ts > c.ts && e.dev == r.db.gate && e.RowKey() == c.RowKey()
  {
    if !Dominated(r.me, r.db.outbox, c) && Touches(r.db.store, c) {
      var db := Entered(r, c);
      StatementLogWithin(db, StatementOf(c, ids));
    }
  }

  // ---- What is in the outbox afterwards --------------------------------------------------------------

  /** Entries added one after the other. */
  function AddAll(out: map<ChangeId, Change>, es: seq<Change>): map<ChangeId, Change> {
    if es == [] then out else AddAll(out, es[..|es| - 1])[es[|es| - 1].id := es[|es| - 1]]
  }

  predicate DistinctIds(es: seq<Change>) { forall i, j :: 0 <= i < j < |es| ==> es[i].id != es[j].id }

  /** What is found under an id is the last entry added with it, or what was there. */
  lemma {:induction false} AddAllAt(out: map<ChangeId, Change>, es: seq<Change>, i: nat)
    requires i < |es| && forall j :: i < j < |es| ==> es[j].id != es[i].id
    ensures es[i].id in AddAll(out, es) && AddAll(out, es)[es[i].id] == es[i]
  {
    if i < |es| - 1 { AddAllAt(out, es[..|es| - 1], i); }
  }

  lemma {:induction false} AddAllKeeps(out: map<ChangeId, Change>, es: seq<Change>, id: ChangeId)
    requires id in out && forall i :: 0 <= i < |es| ==> es[i].id != id
    ensures id in AddAll(out, es) && AddAll(out, es)[id] == out[id]
  {
    if es != [] { AddAllKeeps(out, es[..|es| - 1], id); }
  }

  lemma AddAllHas(out: map<ChangeId, Change>, es: seq<Change>)
    requires DistinctIds(es)
    ensures forall e :: e in es ==> e.id in AddAll(out, es) && AddAll(out, es)[e.id] == e
    ensures forall id :: id in out && (forall e :: e in es ==> e.id != id) ==>
              id in AddAll(out, es) && AddAll(out, es)[id] == out[id]
    ensures forall id :: id in AddAll(out, es) ==>
              || (id in out && AddAll(out, es)[id] == out[id])
              || (AddAll(out, es)[id] in es && AddAll(out, es)[id].id == id)
  {
    forall e | e in es
      ensures e.id in AddAll(out, es) && AddAll(out, es)[e.id] == e
    {
      var i :| 0 <= i < |es| && es[i] == e;
      AddAllAt(out, es, i);
    }
    forall id | id in out && forall e :: e in es ==> e.id != id
      ensures id in AddAll(out, es) && AddAll(out, es)[id] == out[id]
    {
      AddAllKeeps(out, es, id);
    }
    forall id | id in AddAll(out, es)
      ensures (id in out && AddAll(out, es)[id] == out[id])
              || (AddAll(out, es)[id] in es && AddAll(out, es)[id].id == id)
    {
      AddAllFrom(out, es, id);
    }
  }

  lemma {:induction false} AddAllFrom(out: map<ChangeId, Change>, es: seq<Change>, id: ChangeId)
    requires id in AddAll(out, es)
    ensures (id in out && AddAll(out, es)[id] == out[id])
            || (AddAll(out, es)[id] in es && AddAll(out, es)[id].id == id)
  {
    if es != [] && id != es[|es| - 1].id { AddAllFrom(out, es[..|es| - 1], id); }
  }

  lemma AddTwo(out: map<ChangeId, Change>, es: seq<Change>)
    requires |es| <= 2
    ensures AddAll(out, es) == if es == [] then out else if |es| == 1 then out[es[0].id := es[0]]
                               else out[es[0].id := es[0]][es[1].id := es[1]]
  {
    if |es| == 2 {
      assert es[..1][..0] == [] && es[..1] == [es[0]];
      assert AddAll(out, es[..1]) == out[es[0].id := es[0]];
    } else if |es| == 1 {
      assert es[..0] == [];
    }
  }

  /** One received change: skipped, or recorded and then its echoes. */
  lemma FireOneOutbox(r: Replica, c: Change, ids: TriggerIds)
    ensures FireOne(r, c, ids).db.outbox ==
            if Dominated(r.me, r.db.outbox, c) then r.db.outbox
            else AddAll(r.db.outbox[c.id := c], EchoOne(r, c, ids))
  {
    if !Dominated(r.me, r.db.outbox, c) {
      AddTwo(r.db.outbox[c.id := c], EchoOne(r, c, ids));
    }
  }

  /** `issued` tells changes by their ids: the batch and the outbox are part of it, the echoes are new. */
  ghost predicate Identified(issued: map<ChangeId, Change>, r: Replica, cs: seq<Change>, es: seq<Change>) {
    && (forall c :: c in cs ==> c.id in issued && issued[c.id] == c)
    && (forall id :: id in r.db.outbox ==> id in issued && issued[id] == r.db.outbox[id] && issued[id].id == id)
    && (forall e :: e in es ==> e.id !in issued)
    && DistinctIds(es)
  }

  /** The outbox has what was there, what came and what was captured, and for every change of the batch an
      entry of its row at least as new. */
  ghost predicate Took(out: map<ChangeId, Change>, cs: seq<Change>, es: seq<Change>, out': map<ChangeId, Change>) {
    && (forall id :: id in out ==> id in out' && out'[id] == out[id])
    && (forall e :: e in es ==> e.id in out' && out'[e.id] == e)
    && (forall id :: id in out' ==>
          (id in out && out'[id] == out[id]) || (out'[id].id == id && (out'[id] in cs || out'[id] in es)))
    && (forall c {:trigger Holds(out', c)} :: c in cs ==> Holds(out', c))
  }

  lemma {:induction false} FireAllTook(issued: map<ChangeId, Change>, r: Replica, cs: seq<Change>, ids: seq<TriggerIds>)
    requires |ids| == |cs| && Identified(issued, r, cs, EchoAll(r, cs, ids))
    ensures Took(r.db.outbox, cs, EchoAll(r, cs, ids), FireAll(r, cs, ids).db.outbox)
  {
    if cs != [] {
      var n := |cs| - 1;
      var mid, front := FireAll(r, cs[..n], ids[..n]), EchoAll(r, cs[..n], ids[..n]);
      IdentifiedFront(issued, r, cs, front, EchoOne(mid, cs[n], ids[n]));
      FireAllTook(issued, r, cs[..n], ids[..n]);
      NextTook(issued, r, cs, ids[n], mid, front);
    }
  }

  lemma NextTook(issued: map<ChangeId, Change>, r: Replica, cs: seq<Change>, ids: TriggerIds, mid: Replica,
                 front: seq<Change>)
    requires cs != [] && Identified(issued, r, cs, front + EchoOne(mid, cs[|cs| - 1], ids))
    requires Took(r.db.outbox, cs[..|cs| - 1], front, mid.db.outbox)
    ensures Took(r.db.outbox, cs, front + EchoOne(mid, cs[|cs| - 1], ids), FireOne(mid, cs[|cs| - 1], ids).db.outbox)
  {
    var before, last, echo := cs[..|cs| - 1], cs[|cs| - 1], EchoOne(mid, cs[|cs| - 1], ids);
    assert cs == before + [last] && last in cs;
    IdentifiedFront(issued, r, cs, front, echo);
    MidIds(issued, r, before, front, mid.db.outbox);
    TookOne(mid, last, ids);
    TookMore(r.db.outbox, before, front, mid.db.outbox, [last], echo, FireOne(mid, last, ids).db.outbox);
  }

  lemma IdentifiedFront(issued: map<ChangeId, Change>, r: Replica, cs: seq<Change>, front: seq<Change>,
                        echo: seq<Change>)
    requires cs != [] && Identified(issued, r, cs, front + echo)
    ensures Identified(issued, r, cs[..|cs| - 1], front) && DistinctIds(echo)
    ensures forall e, x :: e in echo && x in front ==> e.id != x.id
    ensures forall e :: e in echo ==> e.id !in issued
  {
    var es := front + echo;
    assert forall i :: 0 <= i < |front| ==> es[i] == front[i];
    assert forall j :: 0 <= j < |echo| ==> es[|front| + j] == echo[j];
    assert forall e :: e in front ==> e in es;
    assert forall e :: e in echo ==> e in es;
    assert forall c :: c in cs[..|cs| - 1] ==> c in cs;
  }

  lemma TookOne(r: Replica, c: Change, ids: TriggerIds)
    requires DistinctIds(EchoOne(r, c, ids)) && (c.id in r.db.outbox ==> r.db.outbox[c.id] == c)
    requires forall e :: e in EchoOne(r, c, ids) ==> e.id !in r.db.outbox && e.id != c.id
    ensures Took(r.db.outbox, [c], EchoOne(r, c, ids), FireOne(r, c, ids).db.outbox)
  {
    FireOneOutbox(r, c, ids);
    if !Dominated(r.me, r.db.outbox, c) {
      AddAllHas(r.db.outbox[c.id := c], EchoOne(r, c, ids));
      assert FireOne(r, c, ids).db.outbox[c.id] == c;
    }
    assert Holds(FireOne(r, c, ids).db.outbox, c);
  }

  lemma TookMore(out: map<ChangeId, Change>, cs: seq<Change>, es: seq<Change>, mid: map<ChangeId, Change>,
                 cs': seq<Change>, es': seq<Change>, out': map<ChangeId, Change>)
    requires Took(out, cs, es, mid) && Took(mid, cs', es', out')
    ensures Took(out, cs + cs', es + es', out')
  {
    forall c | c in cs + cs'
      ensures Holds(out', c)
    {
      if c in cs { HoldsKept(mid, out', c); }
    }
  }

  lemma MidIds(issued: map<ChangeId, Change>, r: Replica, cs: seq<Change>, es: seq<Change>, out: map<ChangeId, Change>)
    requires Identified(issued, r, cs, es) && Took(r.db.outbox, cs, es, out)
    ensures forall id :: id in out ==>
              out[id].id == id && ((id in issued && issued[id] == out[id]) || (id !in issued && out[id] in es))
  {
  }

  // ---- Deletes ------------------------------------------------------------------------------------

  /** A received delete that finds its row removes it, with the gate on or off, if and only if it is not skipped
      as older and the table is synced and not `preferences`; whatever it does, it touches no other row. */
  lemma ReceivedDeleteTakesEffectIff(r: Replica, c: Change, ids: TriggerIds, k: Key)
    requires c.op.Delete? && k in r.db.store.rows
    ensures var rows := FireOne(r, c, ids).db.store.rows;
            && (k !in rows <==> k == c.RowKey() && !Dominated(r.me, r.db.outbox, c)
                                && c.table in SYNCED_TABLES && c.table != "preferences")
            && (k in rows ==> rows[k] == r.db.store.rows[k])
  {
    if !Dominated(r.me, r.db.outbox, c) { assert Touches(r.db.store, c) ==> c.RowKey() in r.db.store.rows; }
  }

  predicate HasTombstone(st: Store, k: Key, ts: int) { k in st.tombs && st.tombs[k].ts >= ts }

  /** A received delete leaves a tombstone that covers it if and only if there was one, or the gate is on
      and the delete finds its row. */
  lemma RemoteDeleteLeavesTombstoneIff(r: Replica, c: Change, ids: TriggerIds)
    requires c.op.Delete?
    ensures HasTombstone(FireOne(r, c, ids).db.store, c.RowKey(), c.ts)
            <==> HasTombstone(r.db.store, c.RowKey(), c.ts)
                 || (GateOn(r.db) && c.table in SYNCED_TABLES && c.table != "preferences"
                     && c.RowKey() in r.db.store.rows && !Dominated(r.me, r.db.outbox, c))
  {
    if Touches(r.db.store, c) && !Dominated(r.me, r.db.outbox, c) {
      assert FireOne(r, c, ids).db == Exec(Entered(r, c), DeleteRow(c.RowKey(), ids.entry));
    }
  }

  /** After a delete has been received, a row stamped no later comes back, by any path, if and only if that
      delete left no tombstone and no other tombstone hides the row. */
  lemma OlderRowComesBackIff(r: Replica, c: Change, ids: TriggerIds, up: Change, more: TriggerIds)
    requires c.op.Delete? && KeyedById(c.table) && !Dominated(r.me, r.db.outbox, c)
    requires !up.op.Delete? && up.data.Record? && up.RowKey() == c.RowKey() && up.ts <= c.ts
    ensures c.RowKey() in Fire(FireOne(r, c, ids).db, up, more).store.rows
            <==> !(GateOn(r.db) && c.RowKey() in r.db.store.rows) && !HasTombstone(r.db.store, c.RowKey(), up.ts)
  {
    var after, k := FireOne(r, c, ids).db, c.RowKey();
    RemoteDeleteLeavesTombstoneIff(r, c, ids);
    assert k !in after.store.rows;
    if !(GateOn(r.db) && k in r.db.store.rows) {
      assert after.store.tombs == r.db.store.tombs;
    } else {
      assert after.store.tombs[k].ts > c.ts;
    }
  }

  /** Either half of the condition fails on its own: with the gate off the deleted row comes back, and so it
      does with the gate on if the delete arrives before the row. */
  lemma RemoteDeleteDoesNotPreventResurrection() returns (off: Replica, early: Replica, del: Change, up: Change)
    ensures del.op.Delete? && up.op.Upsert? && del.RowKey() == up.RowKey() && up.ts < del.ts
    ensures !GateOn(off.db) && up.RowKey() in off.db.store.rows && GateOn(early.db)
    ensures forall ids, more :: up.RowKey() in Fire(FireOne(off, del, ids).db, up, more).store.rows
    ensures forall ids, more :: up.RowKey() in Fire(FireOne(early, del, ids).db, up, more).store.rows
  {
    var row, k := Row("v", 1, "a"), Key("workspaces", "r");
    assert SYNCED_TABLES[5] == "workspaces";
    off := Replica("c", 0, Db(map[], map[], {}, 0, "local", Store(map[k := row], map[])));
    early := Replica("c", 0, Db(map[], map[], {}, 0, "c", Store(map[], map[])));
    del := Change("2", "workspaces", "r", Delete, NotObject, 2, "a");
    up := Change("3", "workspaces", "r", Upsert, Record(row), 1, "b");
    forall ids, more
      ensures up.RowKey() in Fire(FireOne(off, del, ids).db, up, more).store.rows
      ensures up.RowKey() in Fire(FireOne(early, del, ids).db, up, more).store.rows
    {
      OlderRowComesBackIff(off, del, ids, up, more);
      OlderRowComesBackIff(early, del, ids, up, more);
    }
  }

  /** No received batch brings back a row that is absent under a tombstone, as long as its changes to the row
      are stamped no later. */
  lemma {:induction false} ReceiveNoResurrection(r: Replica, cs: seq<Change>, ids: seq<TriggerIds>, k: Key)
    requires |ids| == |cs| && k !in r.db.store.rows && k in r.db.store.tombs
    requires forall c :: c in cs && c.RowKey() == k ==> c.ts <= r.db.store.tombs[k].ts
    ensures var st := FireAll(r, cs, ids).db.store;
            k !in st.rows && k in st.tombs && st.tombs[k] == r.db.store.tombs[k]
  {
    if cs != [] {
      var n := |cs| - 1;
      assert cs[n] in cs && forall c :: c in cs[..n] ==> c in cs;
      ReceiveNoResurrection(r, cs[..n], ids[..n], k);
      StaysDeleted(FireAll(r, cs[..n], ids[..n]), cs[n], ids[n], k);
    }
  }

  /** One received change stamped no later than the tombstone leaves row and tombstone alone. */
  lemma StaysDeleted(r: Replica, c: Change, ids: TriggerIds, k: Key)
    requires k !in r.db.store.rows && k in r.db.store.tombs && (c.RowKey() == k ==> c.ts <= r.db.store.tombs[k].ts)
    ensures var st := FireOne(r, c, ids).db.store;
            k !in st.rows && k in st.tombs && st.tombs[k] == r.db.store.tombs[k]
  {
    if c.op.Delete? {
      assert !Touches(r.db.store, c) || c.RowKey() != k;
    } else if c.data.Record? {
      FireUpsert(Entered(r, c), c, ids);
    }
  }

  /** A row deleted here stays deleted whatever changes stamped no later peers send afterwards. */
  lemma LocalDeleteNotResurrected(r: Replica, k: Key, id: ChangeId, cs: seq<Change>, ids: seq<TriggerIds>)
    requires |ids| == |cs| && GateOn(r.db) && k in r.db.store.rows
    requires forall c :: c in cs && c.RowKey() == k ==> c.ts <= r.db.lamport + 1
    ensures k !in ReceiveFiring(r.(db := Exec(r.db, DeleteRow(k, id))), cs, ids).db.store.rows
  {
    ReceiveNoResurrection(r.(db := Exec(r.db, DeleteRow(k, id))), cs, ids, k);
  }

  // ---- Echoes answer echoes -------------------------------------------------------------------------

  /** Everything the replica has of row `k` is stamped at most `x`, and the row is there. */
  predicate NewestAt(r: Replica, k: Key, x: int) {
    && k in r.db.store.rows && r.db.store.rows[k].ts <= x
    && (k in r.db.store.tombs ==> r.db.store.tombs[k].ts <= x)
    && forall id :: id in r.db.outbox && r.db.outbox[id].RowKey() == k ==> r.db.outbox[id].ts <= x
  }

  /** A device with the gate on answers a newer record of a row it has with a record of its own, newer still. */
  lemma EchoIsNewer(r: Replica, c: Change, ids: TriggerIds, x: int) returns (e: Change)
    requires GateOn(r.db) && NewestAt(r, c.RowKey(), x) && c.ts > x
    requires Synced(c.table) && !c.op.Delete? && c.data.Record?
    ensures EchoOne(r, c, ids) == [e] && e.ts > c.ts && e.dev == r.db.gate
    ensures e.RowKey() == c.RowKey() && !e.op.Delete? && e.data.Record? && e.data.full.cols == c.data.full.cols
    ensures ids.entry in FireOne(r, c, ids).db.outbox && FireOne(r, c, ids).db.outbox[ids.entry] == e
    ensures NewestAt(FireOne(r, c, ids), c.RowKey(), e.ts)
  {
    assert Touches(r.db.store, c);
    e := Capture(Entered(r, c), ids.entry, c.RowKey(), Update, Record(c.data.full));
  }

  /** Devices `p` and `q`, each applying the other's latest echo in turn, starting with `c` at `p`. */
  function Volley(p: Replica, q: Replica, c: Change, ids: seq<TriggerIds>): seq<Change>
    decreases |ids|
  {
    if ids == [] || EchoOne(p, c, ids[0]) == [] then []
    else
      var echo := EchoOne(p, c, ids[0]);
      [echo[|echo| - 1]] + Volley(q, FireOne(p, c, ids[0]), echo[|echo| - 1], ids[1..])
  }

  /** Two devices with the gate on never finish exchanging one change: after any number of exchanges there
      is yet another record of the row to send, newer than all before. */
  lemma {:induction false} EchoNeverEnds(p: Replica, q: Replica, c: Change, ids: seq<TriggerIds>, x: int)
    requires GateOn(p.db) && GateOn(q.db) && NewestAt(p, c.RowKey(), x) && NewestAt(q, c.RowKey(), c.ts) && c.ts > x
    requires Synced(c.table) && !c.op.Delete? && c.data.Record?
    ensures |Volley(p, q, c, ids)| == |ids| && Increasing([c] + Volley(p, q, c, ids))
    ensures forall e :: e in Volley(p, q, c, ids) ==> e.RowKey() == c.RowKey()
    decreases |ids|
  {
    if ids != [] {
      var e := EchoIsNewer(p, c, ids[0], x);
      EchoNeverEnds(q, FireOne(p, c, ids[0]), e, ids[1..], c.ts);
      IncreasingCons(c, [e] + Volley(q, FireOne(p, c, ids[0]), e, ids[1..]));
    }
  }

  lemma IncreasingCons(c: Change, cs: seq<Change>)
    requires Increasing(cs) && cs != [] && c.ts < cs[0].ts
    ensures Increasing([c] + cs)
  {
    assert forall i :: 0 < i < |cs| ==> cs[0].ts < cs[i].ts;
  }
}
