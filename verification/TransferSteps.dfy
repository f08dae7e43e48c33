/** Deltas and snapshots in a run of the network: a connection exchanges them beside the change batches. Taking
    one is a stretch of local writes of the receiver, recorded where its triggers capture them, so the network's
    theorems say what it does to the protocol. */
module TransferSteps {
  import opened SyncTypes
  import opened Materializer
  import opened EngineSpec
  import opened OutboxHook
  import opened Receipt
  import opened Network
  import opened NoLostUpdate
  import ST = StateTransfer

  /** Received rows go through the materializer one after the other. */
  function FireEach(db: Db, cs: seq<Change>, ids: seq<TriggerIds>): (after: Db)
    requires |ids| == |cs|
    ensures after.gate == db.gate
  {
    if cs == [] then db else Fire(FireEach(db, cs[..|cs| - 1], ids[..|cs| - 1]), cs[|cs| - 1], ids[|cs| - 1])
  }

  /** The rows of a delta, or of a snapshot chunk. */
  function RowChanges(entries: seq<ST.Entry>, snapshot: bool, sender: DeviceId): (cs: seq<Change>)
    ensures |cs| == |entries|
    ensures forall i :: 0 <= i < |cs| ==>
              cs[i] == ST.RowChange(entries[i], if snapshot then 0 else entries[i].row.ts, sender)
  {
    if entries == [] then []
    else
      var last := entries[|entries| - 1];
      RowChanges(entries[..|entries| - 1], snapshot, sender)
      + [ST.RowChange(last, if snapshot then 0 else last.row.ts, sender)]
  }

  /** The receiving loops of `StateTransfer`. */
  function Take(db: Db, entries: seq<ST.Entry>, snapshot: bool, sender: DeviceId, ids: seq<TriggerIds>): Db
    requires |ids| == |entries|
  {
    if snapshot then ST.TakeSnapshotRows(db, entries, sender, ids) else ST.TakeDelta(db, entries, sender, ids)
  }

  lemma {:induction false} TakenIsFired(db: Db, entries: seq<ST.Entry>, snapshot: bool, sender: DeviceId,
                                        ids: seq<TriggerIds>)
    requires |ids| == |entries|
    ensures Take(db, entries, snapshot, sender, ids) == FireEach(db, RowChanges(entries, snapshot, sender), ids)
  {
    if entries != [] {
      var n := |entries| - 1;
      TakenIsFired(db, entries[..n], snapshot, sender, ids[..n]);
      assert RowChanges(entries, snapshot, sender)[..n] == RowChanges(entries[..n], snapshot, sender);
    }
  }

  /** Ids drawn by the triggers are new and distinct. */
  predicate NewIdsFor(s: Net, ids: seq<TriggerIds>) {
    && (forall i :: 0 <= i < |ids| ==> NewPair(s, ids[i]))
    && (forall i, j :: 0 <= i < j < |ids| ==> Apart(ids[i], ids[j]))
  }

  predicate NewPair(s: Net, x: TriggerIds) { x.entry !in s.issued && x.stamp !in s.issued && x.entry != x.stamp }

  predicate Apart(x: TriggerIds, y: TriggerIds) {
    x.entry != y.entry && x.entry != y.stamp && x.stamp != y.entry && x.stamp != y.stamp
  }

  /** The gate, if on, has the device's own id, and local changes are stamped by the triggers' clock. */
  predicate Started(s: Net, d: DeviceId)
    requires d in s.devs
  {
    GateOn(s.devs[d].db) ==> s.path.ViaTriggers? && s.devs[d].db.gate == s.devs[d].me
  }

  /** Row `n` is written when its turn comes, and captured. */
  predicate CapturedAt(db: Db, cs: seq<Change>, ids: seq<TriggerIds>, n: nat)
    requires |ids| == |cs| && n < |cs|
  {
    GateOn(db) && Touches(FireEach(db, cs[..n], ids[..n]).store, cs[n])
  }

  /** Some row of the table is. */
  predicate Captures(db: Db, cs: seq<Change>, ids: seq<TriggerIds>, t: TableName)
    requires |ids| == |cs|
  {
    exists n :: 0 <= n < |cs| && cs[n].table == t && CapturedAt(db, cs, ids, n)
  }

  /** Writes of device `d` to tables, and recordings of tables with captured rows. */
  predicate LocalWrites(evs: seq<Event>, d: DeviceId, db: Db, cs: seq<Change>, ids: seq<TriggerIds>)
    requires |ids| == |cs|
  {
    forall ev :: ev in evs ==>
      ev.d == d && (ev.AppWriteEv? || (ev.RecordEv? && Captures(db, cs, ids, ev.c.table)))
  }

  /** From `s` to a state in which device `d` has the database `after`. */
  ghost predicate Arrives(ss: seq<Net>, evs: seq<Event>, s: Net, d: DeviceId, after: Db)
    requires d in s.devs
  {
    && IsPiece(ss, evs) && ss[0] == s
    && ss[|evs|].devs == s.devs[d := s.devs[d].(db := after)]
    && ss[|evs|].links == s.links && ss[|evs|].acks == s.acks && ss[|evs|].path == s.path
  }

  /** The history has grown by changes with the ids drawn, one for each captured row at least. */
  predicate IssuedFrom(s: Net, s': Net, d: DeviceId, cs: seq<Change>, ids: seq<TriggerIds>)
    requires d in s.devs && |ids| == |cs|
  {
    && (forall id :: id in s.issued ==> id in s'.issued && s'.issued[id] == s.issued[id])
    && (forall id :: id in s'.issued ==>
          id in s.issued || exists i :: 0 <= i < |ids| && (id == ids[i].entry || id == ids[i].stamp))
    && (forall n :: 0 <= n < |cs| && CapturedAt(s.devs[d].db, cs, ids, n) ==>
          HasEcho(s', s.devs[d].db.gate, cs[n], ids[n]))
  }

  predicate HasEcho(s: Net, gate: DeviceId, c: Change, ids: TriggerIds) {
    ids.entry in s.issued && s.issued[ids.entry].table == c.table && s.issued[ids.entry].dev == gate
  }

  /** One row. */
  lemma FireIsSteps(s: Net, d: DeviceId, c: Change, ids: TriggerIds) returns (ss: seq<Net>, evs: seq<Event>)
    requires d in s.devs && Started(s, d) && NewPair(s, ids) && (c.op.Delete? || c.data.Record?)
    ensures Arrives(ss, evs, s, d, Fire(s.devs[d].db, c, ids))
    ensures LocalWrites(evs, d, s.devs[d].db, [c], [ids]) && IssuedFrom(s, ss[|evs|], d, [c], [ids])
  {
    var db := s.devs[d].db;
    assert [c][..0] == [] && [ids][..0] == [] && FireEach(db, [c][..0], [ids][..0]) == db;
    if !Touches(db.store, c) {
      ss, evs := [s], [];
      assert s.devs[d := s.devs[d]] == s.devs;
    } else if !GateOn(db) {
      FireWithGateOff(db, c, ids);
      var store := Materialize(db.store, c);
      WriteIsStep(s, d, store);
      ss, evs := [s, AfterWrite(s, d, store)], [AppWriteEv(d, store)];
    } else {
      ss, evs := CaptureIsSteps(s, d, c, ids);
    }
  }

  lemma CaptureIsSteps(s: Net, d: DeviceId, c: Change, ids: TriggerIds) returns (ss: seq<Net>, evs: seq<Event>)
    requires d in s.devs && Started(s, d) && NewPair(s, ids) && (c.op.Delete? || c.data.Record?)
    requires GateOn(s.devs[d].db) && Touches(s.devs[d].db.store, c)
    ensures Arrives(ss, evs, s, d, Fire(s.devs[d].db, c, ids))
    ensures LocalWrites(evs, d, s.devs[d].db, [c], [ids]) && IssuedFrom(s, ss[|evs|], d, [c], [ids])
  {
    var stmt, db := StatementOf(c, ids), s.devs[d].db;
    assert [c][..0] == [] && [ids][..0] == [] && FireEach(db, [c][..0], [ids][..0]) == db;
    CapturedIds(db, c, ids);
    ss, evs := StatementIsSteps(s, d, stmt);
    assert [c][0].table == c.table && CapturedAt(db, [c], [ids], 0) && [ids][0] == ids;
    assert Captures(db, [c], [ids], c.table);
  }

  lemma CapturedIds(db: Db, c: Change, ids: TriggerIds)
    requires GateOn(db) && Touches(db.store, c)
    ensures var cs := Captured(db, StatementOf(c, ids));
            && 1 <= |cs| <= 2 && cs[0].id == ids.entry && (|cs| == 2 ==> cs[1].id == ids.stamp)
            && forall x :: x in cs ==> x.table == c.table && x.id in {ids.entry, ids.stamp} && x.dev == db.gate
  {
  }

  /** All rows. */
  lemma {:induction false} FireEachIsSteps(s: Net, d: DeviceId, cs: seq<Change>, ids: seq<TriggerIds>)
    returns (ss: seq<Net>, evs: seq<Event>)
    requires d in s.devs && Started(s, d) && |ids| == |cs| && NewIdsFor(s, ids)
    requires forall c :: c in cs ==> c.op.Delete? || c.data.Record?
    ensures Arrives(ss, evs, s, d, FireEach(s.devs[d].db, cs, ids))
    ensures LocalWrites(evs, d, s.devs[d].db, cs, ids) && IssuedFrom(s, ss[|evs|], d, cs, ids)
  {
    if cs == [] {
      ss, evs := [s], [];
      assert s.devs[d := s.devs[d]] == s.devs;
    } else {
      var n := |cs| - 1;
      assert forall c :: c in cs[..n] ==> c in cs;
      ss, evs := FireEachIsSteps(s, d, cs[..n], ids[..n]);
      assert cs[n] in cs;
      ss, evs := NextIsSteps(s, d, cs, ids, ss, evs);
    }
  }

  lemma NextIsSteps(s: Net, d: DeviceId, cs: seq<Change>, ids: seq<TriggerIds>, front: seq<Net>, evs0: seq<Event>)
    returns (ss: seq<Net>, evs: seq<Event>)
    requires d in s.devs && Started(s, d) && |ids| == |cs| > 0 && NewIdsFor(s, ids)
    requires cs[|cs| - 1].op.Delete? || cs[|cs| - 1].data.Record?
    requires Arrives(front, evs0, s, d, FireEach(s.devs[d].db, cs[..|cs| - 1], ids[..|cs| - 1]))
    requires LocalWrites(evs0, d, s.devs[d].db, cs[..|cs| - 1], ids[..|cs| - 1])
    requires IssuedFrom(s, front[|evs0|], d, cs[..|cs| - 1], ids[..|cs| - 1])
    ensures Arrives(ss, evs, s, d, FireEach(s.devs[d].db, cs, ids))
    ensures LocalWrites(evs, d, s.devs[d].db, cs, ids) && IssuedFrom(s, ss[|evs|], d, cs, ids)
  {
    var n, mid := |cs| - 1, front[|evs0|];
    StillNew(s, mid, d, cs, ids);
    var last, evs1 := FireIsSteps(mid, d, cs[n], ids[n]);
    ArrivalsJoin(front, evs0, last, evs1, s, d, mid.devs[d].db, Fire(mid.devs[d].db, cs[n], ids[n]));
    ss, evs := front + last[1..], evs0 + evs1;
    WritesJoin(s.devs[d].db, mid.devs[d].db, d, cs, ids, evs0, evs1);
    IssuedJoin(s, mid, ss[|evs|], d, cs, ids);
  }

  lemma StillNew(s: Net, mid: Net, d: DeviceId, cs: seq<Change>, ids: seq<TriggerIds>)
    requires d in s.devs && |ids| == |cs| > 0 && NewIdsFor(s, ids)
    requires IssuedFrom(s, mid, d, cs[..|cs| - 1], ids[..|cs| - 1])
    ensures NewPair(mid, ids[|cs| - 1])
  {
    assert forall i :: 0 <= i < |cs| - 1 ==> Apart(ids[i], ids[|cs| - 1]);
  }

  lemma ArrivalsJoin(front: seq<Net>, evs0: seq<Event>, last: seq<Net>, evs1: seq<Event>, s: Net, d: DeviceId,
                     mid: Db, after: Db)
    requires d in s.devs && Arrives(front, evs0, s, d, mid)
    requires d in front[|evs0|].devs && Arrives(last, evs1, front[|evs0|], d, after)
    ensures Arrives(front + last[1..], evs0 + evs1, s, d, after)
    ensures (front + last[1..])[|evs0 + evs1|] == last[|evs1|]
  {
    PiecesJoin(front, evs0, last, evs1);
  }

  lemma FrontCaptures(db: Db, cs: seq<Change>, ids: seq<TriggerIds>, n: nat)
    requires |ids| == |cs| > 0 && n < |cs|
    ensures n < |cs| - 1 ==> CapturedAt(db, cs, ids, n) == CapturedAt(db, cs[..|cs| - 1], ids[..|cs| - 1], n)
    ensures n == |cs| - 1 ==>
              CapturedAt(db, cs, ids, n) == CapturedAt(FireEach(db, cs[..n], ids[..n]), [cs[n]], [ids[n]], 0)
  {
    if n < |cs| - 1 {
      assert cs[..|cs| - 1][..n] == cs[..n] && ids[..|cs| - 1][..n] == ids[..n];
    } else {
      assert [cs[n]][..0] == [] && [ids[n]][..0] == [];
    }
  }

  lemma WritesJoin(db: Db, mid: Db, d: DeviceId, cs: seq<Change>, ids: seq<TriggerIds>, evs0: seq<Event>,
                   evs1: seq<Event>)
    requires |ids| == |cs| > 0 && mid == FireEach(db, cs[..|cs| - 1], ids[..|cs| - 1])
    requires LocalWrites(evs0, d, db, cs[..|cs| - 1], ids[..|cs| - 1])
    requires LocalWrites(evs1, d, mid, [cs[|cs| - 1]], [ids[|cs| - 1]])
    ensures LocalWrites(evs0 + evs1, d, db, cs, ids)
  {
    var n := |cs| - 1;
    forall ev | ev in evs0 + evs1 && ev.RecordEv?
      ensures Captures(db, cs, ids, ev.c.table)
    {
      if ev in evs0 {
        var i :| 0 <= i < n && cs[..n][i].table == ev.c.table && CapturedAt(db, cs[..n], ids[..n], i);
        FrontCaptures(db, cs, ids, i);
        assert cs[i].table == ev.c.table && CapturedAt(db, cs, ids, i);
      } else {
        FrontCaptures(db, cs, ids, n);
        assert cs[n].table == ev.c.table && CapturedAt(db, cs, ids, n);
      }
    }
  }

  lemma IssuedJoin(s: Net, mid: Net, s': Net, d: DeviceId, cs: seq<Change>, ids: seq<TriggerIds>)
    requires |ids| == |cs| > 0 && d in s.devs && d in mid.devs
    requires mid.devs[d].db == FireEach(s.devs[d].db, cs[..|cs| - 1], ids[..|cs| - 1])
    requires IssuedFrom(s, mid, d, cs[..|cs| - 1], ids[..|cs| - 1])
    requires IssuedFrom(mid, s', d, [cs[|cs| - 1]], [ids[|cs| - 1]])
    ensures IssuedFrom(s, s', d, cs, ids)
  {
    var n := |cs| - 1;
    forall i | 0 <= i < |cs| && CapturedAt(s.devs[d].db, cs, ids, i)
      ensures HasEcho(s', s.devs[d].db.gate, cs[i], ids[i])
    {
      FrontCaptures(s.devs[d].db, cs, ids, i);
      if i < n { assert HasEcho(mid, s.devs[d].db.gate, cs[..n][i], ids[..n][i]); }
    }
    assert [ids[n]][0] == ids[n];
  }

  /** Such writes keep the protocol invariant unless they record changes of the table elsewhere than at its writer. */
  lemma {:induction false} LocalWritesKeepInv(ss: seq<Net>, evs: seq<Event>, d: DeviceId, db: Db, cs: seq<Change>,
                                              ids: seq<TriggerIds>, t: TableName, w: DeviceId, i: nat)
    requires |ids| == |cs| && IsPiece(ss, evs) && LocalWrites(evs, d, db, cs, ids) && Inv(ss[0], t, w) && i <= |evs|
    requires d == w || !Captures(db, cs, ids, t)
    ensures Inv(ss[i], t, w)
  {
    if i > 0 {
      LocalWritesKeepInv(ss, evs, d, db, cs, ids, t, w, i - 1);
      assert evs[i - 1] in evs && Step(ss[i - 1], evs[i - 1], ss[i]);
      StepKeepsInv(ss[i - 1], evs[i - 1], ss[i], t, w);
    }
  }

  lemma SecondWriterBreaksInv(s: Net, s': Net, d: DeviceId, cs: seq<Change>, ids: seq<TriggerIds>,
                              t: TableName, w: DeviceId)
    requires d in s.devs && |ids| == |cs| && IssuedFrom(s, s', d, cs, ids) && d != w && s.devs[d].db.gate == d
    requires Captures(s.devs[d].db, cs, ids, t)
    ensures !Inv(s', t, w)
  {
    var n :| 0 <= n < |cs| && cs[n].table == t && CapturedAt(s.devs[d].db, cs, ids, n);
    assert HasEcho(s', d, cs[n], ids[n]);
    OneWriter(s', t, w);
  }

  /** Taking a delta or a snapshot chunk is a stretch of a run. For a table with a single writer it keeps the
      protocol invariant if and only if the receiver is the writer or its triggers capture no row of the table:
      its gate is off, or each such row is hidden or beaten when its turn comes. */
  lemma TransferKeepsInvIff(s: Net, d: DeviceId, entries: seq<ST.Entry>, snapshot: bool, sender: DeviceId,
                            ids: seq<TriggerIds>, t: TableName, w: DeviceId)
    returns (ss: seq<Net>, evs: seq<Event>)
    requires Inv(s, t, w) && d in s.devs && Started(s, d) && |ids| == |entries| && NewIdsFor(s, ids)
    ensures Arrives(ss, evs, s, d, Take(s.devs[d].db, entries, snapshot, sender, ids))
    ensures Inv(ss[|evs|], t, w)
            <==> d == w || !Captures(s.devs[d].db, RowChanges(entries, snapshot, sender), ids, t)
  {
    var db, cs := s.devs[d].db, RowChanges(entries, snapshot, sender);
    TakenIsFired(db, entries, snapshot, sender, ids);
    ss, evs := FireEachIsSteps(s, d, cs, ids);
    if d == w || !Captures(db, cs, ids, t) {
      LocalWritesKeepInv(ss, evs, d, db, cs, ids, t, w, |evs|);
    } else {
      SecondWriterBreaksInv(s, ss[|evs|], d, cs, ids, t, w);
    }
  }
}
