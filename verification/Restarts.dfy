/** Starts of the sync engine. Each one bootstraps the clock from the outbox, which pruning may have emptied,
    so the writer can fall behind what its cursors say its peers have: when that loses updates, and when not. */
module Restarts {
  import opened SyncTypes
  import opened Materializer
  import opened EngineSpec
  import opened OutboxHook
  import opened Receipt
  import opened Network
  import opened NoLostUpdate

  // ---- The next update after a start -----------------------------------------------------------

  /** No cursor of the writer is above `m`. */
  predicate CursorsReached(s: Net, t: TableName, w: DeviceId, m: int)
    requires w in s.devs
  {
    forall p :: p in s.devs && p != w ==> m >= Cursor(s.devs[w], p, t)
  }

  ghost predicate ReachesAll(s: Net, t: TableName, w: DeviceId, c: Change) {
    w in s.devs && forall p :: p in s.devs && p != w ==> HasOrPending(s, t, w, p, c)
  }

  /** What a start and a recording of the writer leave: the change is stamped right above the outbox
      maximum, and cursors and peers are as before. */
  lemma BootThenRecord(s: Net, booted: Net, s': Net, m: int, c: Change, w: DeviceId)
    requires w in s.devs && Step(s, BootEv(w, m), booted) && Step(booted, RecordEv(w, c), s')
    ensures s'.devs.Keys == s.devs.Keys && c.id !in s.issued && c.ts == m + 1 && InOutbox(s', w, c)
    ensures s'.devs[w].db.cursors == s.devs[w].db.cursors
    ensures forall p :: p in s.devs && p != w ==> s'.devs[p] == s.devs[p]
  {
  }

  /** After a start, the writer's next update, of any row, is pending for every peer if and only if the outbox
      maximum was at or above its cursor for every peer, which can be read before the start. */
  lemma NextUpdateSafeIff(s: Net, booted: Net, s': Net, m: int, c: Change, t: TableName, w: DeviceId)
    requires Inv(s, t, w) && Step(s, BootEv(w, m), booted) && Step(booted, RecordEv(w, c), s') && c.table == t
    ensures ReachesAll(s', t, w, c) <==> CursorsReached(s, t, w, m)
  {
    BootThenRecord(s, booted, s', m, c, w);
    forall p | p in s.devs && p != w
      ensures !InOutbox(s', p, c) && Cursor(s'.devs[w], p, t) == Cursor(s.devs[w], p, t)
      ensures HasOrPending(s', t, w, p, c) <==> m >= Cursor(s.devs[w], p, t)
    {
      assert forall id :: id in s.devs[p].db.outbox ==> IsIssued(s, s.devs[p].db.outbox[id]);
    }
  }

  /** What `NoUpdateLost` promises, of every row. */
  ghost predicate AllSafe(s: Net, t: TableName, w: DeviceId) {
    forall k :: k in s.latest && k.table == t ==> ReachesAll(s, t, w, s.latest[k])
  }

  // ---- Whole runs with starts ---------------------------------------------------------------------

  /** No acknowledgement the writer handles lowers one of its cursors for the table. */
  predicate NoLowering(s: Net, ev: Event, t: TableName, w: DeviceId) {
    ev.AckEv? && ev.d == w && w in s.devs && ev.id in s.devs[w].db.outbox && s.devs[w].db.outbox[ev.id].table == t
    ==> s.devs[w].db.outbox[ev.id].ts >= Cursor(s.devs[w], ev.peer, t)
  }

  /** The writer still has an entry of the table stamped `x` or later, or knows every peer to have it. */
  ghost predicate Reached(s: Net, t: TableName, w: DeviceId, x: int)
    requires w in s.devs
  {
    HasEntry(s, t, w, x) || forall p :: p in s.devs && p != w ==> Cursor(s.devs[w], p, t) >= x
  }

  predicate HasEntry(s: Net, t: TableName, w: DeviceId, x: int)
    requires w in s.devs
  {
    exists id :: id in s.devs[w].db.outbox && s.devs[w].db.outbox[id].table == t && s.devs[w].db.outbox[id].ts >= x
  }

  ghost predicate TopKept(s: Net, t: TableName, w: DeviceId) {
    w in s.devs && forall k :: k in s.latest && k.table == t ==> Reached(s, t, w, s.latest[k].ts)
  }

  /** No cursor of the writer for a peer goes down. */
  predicate CursorsRise(s: Net, s': Net, t: TableName, w: DeviceId)
    requires w in s.devs && w in s'.devs
  {
    forall p :: p in s.devs && p != w ==> Cursor(s'.devs[w], p, t) >= Cursor(s.devs[w], p, t)
  }

  lemma StepCursorsRise(s: Net, ev: Event, s': Net, t: TableName, w: DeviceId)
    requires Inv(s, t, w) && Step(s, ev, s') && NoLowering(s, ev, t, w)
    ensures w in s'.devs && CursorsRise(s, s', t, w)
  {
    if ev.DeliverEv? {
      DeliveryIsBatch(s, ev, s');
      var m := On(s, Link(ev.src, ev.d))[0];
      if m.Batch? {
        BatchLeavesCursors(s, s', ev.d, ev.src, m.cs, EchoAll(s.devs[ev.d], m.cs, ev.ids), t, w);
      }
    }
  }

  /** Batches name the writer as the origin of the table's changes, so they move no cursor for a peer. */
  lemma BatchLeavesCursors(s: Net, s': Net, d: DeviceId, src: DeviceId, cs: seq<Change>, es: seq<Change>,
                           t: TableName, w: DeviceId)
    requires Inv(s, t, w) && BatchDelivered(s, s', d, src, cs, es)
    ensures w in s'.devs && CursorsRise(s, s', t, w)
  {
    DeliveredIssued(s, s', d, src, cs, es);
    forall p | p in s.devs && p != w
      ensures CursorKey(p, t) !in CursorKeys(cs)
    {
      forall c | c in cs && c.table == t
        ensures c.dev == w
      {
        assert IsIssued(s, c) && IssuedByWriter(s, w, s.issued[c.id]);
      }
    }
  }

  /** Outside compaction and pruning the writer's outbox keeps every entry. */
  lemma EntryStays(s: Net, ev: Event, s': Net, t: TableName, w: DeviceId, id: ChangeId)
    requires Inv(s, t, w) && Step(s, ev, s') && id in s.devs[w].db.outbox
    requires ev.d == w ==> !ev.CompactEv? && !ev.SendEv? && !ev.PruneEv?
    ensures w in s'.devs && id in s'.devs[w].db.outbox && s'.devs[w].db.outbox[id] == s.devs[w].db.outbox[id]
  {
    assert IsIssued(s, s.devs[w].db.outbox[id]) && id in s.issued;
    if ev.DeliverEv? { DeliveryKeepsEntry(s, ev, s', t, w, id); }
  }

  lemma DeliveryKeepsEntry(s: Net, ev: Event, s': Net, t: TableName, w: DeviceId, id: ChangeId)
    requires Inv(s, t, w) && Step(s, ev, s') && ev.DeliverEv? && id in s.devs[w].db.outbox
    ensures w in s'.devs && id in s'.devs[w].db.outbox && s'.devs[w].db.outbox[id] == s.devs[w].db.outbox[id]
  {
    DeliveryIsBatch(s, ev, s');
    var m, c := On(s, Link(ev.src, ev.d))[0], s.devs[w].db.outbox[id];
    if m.Batch? {
      DeliveredIssued(s, s', ev.d, ev.src, m.cs, EchoAll(s.devs[ev.d], m.cs, ev.ids));
      DeliveredEntries(s, s', ev.d, ev.src, m.cs, EchoAll(s.devs[ev.d], m.cs, ev.ids));
      assert c.id == id && InOutbox(s, w, c);
    }
  }

  lemma PrunedReached(s: Net, s': Net, t: TableName, w: DeviceId, id: ChangeId)
    requires Inv(s, t, w) && s' == s.(devs := s.devs[w := Prune(s.devs[w])])
    requires id in s.devs[w].db.outbox && s.devs[w].db.outbox[id].table == t
    ensures Reached(s', t, w, s.devs[w].db.outbox[id].ts)
  {
    var c := s.devs[w].db.outbox[id];
    if id !in s'.devs[w].db.outbox {
      assert Delivered(s.devs[w].db, c);
      forall p | p in s.devs && p != w
        ensures Cursor(s'.devs[w], p, t) >= c.ts
      {
        assert p in s.devs[w].db.known;
      }
    } else {
      assert s'.devs[w].db.outbox[id] == c;
    }
  }

  /** An entry of the table leaves the writer's outbox only for a newer one, or once every peer has it. */
  lemma EntryReached(s: Net, ev: Event, s': Net, t: TableName, w: DeviceId, x: int)
    requires Inv(s, t, w) && Step(s, ev, s') && HasEntry(s, t, w, x)
    ensures w in s'.devs && Reached(s', t, w, x)
  {
    var id :| id in s.devs[w].db.outbox && s.devs[w].db.outbox[id].table == t && s.devs[w].db.outbox[id].ts >= x;
    if ev.d == w && (ev.CompactEv? || ev.SendEv?) {
      CompactedReached(s, s', t, w, ev.after, id);
    } else if ev.d == w && ev.PruneEv? {
      PrunedReached(s, s', t, w, id);
    } else {
      EntryStays(s, ev, s', t, w, id);
    }
  }

  lemma CompactedReached(s: Net, s': Net, t: TableName, w: DeviceId, after: map<ChangeId, Change>, id: ChangeId)
    requires Inv(s, t, w) && w in s'.devs && s'.devs[w].db.outbox == after
    requires IsCompaction(w, s.devs[w].db.outbox, after)
    requires id in s.devs[w].db.outbox && s.devs[w].db.outbox[id].table == t
    ensures HasEntry(s', t, w, s.devs[w].db.outbox[id].ts)
  {
    var c := s.devs[w].db.outbox[id];
    assert IsIssued(s, c) && IssuedByWriter(s, w, s.issued[c.id]);
    var v :| KeptFor(w, after, c, v);
    assert after[v].table == t;
  }

  lemma TopKeptStep(s: Net, ev: Event, s': Net, t: TableName, w: DeviceId)
    requires Inv(s, t, w) && Step(s, ev, s') && SingleWriter(ev, t, w) && QuietReceipt(s, ev, t, w)
    requires NoLowering(s, ev, t, w) && TopKept(s, t, w)
    ensures TopKept(s', t, w)
  {
    StepCursorsRise(s, ev, s', t, w);
    forall k | k in s'.latest && k.table == t
      ensures Reached(s', t, w, s'.latest[k].ts)
    {
      if k in s.latest && s'.latest[k] == s.latest[k] {
        var x := s.latest[k].ts;
        assert Reached(s, t, w, x);
        if HasEntry(s, t, w, x) { EntryReached(s, ev, s', t, w, x); }
      } else {
        LatestIsRecorded(s, ev, s', t, w, k);
      }
    }
  }

  lemma LatestIsRecorded(s: Net, ev: Event, s': Net, t: TableName, w: DeviceId, k: Key)
    requires Inv(s, t, w) && Step(s, ev, s') && SingleWriter(ev, t, w) && QuietReceipt(s, ev, t, w)
    requires k in s'.latest && k.table == t && !(k in s.latest && s'.latest[k] == s.latest[k])
    ensures w in s'.devs && HasEntry(s', t, w, s'.latest[k].ts)
  {
    if ev.DeliverEv? {
      LatestIsEcho(s, ev, s', t, w, k);
    } else {
      assert ev.RecordEv? && s'.latest[k] == ev.c && ev.d == w;
      assert ev.c.id in s'.devs[w].db.outbox;
    }
  }

  lemma LatestIsEcho(s: Net, ev: Event, s': Net, t: TableName, w: DeviceId, k: Key)
    requires Inv(s, t, w) && Step(s, ev, s') && ev.DeliverEv? && QuietReceipt(s, ev, t, w)
    requires k in s'.latest && k.table == t && !(k in s.latest && s'.latest[k] == s.latest[k])
    ensures w in s'.devs && HasEntry(s', t, w, s'.latest[k].ts)
  {
    DeliverKeepsInv(s, ev, s', t, w);
    DeliveryIsBatch(s, ev, s');
    var m := On(s, Link(ev.src, ev.d))[0];
    if m.Batch? {
      LatestOfBatch(s, s', ev.d, ev.src, m.cs, EchoAll(s.devs[ev.d], m.cs, ev.ids), t, w, k);
    }
  }

  lemma LatestOfBatch(s: Net, s': Net, d: DeviceId, src: DeviceId, cs: seq<Change>, es: seq<Change>,
                      t: TableName, w: DeviceId, k: Key)
    requires BatchDelivered(s, s', d, src, cs, es) && EchoesAllowed(s, d, es, t, w) && LatestOk(s', t)
    requires k in s'.latest && k.table == t && !(k in s.latest && s'.latest[k] == s.latest[k])
    ensures w in s'.devs && HasEntry(s', t, w, s'.latest[k].ts)
  {
    LatestGrows(s, es);
    var c := s'.latest[k];
    assert c.RowKey() == k && c in es;
    assert s'.devs[w].db.outbox[c.id] == c;
  }

  /** In such runs the exact condition for a start to keep the protocol invariant is one on the writer's
      database before it: the outbox maximum is at or above every cursor for the table. */
  lemma BootKeepsInvIffCursors(s: Net, s': Net, m: int, t: TableName, w: DeviceId, peer: DeviceId)
    requires Inv(s, t, w) && TopKept(s, t, w) && Step(s, BootEv(w, m), s')
    requires peer in s.devs && peer != w
    ensures Inv(s', t, w) <==> 0 <= m && CursorsReached(s, t, w, m)
  {
    BootKeepsInvIff(s, s', m, t, w);
    if Reaches(s, t, m) {
      forall p | p in s.devs && p != w
        ensures m >= Cursor(s.devs[w], p, t)
      {
        assert CursorOk(s, t, w, w, p) && Known(s, t, Cursor(s.devs[w], p, t));
      }
    }
    if CursorsReached(s, t, w, m) {
      forall k | k in s.latest && k.table == t
        ensures s.latest[k].ts <= m
      {
        assert Reached(s, t, w, s.latest[k].ts);
        assert m >= Cursor(s.devs[w], peer, t);
      }
    }
  }

  /** A step of a run with starts: one writer, quiet receipts, no lowered cursor, and starts of the writer
      only from an outbox whose maximum reaches its cursors. */
  ghost predicate StartsReached(s: Net, ev: Event, t: TableName, w: DeviceId) {
    && SingleWriter(ev, t, w) && QuietReceipt(s, ev, t, w) && NoLowering(s, ev, t, w)
    && (ev.BootEv? && ev.d == w && w in s.devs ==> 0 <= ev.m && CursorsReached(s, t, w, ev.m))
  }

  lemma {:induction false} RunWithStarts(ss: seq<Net>, evs: seq<Event>, t: TableName, w: DeviceId, peer: DeviceId,
                                         i: nat)
    requires IsRun(ss, evs) && Regime(ss[0], w) && peer in ss[0].devs && peer != w && i <= |evs|
    requires forall j :: 0 <= j < |evs| ==> StartsReached(ss[j], evs[j], t, w)
    ensures Inv(ss[i], t, w) && TopKept(ss[i], t, w) && peer in ss[i].devs
  {
    if i == 0 {
      InitInv(ss[0], t, w);
    } else {
      RunWithStarts(ss, evs, t, w, peer, i - 1);
      var s, ev, s' := ss[i - 1], evs[i - 1], ss[i];
      assert Step(s, ev, s') && StartsReached(s, ev, t, w);
      if ev.BootEv? && ev.d == w {
        BootKeepsInvIffCursors(s, s', ev.m, t, w, peer);
        BootKeepsInvIff(s, s', ev.m, t, w);
      }
      StepKeepsInv(s, ev, s', t, w);
      TopKeptStep(s, ev, s', t, w);
    }
  }

  /** No update is lost across starts whose outbox maximum reaches the writer's cursors. */
  lemma NoUpdateLostAcrossStarts(ss: seq<Net>, evs: seq<Event>, t: TableName, w: DeviceId, peer: DeviceId, i: nat)
    requires IsRun(ss, evs) && Regime(ss[0], w) && peer in ss[0].devs && peer != w && i <= |evs|
    requires forall j :: 0 <= j < |evs| ==> StartsReached(ss[j], evs[j], t, w)
    ensures AllSafe(ss[i], t, w)
  {
    RunWithStarts(ss, evs, t, w, peer, i);
    forall p, k | p in ss[i].devs && p != w && k in ss[i].latest && k.table == t
      ensures HasOrPending(ss[i], t, w, p, ss[i].latest[k])
    {
      InvKeepsLatest(ss[i], t, w, p, k);
    }
  }
}
