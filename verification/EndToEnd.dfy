/** From the writer's outbox to the peer's table: for a single-writer table that only its writer captures, and
    well-formed payloads, a peer shows exactly the last change of every row it has been told of. */
module EndToEnd {
  import opened SyncTypes
  import opened Materializer
  import opened EngineSpec
  import opened Receipt
  import opened Network
  import opened NoLostUpdate
  import C = Convergence

  /** A newest entry of row `k`. */
  ghost predicate TopEntry(outbox: map<ChangeId, Change>, k: Key, id: ChangeId) {
    && id in outbox && outbox[id].RowKey() == k
    && forall j :: j in outbox && outbox[j].RowKey() == k ==> outbox[j].ts <= outbox[id].ts
  }

  predicate HasEntryOf(outbox: map<ChangeId, Change>, k: Key) { exists id :: id in outbox && outbox[id].RowKey() == k }

  /** The row shows the newest change to it that the outbox records, and is absent if there is none. */
  ghost predicate RowMirrors(db: Db, k: Key) {
    && k !in db.store.tombs
    && (!HasEntryOf(db.outbox, k) ==> k !in db.store.rows)
    && forall id :: TopEntry(db.outbox, k, id) ==> C.Shows(db.store, k, db.outbox[id])
  }

  ghost predicate Mirrors(db: Db, t: TableName) { forall k: Key :: k.table == t ==> RowMirrors(db, k) }

  /** What the theorems ask of a step beyond the regime of `NoLostUpdate`: payloads are full records stamped
      no later than their change, and only the writer's application writes the table. */
  ghost predicate Clean(s: Net, ev: Event, t: TableName, w: DeviceId) {
    && InRegime(s, ev, t, w)
    && (ev.RecordEv? && ev.c.table == t ==> C.GoodChange(ev.c))
    && (ev.AppWriteEv? && ev.d in s.devs && ev.d != w ==> SameTable(s.devs[ev.d].db.store, ev.store, t))
  }

  predicate SameTable(st: Store, st': Store, t: TableName) {
    && (forall k :: k in st.rows && k.table == t ==> k in st'.rows && st'.rows[k] == st.rows[k])
    && (forall k :: k in st'.rows && k.table == t ==> k in st.rows)
    && (forall k :: k in st'.tombs && k.table == t ==> k in st.tombs)
  }

  predicate SameEntries(out: map<ChangeId, Change>, out': map<ChangeId, Change>, t: TableName) {
    && (forall id :: id in out && out[id].table == t ==> id in out' && out'[id] == out[id])
    && (forall id :: id in out' && out'[id].table == t ==> id in out && out[id] == out'[id])
  }

  lemma MirrorsFrame(db: Db, db': Db, t: TableName)
    requires Mirrors(db, t) && SameTable(db.store, db'.store, t) && SameEntries(db.outbox, db'.outbox, t)
    ensures Mirrors(db', t)
  {
    forall k: Key | k.table == t
      ensures RowMirrors(db', k)
    {
      assert RowMirrors(db, k);
      if !HasEntryOf(db'.outbox, k) { assert !HasEntryOf(db.outbox, k); }
      forall id | TopEntry(db'.outbox, k, id)
        ensures C.Shows(db'.store, k, db'.outbox[id])
      {
        assert TopEntry(db.outbox, k, id);
      }
    }
  }

  // ---- One received change ----------------------------------------------------------------------

  /** Entries are well-formed, carry their own ids, and `c` is the only change of its row with its stamp. */
  ghost predicate Fits(outbox: map<ChangeId, Change>, c: Change, t: TableName) {
    forall id :: id in outbox ==>
      && (outbox[id].table == t ==> C.GoodChange(outbox[id]))
      && (outbox[id].RowKey() == c.RowKey() && outbox[id].ts == c.ts ==> outbox[id] == c)
      && (id == c.id ==> outbox[id] == c)
  }

  lemma ApplyMirrors(r: Replica, c: Change, t: TableName)
    requires Mirrors(r.db, t) && C.GoodChange(c) && c.table == t && Fits(r.db.outbox, c, t)
    ensures Mirrors(ApplyOne(r, c).db, t)
  {
    if Dominated(r.me, r.db.outbox, c) {
      MirrorsFrame(r.db, ApplyOne(r, c).db, t);
    } else {
      var db, db', k0 := r.db, ApplyOne(r, c).db, c.RowKey();
      AppliedShows(r, c, t);
      forall k: Key | k.table == t
        ensures RowMirrors(db', k)
      {
        assert RowMirrors(db, k);
        if k == k0 {
          assert c.id in db'.outbox && db'.outbox[c.id] == c;
          forall id | TopEntry(db'.outbox, k, id)
            ensures db'.outbox[id] == c
          {
            assert db'.outbox[id].ts >= c.ts;
          }
        } else {
          OtherRowMirrors(db, db', c, k);
        }
      }
    }
  }

  lemma OtherRowMirrors(db: Db, db': Db, c: Change, k: Key)
    requires RowMirrors(db, k) && k != c.RowKey() && db'.outbox == db.outbox[c.id := c]
    requires c.id in db.outbox ==> db.outbox[c.id] == c
    requires db'.store.tombs == db.store.tombs && (k in db'.store.rows <==> k in db.store.rows)
    requires k in db.store.rows ==> db'.store.rows[k] == db.store.rows[k]
    ensures RowMirrors(db', k)
  {
    if HasEntryOf(db.outbox, k) {
      var id :| id in db.outbox && db.outbox[id].RowKey() == k;
      assert id in db'.outbox && db'.outbox[id].RowKey() == k;
    }
    forall id | TopEntry(db'.outbox, k, id)
      ensures TopEntry(db.outbox, k, id) && db'.outbox[id] == db.outbox[id]
    {
      assert forall j :: j in db.outbox && db.outbox[j].RowKey() == k ==>
               j in db'.outbox && db'.outbox[j] == db.outbox[j];
    }
  }

  /** A change that no entry dominates is the newest to its row, and the materializer lets it through. */
  lemma AppliedShows(r: Replica, c: Change, t: TableName)
    requires Mirrors(r.db, t) && C.GoodChange(c) && c.table == t && Fits(r.db.outbox, c, t)
    requires !Dominated(r.me, r.db.outbox, c)
    ensures C.Shows(ApplyOne(r, c).db.store, c.RowKey(), c)
  {
    var k := c.RowKey();
    assert RowMirrors(r.db, k);
    LessIrreflexive(c.dev);
    if k in r.db.store.rows && !c.op.Delete? {
      var id := TopOf(r.db.outbox, k);
      var m := r.db.outbox[id];
      assert C.Shows(r.db.store, k, m) && m.ts <= c.ts;
      assert m.ts == c.ts ==> m == c;
    }
  }

  lemma TopOf(outbox: map<ChangeId, Change>, k: Key) returns (id: ChangeId)
    requires HasEntryOf(outbox, k)
    ensures TopEntry(outbox, k, id)
  {
    id := TopAmong(outbox, outbox.Keys, k);
  }

  lemma {:induction false} TopAmong(outbox: map<ChangeId, Change>, ids: set<ChangeId>, k: Key) returns (top: ChangeId)
    requires ids <= outbox.Keys && exists id :: id in ids && outbox[id].RowKey() == k
    ensures top in ids && outbox[top].RowKey() == k
    ensures forall j :: j in ids && outbox[j].RowKey() == k ==> outbox[j].ts <= outbox[top].ts
    decreases ids
  {
    top :| top in ids && outbox[top].RowKey() == k;
    var rest := ids - {top};
    if exists id :: id in rest && outbox[id].RowKey() == k {
      var other := TopAmong(outbox, rest, k);
      assert ids == rest + {top};
      if outbox[other].ts > outbox[top].ts { top := other; }
    }
  }

  // ---- Batches --------------------------------------------------------------------------------------

  ghost predicate AllGood(s: Net, t: TableName) {
    forall id :: id in s.issued && s.issued[id].table == t ==> C.GoodChange(s.issued[id])
  }

  /** What is received at a device other than the writer is captured, if at all, in other tables. */
  ghost predicate EchoesElsewhere(es: seq<Change>, t: TableName) { forall e :: e in es ==> e.table != t }

  lemma {:induction false} BatchMirrors(issued: map<ChangeId, Change>, t: TableName, r: Replica, cs: seq<Change>,
                                        ids: seq<TriggerIds>)
    requires |ids| == |cs| && Identified(issued, r, cs, EchoAll(r, cs, ids)) && OneTick(issued, t)
    requires Mirrors(r.db, t) && EchoesElsewhere(EchoAll(r, cs, ids), t)
    ensures Mirrors(FireAll(r, cs, ids).db, t)
  {
    if cs != [] {
      var n := |cs| - 1;
      var front, mid := EchoAll(r, cs[..n], ids[..n]), FireAll(r, cs[..n], ids[..n]);
      var echo := EchoOne(mid, cs[n], ids[n]);
      IdentifiedFront(issued, r, cs, front, echo);
      assert forall e :: e in front ==> e in EchoAll(r, cs, ids);
      assert forall e :: e in echo ==> e in EchoAll(r, cs, ids);
      BatchMirrors(issued, t, r, cs[..n], ids[..n]);
      FireAllTook(issued, r, cs[..n], ids[..n]);
      assert cs[n] in cs;
      ChangeMirrors(issued, t, r, cs[..n], front, mid, cs[n], ids[n]);
    }
  }

  /** Changes of the table are well-formed, and no two to one row share a stamp. */
  ghost predicate OneTick(issued: map<ChangeId, Change>, t: TableName) {
    && (forall id :: id in issued && issued[id].table == t ==> C.GoodChange(issued[id]))
    && (forall i, j :: i in issued && j in issued && SameTick(issued[i], issued[j], t) ==> i == j)
  }

  lemma ChangeMirrors(issued: map<ChangeId, Change>, t: TableName, r: Replica, cs: seq<Change>, es: seq<Change>,
                      mid: Replica, c: Change, ids: TriggerIds)
    requires Identified(issued, r, cs, es) && Took(r.db.outbox, cs, es, mid.db.outbox) && OneTick(issued, t)
    requires EchoesElsewhere(es, t) && EchoesElsewhere(EchoOne(mid, c, ids), t)
    requires Mirrors(mid.db, t) && c.id in issued && issued[c.id] == c
    requires DistinctIds(EchoOne(mid, c, ids)) && forall e :: e in EchoOne(mid, c, ids) ==> e.id !in issued
    requires forall e, x :: e in EchoOne(mid, c, ids) && x in es ==> e.id != x.id
    ensures Mirrors(FireOne(mid, c, ids).db, t)
  {
    MidIds(issued, r, cs, es, mid.db.outbox);
    if c.table == t {
      NoEchoOfTable(mid, c, ids, t);
      EchoOneIff(mid, c, ids);
      forall id | id in mid.db.outbox && mid.db.outbox[id].RowKey() == c.RowKey() && mid.db.outbox[id].ts == c.ts
        ensures mid.db.outbox[id] == c
      {
        assert SameTick(issued[id], issued[c.id], t);
      }
      assert Fits(mid.db.outbox, c, t);
      ApplyMirrors(mid, c, t);
    } else {
      OtherTable(mid, c, ids, t);
    }
  }

  lemma NoEchoOfTable(r: Replica, c: Change, ids: TriggerIds, t: TableName)
    requires c.table == t && EchoesElsewhere(EchoOne(r, c, ids), t)
    ensures EchoOne(r, c, ids) == []
  {
    assert forall i :: 0 <= i < |EchoOne(r, c, ids)| ==> EchoOne(r, c, ids)[i] in EchoOne(r, c, ids);
    EchoOneStamps(r, c, ids);
  }

  /** A change of another table, captured or not, leaves rows, tombstones and entries of the table alone. */
  lemma OtherTable(r: Replica, c: Change, ids: TriggerIds, t: TableName)
    requires Mirrors(r.db, t) && c.table != t && (c.id in r.db.outbox ==> r.db.outbox[c.id] == c)
    requires DistinctIds(EchoOne(r, c, ids)) && EchoesElsewhere(EchoOne(r, c, ids), t)
    requires forall e :: e in EchoOne(r, c, ids) ==> e.id !in r.db.outbox && e.id != c.id
    ensures Mirrors(FireOne(r, c, ids).db, t)
  {
    FireOneOutbox(r, c, ids);
    if !Dominated(r.me, r.db.outbox, c) { AddAllHas(r.db.outbox[c.id := c], EchoOne(r, c, ids)); }
    OtherTableStore(r, c, ids, t);
    MirrorsFrame(r.db, FireOne(r, c, ids).db, t);
  }

  lemma OtherTableStore(r: Replica, c: Change, ids: TriggerIds, t: TableName)
    requires c.table != t
    ensures SameTable(r.db.store, FireOne(r, c, ids).db.store, t)
  {
    if !c.op.Delete? && c.data.Record? { FireUpsert(Entered(r, c), c, ids); }
  }

  // ---- Steps and runs ---------------------------------------------------------------------------------

  ghost predicate PeersMirror(s: Net, t: TableName, w: DeviceId) {
    forall d :: d in s.devs && d != w ==> Mirrors(s.devs[d].db, t)
  }

  ghost predicate EndInv(s: Net, t: TableName, w: DeviceId) {
    Inv(s, t, w) && AllGood(s, t) && PeersMirror(s, t, w)
  }

  /** Own entries of a device other than the writer are of other tables, so what it compacts or prunes is. */
  lemma OthersOwnElsewhere(s: Net, t: TableName, w: DeviceId, d: DeviceId, id: ChangeId)
    requires Inv(s, t, w) && d in s.devs && d != w && id in s.devs[d].db.outbox && s.devs[d].db.outbox[id].table == t
    ensures s.devs[d].db.outbox[id].dev != s.devs[d].me
  {
    assert IsIssued(s, s.devs[d].db.outbox[id]);
    assert IssuedByWriter(s, w, s.issued[id]);
  }

  lemma QuietPeer(s: Net, ev: Event, s': Net, t: TableName, w: DeviceId, d: DeviceId)
    requires EndInv(s, t, w) && Step(s, ev, s') && Clean(s, ev, t, w) && !ev.DeliverEv? && d in s.devs && d != w
    ensures d in s'.devs && Mirrors(s'.devs[d].db, t)
  {
    forall id | id in s.devs[d].db.outbox && s.devs[d].db.outbox[id].table == t
      ensures s.devs[d].db.outbox[id].dev != s.devs[d].me && id in s.issued
    {
      OthersOwnElsewhere(s, t, w, d, id);
      assert IsIssued(s, s.devs[d].db.outbox[id]);
    }
    QuietEntries(s, ev, s', t, w, d);
    QuietStore(s, ev, s', t, w, d);
    MirrorsFrame(s.devs[d].db, s'.devs[d].db, t);
  }

  lemma QuietEntries(s: Net, ev: Event, s': Net, t: TableName, w: DeviceId, d: DeviceId)
    requires Step(s, ev, s') && SingleWriter(ev, t, w) && !ev.DeliverEv? && d in s.devs && d != w
    requires forall id :: id in s.devs[d].db.outbox && s.devs[d].db.outbox[id].table == t ==>
               s.devs[d].db.outbox[id].dev != s.devs[d].me && id in s.issued
    ensures d in s'.devs && SameEntries(s.devs[d].db.outbox, s'.devs[d].db.outbox, t)
  {
  }

  lemma QuietStore(s: Net, ev: Event, s': Net, t: TableName, w: DeviceId, d: DeviceId)
    requires Step(s, ev, s') && Clean(s, ev, t, w) && !ev.DeliverEv? && d in s.devs && d != w
    ensures d in s'.devs && SameTable(s.devs[d].db.store, s'.devs[d].db.store, t)
  {
  }

  lemma DeliveryMirrors(s: Net, ev: Event, s': Net, t: TableName, w: DeviceId, d: DeviceId)
    requires EndInv(s, t, w) && Step(s, ev, s') && Clean(s, ev, t, w) && ev.DeliverEv? && d in s.devs && d != w
    ensures d in s'.devs && Mirrors(s'.devs[d].db, t)
  {
    DeliveryIsBatch(s, ev, s');
    var m := On(s, Link(ev.src, ev.d))[0];
    if m.Batch? {
      var es := EchoAll(s.devs[ev.d], m.cs, ev.ids);
      IssueAllFacts(s, es);
      if ev.d == d {
        BatchIdentified(s, d, ev.src, m.cs, es);
        BatchMirrors(s.issued, t, s.devs[d], m.cs, ev.ids);
        MirrorsFrame(FireAll(s.devs[d], m.cs, ev.ids).db, s'.devs[d].db, t);
      }
    }
  }

  lemma EndStep(s: Net, ev: Event, s': Net, t: TableName, w: DeviceId)
    requires EndInv(s, t, w) && Step(s, ev, s') && Clean(s, ev, t, w)
    ensures EndInv(s', t, w)
  {
    StepKeepsInv(s, ev, s', t, w);
    forall d | d in s'.devs && d != w
      ensures Mirrors(s'.devs[d].db, t)
    {
      if ev.DeliverEv? { DeliveryMirrors(s, ev, s', t, w, d); } else { QuietPeer(s, ev, s', t, w, d); }
    }
    StepGood(s, ev, s', t, w);
  }

  /** What is captured of a well-formed change is well-formed. */
  lemma {:induction false} CapturedGood(r: Replica, cs: seq<Change>, ids: seq<TriggerIds>, t: TableName)
    requires |ids| == |cs| && forall c :: c in cs && c.table == t ==> C.GoodChange(c)
    ensures forall e :: e in EchoAll(r, cs, ids) && e.table == t ==> C.GoodChange(e)
  {
    if cs != [] {
      var n := |cs| - 1;
      CapturedGood(r, cs[..n], ids[..n], t);
      EchoGood(FireAll(r, cs[..n], ids[..n]), cs[n], ids[n], t);
    }
  }

  lemma EchoGood(r: Replica, c: Change, ids: TriggerIds, t: TableName)
    requires c.table == t ==> C.GoodChange(c)
    ensures forall e :: e in EchoOne(r, c, ids) && e.table == t ==> C.GoodChange(e)
  {
    EchoOneStamps(r, c, ids);
  }

  lemma EchoesGood(s: Net, ev: Event, s': Net, t: TableName, w: DeviceId)
    requires EndInv(s, t, w) && Step(s, ev, s') && ev.DeliverEv?
    ensures AllGood(s', t)
  {
    DeliveryIsBatch(s, ev, s');
    var m := On(s, Link(ev.src, ev.d))[0];
    if m.Batch? {
      IssueAllFacts(s, EchoAll(s.devs[ev.d], m.cs, ev.ids));
      assert m in On(s, Link(ev.src, ev.d));
      assert forall c :: c in m.cs ==> IsIssued(s, c);
      CapturedGood(s.devs[ev.d], m.cs, ev.ids, t);
    }
  }

  lemma StepGood(s: Net, ev: Event, s': Net, t: TableName, w: DeviceId)
    requires EndInv(s, t, w) && Step(s, ev, s') && Clean(s, ev, t, w)
    ensures AllGood(s', t)
  {
    if ev.DeliverEv? { EchoesGood(s, ev, s', t, w); }
  }

  /** Rows whose last change a peer records are shown as that change leaves them. */
  lemma HeldIsShown(s: Net, t: TableName, w: DeviceId, p: DeviceId, k: Key)
    requires EndInv(s, t, w) && p in s.devs && p != w && k in s.latest && k.table == t
    requires Holds(s.devs[p].db.outbox, s.latest[k])
    ensures C.Visible(s.devs[p].db.store, k) == C.Effect(s.latest[k])
  {
    var last, out := s.latest[k], s.devs[p].db.outbox;
    assert last.RowKey() == k && IsIssued(s, last);
    SameRowLatest(s, t, w, p, last);
    forall j | j in out && out[j].RowKey() == k
      ensures out[j].ts <= last.ts
    {
      assert IsIssued(s, out[j]) && IssuedByWriter(s, w, s.issued[j]);
    }
    assert TopEntry(out, k, last.id) && RowMirrors(s.devs[p].db, k);
  }

  /** The peers start without rows of the table. */
  ghost predicate BlankPeers(s: Net, t: TableName, w: DeviceId) {
    forall d, k: Key :: d in s.devs && d != w && k.table == t ==>
        k !in s.devs[d].db.store.rows && k !in s.devs[d].db.store.tombs
  }

  lemma {:induction false} RunKeepsEndInv(ss: seq<Net>, evs: seq<Event>, t: TableName, w: DeviceId, i: nat)
    requires IsRun(ss, evs) && Regime(ss[0], w) && BlankPeers(ss[0], t, w) && i <= |evs|
    requires forall j :: 0 <= j < |evs| ==> Clean(ss[j], evs[j], t, w)
    ensures EndInv(ss[i], t, w)
  {
    if i == 0 {
      InitInv(ss[0], t, w);
    } else {
      RunKeepsEndInv(ss, evs, t, w, i - 1);
      assert Step(ss[i - 1], evs[i - 1], ss[i]) && Clean(ss[i - 1], evs[i - 1], t, w);
      EndStep(ss[i - 1], evs[i - 1], ss[i], t, w);
    }
  }

  /** End to end: in every state of every run, for every peer and every row of the table, the peer's table
      shows exactly what the row's last change makes of it, or the change is in the writer's outbox above the
      cursor, so that the next flush sends it. */
  lemma ShownOrPending(ss: seq<Net>, evs: seq<Event>, t: TableName, w: DeviceId, i: nat, p: DeviceId, k: Key)
    requires IsRun(ss, evs) && Regime(ss[0], w) && BlankPeers(ss[0], t, w) && i <= |evs|
    requires forall j :: 0 <= j < |evs| ==> Clean(ss[j], evs[j], t, w)
    requires p in ss[i].devs && p != w && k in ss[i].latest && k.table == t
    ensures w in ss[i].devs
    ensures var s, last := ss[i], ss[i].latest[k];
            || C.Visible(s.devs[p].db.store, k) == C.Effect(last)
            || (InOutbox(s, w, last) && last.ts > Cursor(s.devs[w], p, t))
  {
    RunKeepsEndInv(ss, evs, t, w, i);
    var s, last := ss[i], ss[i].latest[k];
    assert last.RowKey() == k && RowKept(s, w, last) && CursorOk(s, t, w, w, p);
    if Holds(s.devs[p].db.outbox, last) { HeldIsShown(s, t, w, p, k); }
  }

  lemma {:induction false} StretchKeepsEndInv(ss: seq<Net>, evs: seq<Event>, t: TableName, w: DeviceId, p: DeviceId,
                                              i: nat)
    requires Stretch(ss, evs, t, w, p) && EndInv(ss[0], t, w) && i <= |evs|
    requires forall j :: 0 <= j < |evs| ==> Clean(ss[j], evs[j], t, w)
    ensures EndInv(ss[i], t, w)
  {
    if i > 0 {
      StretchKeepsEndInv(ss, evs, t, w, p, i - 1);
      assert Step(ss[i - 1], evs[i - 1], ss[i]) && Clean(ss[i - 1], evs[i - 1], t, w);
      EndStep(ss[i - 1], evs[i - 1], ss[i], t, w);
    }
  }

  /** After a complete flush, whatever else happens short of cutting the link, once as many messages have
      been delivered as were on the link the peer's table shows every row the writer has not changed since
      as its last change leaves it. */
  lemma CaughtUpShows(ss: seq<Net>, evs: seq<Event>, t: TableName, w: DeviceId, p: DeviceId, i: nat, k: Key)
    requires Stretch(ss, evs, t, w, p) && EndInv(ss[0], t, w) && HeldOrInFlight(ss[0], t, w, p) && i <= |evs|
    requires forall j :: 0 <= j < |evs| ==> Clean(ss[j], evs[j], t, w)
    requires DeliveredFrom(evs, w, p, i) >= |On(ss[0], Link(w, p))|
    requires k.table == t && k in ss[0].latest && k in ss[i].latest && ss[i].latest[k] == ss[0].latest[k]
    ensures p in ss[i].devs && C.Visible(ss[i].devs[p].db.store, k) == C.Effect(ss[i].latest[k])
  {
    CatchUp(ss, evs, t, w, p, i);
    StretchKeepsEndInv(ss, evs, t, w, p, i);
    HeldIsShown(ss[i], t, w, p, k);
  }
}
