/** What acknowledgements and pruning achieve, as opposed to what they never break: after a flush has been
    delivered its last change is acknowledged, an acknowledged change is not sent again, and a change every
    known device has acknowledged is pruned. */
module Acknowledgements {
  import opened SyncTypes
  import opened Materializer
  import opened EngineSpec
  import opened Receipt
  import opened Network
  import opened NoLostUpdate

  // ---- The next prune ----------------------------------------------------------------------

  /** Device `d` has a cursor row for `p` and table `t` at `x` or above. */
  predicate CursorAt(s: Net, d: DeviceId, p: DeviceId, t: TableName, x: int) {
    d in s.devs && CursorKey(p, t) in s.devs[d].db.cursors && s.devs[d].db.cursors[CursorKey(p, t)] >= x
  }

  /** The event is the acknowledgement by `p` of an entry of table `t` of `d` stamped `x` or later. */
  predicate Reports(s: Net, ev: Event, d: DeviceId, p: DeviceId, t: TableName, x: int) {
    && ev.AckEv? && ev.d == d && ev.peer == p && d in s.devs && ev.id in s.devs[d].db.outbox
    && s.devs[d].db.outbox[ev.id].table == t && s.devs[d].db.outbox[ev.id].ts >= x
  }

  /** The event sets that cursor to less than `x`: a late acknowledgement, or a received batch of `p`'s changes. */
  predicate Undercuts(s: Net, ev: Event, d: DeviceId, p: DeviceId, t: TableName, x: int) {
    && ev.d == d && d in s.devs
    && (|| (ev.AckEv? && ev.peer == p && ev.id in s.devs[d].db.outbox
            && s.devs[d].db.outbox[ev.id].table == t && s.devs[d].db.outbox[ev.id].ts < x)
        || (ev.DeliverEv? && On(s, Link(ev.src, d)) != [] && On(s, Link(ev.src, d))[0].Batch?
            && CursorKey(p, t) in CursorKeys(On(s, Link(ev.src, d))[0].cs)
            && HighWater(On(s, Link(ev.src, d))[0].cs, CursorKey(p, t)) < x))
  }

  lemma CursorStep(s: Net, ev: Event, s': Net, d: DeviceId, p: DeviceId, t: TableName, x: int)
    requires Step(s, ev, s') && !Undercuts(s, ev, d, p, t, x)
    requires CursorAt(s, d, p, t, x) || Reports(s, ev, d, p, t, x)
    ensures CursorAt(s', d, p, t, x)
  {
    if ev.DeliverEv? { DeliveryCursor(s, ev, s', d, p, t, x); }
  }

  lemma DeliveryCursor(s: Net, ev: Event, s': Net, d: DeviceId, p: DeviceId, t: TableName, x: int)
    requires Step(s, ev, s') && ev.DeliverEv? && !Undercuts(s, ev, d, p, t, x) && CursorAt(s, d, p, t, x)
    ensures CursorAt(s', d, p, t, x)
  {
    var m := On(s, Link(ev.src, ev.d))[0];
    if m.Batch? { IssueAllFrame(s, EchoAll(s.devs[ev.d], m.cs, ev.ids)); }
  }

  /** The event keeps the cursor where it is, or puts it there. */
  ghost predicate CursorKept(s: Net, ev: Event, s': Net, d: DeviceId, p: DeviceId, t: TableName, x: int) {
    CursorAt(s, d, p, t, x) || Reports(s, ev, d, p, t, x) ==> CursorAt(s', d, p, t, x)
  }

  lemma {:induction false} CursorAlong(ss: seq<Net>, evs: seq<Event>, j: nat, i: nat, d: DeviceId, p: DeviceId,
                                       t: TableName, x: int)
    requires |ss| == |evs| + 1 && j < i <= |evs| && Reports(ss[j], evs[j], d, p, t, x)
    requires forall n :: j <= n < i ==> CursorKept(ss[n], evs[n], ss[n + 1], d, p, t, x)
    ensures CursorAt(ss[i], d, p, t, x)
    decreases i
  {
    var n := i - 1;
    if j < n { CursorAlong(ss, evs, j, n, d, p, t, x); }
    assert CursorKept(ss[n], evs[n], ss[n + 1], d, p, t, x);
  }

  lemma CursorStays(ss: seq<Net>, evs: seq<Event>, j: nat, i: nat, d: DeviceId, p: DeviceId, t: TableName, x: int)
    requires IsPiece(ss, evs) && j < i <= |evs| && Reports(ss[j], evs[j], d, p, t, x)
    requires forall n :: j < n < i ==> !Undercuts(ss[n], evs[n], d, p, t, x)
    ensures CursorAt(ss[i], d, p, t, x)
  {
    forall n | j <= n < i
      ensures CursorKept(ss[n], evs[n], ss[n + 1], d, p, t, x)
    {
      if CursorAt(ss[n], d, p, t, x) || Reports(ss[n], evs[n], d, p, t, x) {
        CursorStep(ss[n], evs[n], ss[n + 1], d, p, t, x);
      }
    }
    CursorAlong(ss, evs, j, i, d, p, t, x);
  }

  /** Peer `p` has acknowledged an entry of the table stamped `x` or later, and nothing has lowered the cursor
      since. */
  ghost predicate ReportedBy(ss: seq<Net>, evs: seq<Event>, d: DeviceId, p: DeviceId, t: TableName, x: int, i: nat)
    requires IsPiece(ss, evs) && i <= |evs|
  {
    exists j :: 0 <= j < i && Reports(ss[j], evs[j], d, p, t, x)
                && forall n :: j < n < i ==> !Undercuts(ss[n], evs[n], d, p, t, x)
  }

  /** Once every known device has acknowledged an own entry, or a later one of its table, the next pruning
      removes it. */
  lemma AcknowledgedIsPruned(ss: seq<Net>, evs: seq<Event>, i: nat, d: DeviceId, c: Change)
    requires IsPiece(ss, evs) && i < |evs| && evs[i] == PruneEv(d) && d in ss[i].devs
    requires InOutbox(ss[i], d, c) && c.dev == ss[i].devs[d].me && ss[i].devs[d].db.known != {}
    requires forall p :: p in ss[i].devs[d].db.known ==> ReportedBy(ss, evs, d, p, c.table, c.ts, i)
    ensures d in ss[i + 1].devs && c.id !in ss[i + 1].devs[d].db.outbox
  {
    assert Step(ss[i], evs[i], ss[i + 1]);
    forall p | p in ss[i].devs[d].db.known
      ensures CursorAt(ss[i], d, p, c.table, c.ts)
    {
      assert ReportedBy(ss, evs, d, p, c.table, c.ts, i);
      var j :| 0 <= j < i && Reports(ss[j], evs[j], d, p, c.table, c.ts)
               && forall n :: j < n < i ==> !Undercuts(ss[n], evs[n], d, p, c.table, c.ts);
      CursorStays(ss, evs, j, i, d, p, c.table, c.ts);
    }
    PrunedIff(ss[i].devs[d], c.id);
  }

  // ---- After a flush ---------------------------------------------------------------------------

  /** The batch has been acknowledged, or is message `n` on the link. */
  predicate AckedOrAt(s: Net, src: DeviceId, dst: DeviceId, cs: seq<Change>, n: nat)
    requires cs != []
  {
    || Ack(dst, src, cs[|cs| - 1].id) in s.acks
    || (1 <= n <= |On(s, Link(src, dst))| && On(s, Link(src, dst))[n - 1] == Batch(cs))
  }

  lemma AckedStep(s: Net, ev: Event, s': Net, src: DeviceId, dst: DeviceId, cs: seq<Change>, n: nat, n': nat)
    requires Step(s, ev, s') && src != dst && ev != CutEv(src, dst) && cs != []
    requires AckedOrAt(s, src, dst, cs, n) && LeftAfter(ev, src, dst, n, n')
    ensures AckedOrAt(s', src, dst, cs, n')
  {
    LinkMoves(s, ev, s', src, dst);
    if Ack(dst, src, cs[|cs| - 1].id) !in s.acks && DeliversFrom(ev, src, dst) && n == 1 {
      assert On(s, Link(src, dst))[0] == Batch(cs);
      DeliveryAcks(s, ev, s', cs);
    }
  }

  lemma DeliveryAcks(s: Net, ev: Event, s': Net, cs: seq<Change>)
    requires Step(s, ev, s') && ev.DeliverEv? && cs != [] && On(s, Link(ev.src, ev.d)) != []
    requires On(s, Link(ev.src, ev.d))[0] == Batch(cs)
    ensures Ack(ev.d, ev.src, cs[|cs| - 1].id) in s'.acks
  {
  }

  /** The event takes the batch one message further. */
  ghost predicate AckedKept(s: Net, ev: Event, s': Net, src: DeviceId, dst: DeviceId, cs: seq<Change>)
    requires cs != []
  {
    forall n, n' :: AckedOrAt(s, src, dst, cs, n) && LeftAfter(ev, src, dst, n, n') ==> AckedOrAt(s', src, dst, cs, n')
  }

  lemma {:induction false} AckedAlong(ss: seq<Net>, evs: seq<Event>, src: DeviceId, dst: DeviceId, cs: seq<Change>,
                                      n: nat, i: nat)
    requires |ss| == |evs| + 1 && i <= |evs| && cs != [] && AckedOrAt(ss[0], src, dst, cs, n)
    requires forall j :: 0 <= j < |evs| ==> AckedKept(ss[j], evs[j], ss[j + 1], src, dst, cs)
    ensures AckedOrAt(ss[i], src, dst, cs, Left(evs, src, dst, n, i))
  {
    if i > 0 {
      var m := i - 1;
      AckedAlong(ss, evs, src, dst, cs, n, m);
      assert AckedKept(ss[m], evs[m], ss[m + 1], src, dst, cs);
      assert LeftAfter(evs[m], src, dst, Left(evs, src, dst, n, m), Left(evs, src, dst, n, i));
    }
  }

  lemma PieceKeepsAcked(ss: seq<Net>, evs: seq<Event>, src: DeviceId, dst: DeviceId, cs: seq<Change>, n: nat, i: nat)
    requires IsPiece(ss, evs) && i <= |evs| && src != dst && cs != [] && AckedOrAt(ss[0], src, dst, cs, n)
    requires forall j :: 0 <= j < |evs| ==> evs[j] != CutEv(src, dst)
    ensures AckedOrAt(ss[i], src, dst, cs, Left(evs, src, dst, n, i))
  {
    forall j | 0 <= j < |evs|
      ensures AckedKept(ss[j], evs[j], ss[j + 1], src, dst, cs)
    {
      forall m, m' | AckedOrAt(ss[j], src, dst, cs, m) && LeftAfter(evs[j], src, dst, m, m')
        ensures AckedOrAt(ss[j + 1], src, dst, cs, m')
      {
        AckedStep(ss[j], evs[j], ss[j + 1], src, dst, cs, m, m');
      }
    }
    AckedAlong(ss, evs, src, dst, cs, n, i);
  }

  /** After a complete flush, whatever else happens short of cutting the link, once as many messages have been
      delivered as were on it the peer has acknowledged the flush's last change. */
  lemma FlushIsAcknowledged(s: Net, d: DeviceId, p: DeviceId, after: map<ChangeId, Change>, all: seq<Change>,
                            ss: seq<Net>, evs: seq<Event>, i: nat)
    requires IsPiece(ss, evs) && i <= |evs| && all != []
    requires Step(s, SendEv(d, p, after, all, |Chunks(all, SEND_CHUNK)|), ss[0])
    requires forall j :: 0 <= j < |evs| ==> evs[j] != CutEv(d, p)
    requires DeliveredFrom(evs, d, p, i) >= |On(ss[0], Link(d, p))|
    ensures Ack(p, d, all[|all| - 1].id) in ss[i].acks
  {
    var n := |On(ss[0], Link(d, p))|;
    var cs := FlushEndsWith(s, d, p, after, all, ss[0]);
    PieceKeepsAcked(ss, evs, d, p, cs, n, i);
    LeftIs(evs, d, p, n, i);
  }

  /** The last message of a complete flush carries its last change last. */
  lemma FlushEndsWith(s: Net, d: DeviceId, p: DeviceId, after: map<ChangeId, Change>, all: seq<Change>, s': Net)
    returns (cs: seq<Change>)
    requires all != [] && Step(s, SendEv(d, p, after, all, |Chunks(all, SEND_CHUNK)|), s')
    ensures d != p && cs != [] && cs[|cs| - 1] == all[|all| - 1]
    ensures AckedOrAt(s', d, p, cs, |On(s', Link(d, p))|)
  {
    cs := LastMessage(On(s, Link(d, p)), all);
  }

  lemma LastMessage(before: seq<Message>, all: seq<Change>) returns (cs: seq<Change>)
    requires all != []
    ensures cs != [] && cs[|cs| - 1] == all[|all| - 1]
    ensures var chunks := Chunks(all, SEND_CHUNK);
            var msgs := before + Batches(chunks[..|chunks|]);
            |msgs| >= 1 && msgs[|msgs| - 1] == Batch(cs)
  {
    var chunks := Chunks(all, SEND_CHUNK);
    LastChunk(all, SEND_CHUNK);
    cs := chunks[|chunks| - 1];
    assert Batches(chunks[..|chunks|])[|chunks| - 1] == Batch(cs);
  }

  lemma LastChunk(all: seq<Change>, n: nat)
    requires n > 0 && all != []
    ensures var chunks := Chunks(all, n);
            chunks != [] && chunks[|chunks| - 1] != []
            && chunks[|chunks| - 1][|chunks[|chunks| - 1]| - 1] == all[|all| - 1]
  {
    var chunks := Chunks(all, n);
    ChunkCountBounds(all, n);
    ChunkAt(all, n, |chunks| - 1);
    assert (|chunks| - 1) * n == |chunks| * n - n;
  }

  /** Once that acknowledgement has been handled, nothing of the last change's table up to its timestamp is
      pending for the peer any more; what is pending of the table is newer. */
  lemma FlushIsSettled(s: Net, s': Net, d: DeviceId, p: DeviceId, id: ChangeId, cs: seq<Change>, c: Change)
    requires Step(s, AckEv(d, p, id), s') && d in s.devs && id in s.devs[d].db.outbox
    requires d in s'.devs && IsPending(s'.devs[d], p, cs) && c in cs && c.table == s.devs[d].db.outbox[id].table
    ensures c.ts > s.devs[d].db.outbox[id].ts
  {
    AckSettlesIff(s.devs[d], p, id, cs, c);
  }

  /** A batch is acknowledged by its last change alone, and an acknowledgement moves the cursor of one table: of
      what was pending for the peer, everything of other tables still is, and will be sent again and kept. */
  lemma OtherTablesStayPending(r: Replica, p: DeviceId, all: seq<Change>, after: seq<Change>, c: Change)
    requires all != [] && IsPending(r, p, all) && forall id :: id in r.db.outbox ==> r.db.outbox[id].id == id
    requires IsPending(AckFrom(r, p, all[|all| - 1].id), p, after)
    requires c in all && c.table != all[|all| - 1].table
    ensures c in after && (p in r.db.known ==> c.id in Prune(AckFrom(r, p, all[|all| - 1].id)).db.outbox)
  {
    var id := all[|all| - 1].id;
    assert all[|all| - 1] in all && r.db.outbox[id] == all[|all| - 1];
    assert r.db.outbox[c.id] == c;
    AckSettlesIff(r, p, id, after, c);
    AckMovesCursor(r, p, id, p, c.table);
    PrunedIff(AckFrom(r, p, id), c.id);
  }
}
