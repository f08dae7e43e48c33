/** No lost update: for a table with a single writer, whose changes no other device captures when it receives
    them, in every run of the network a row's last change stays in the writer's outbox above a peer's cursor
    until that peer records it. Cursor updates, pruning, compaction, relaying through other devices,
    reconciliation and cut links never break this; deliveries, transfers and starts that bootstrap the clock
    keep it under exact conditions. */
module NoLostUpdate {
  import opened SyncTypes
  import opened Materializer
  import opened EngineSpec
  import opened OutboxHook
  import opened Network
  import opened Receipt

  /** Only device `w` records changes to table `t`. */
  predicate SingleWriter(ev: Event, t: TableName, w: DeviceId) {
    ev.RecordEv? && ev.c.table == t ==> ev.d == w
  }

  /** A delivery captures no change of the table, except at the writer, as its own and through the triggers'
      clock. Other tables are free. */
  ghost predicate QuietReceipt(s: Net, ev: Event, t: TableName, w: DeviceId) {
    ev.DeliverEv? && ev.d in s.devs && On(s, Link(ev.src, ev.d)) != [] && On(s, Link(ev.src, ev.d))[0].Batch?
    && |ev.ids| == |On(s, Link(ev.src, ev.d))[0].cs|
    ==> EchoesAllowed(s, ev.d, EchoAll(s.devs[ev.d], On(s, Link(ev.src, ev.d))[0].cs, ev.ids), t, w)
  }

  /** The outbox maximum `m` reaches the last change of every row of the table. */
  ghost predicate Reaches(s: Net, t: TableName, m: int) {
    0 <= m && forall k :: k in s.latest && k.table == t ==> s.latest[k].ts <= m
  }

  /** What the invariant asks of a step: one writer, quiet receipts, and no start of the writer that
      bootstraps the clock to below the table's last changes. */
  ghost predicate InRegime(s: Net, ev: Event, t: TableName, w: DeviceId) {
    SingleWriter(ev, t, w) && QuietReceipt(s, ev, t, w) && (ev.BootEv? && ev.d == w ==> Reaches(s, t, ev.m))
  }

  /** The writer and every other device of the network is a known device of the writer. */
  ghost predicate Regime(s: Net, w: DeviceId) {
    && w in s.devs
    && (forall d :: d in s.devs ==> s.devs[d].me == d)
    && (forall d :: d in s.devs && d != w ==> d in s.devs[w].db.known)
    && Clock(s, w) >= 0
  }

  // ---- Well-formed histories -----------------------------------------------------------

  ghost predicate IssuedOk(s: Net, t: TableName, w: DeviceId)
    requires w in s.devs
  {
    && (forall id :: id in s.issued ==> s.issued[id].id == id)
    && (forall id :: id in s.issued && s.issued[id].table == t ==> IssuedByWriter(s, w, s.issued[id]))
    && (forall i, j :: i in s.issued && j in s.issued && SameTick(s.issued[i], s.issued[j], t) ==> i == j)
    && LatestOk(s, t)
  }

  ghost predicate LatestOk(s: Net, t: TableName) {
    forall k :: k in s.latest && k.table == t ==> s.latest[k].RowKey() == k && IsIssued(s, s.latest[k])
  }

  predicate SameTick(a: Change, b: Change, t: TableName) {
    a.table == t && b.table == t && a.ts == b.ts
  }

  ghost predicate IssuedByWriter(s: Net, w: DeviceId, c: Change)
    requires w in s.devs
  {
    c.dev == w && 1 <= c.ts <= Clock(s, w) && c.RowKey() in s.latest && c.ts <= s.latest[c.RowKey()].ts
  }

  predicate IsIssued(s: Net, c: Change) {
    c.id in s.issued && s.issued[c.id] == c
  }

  ghost predicate ContentsIssued(s: Net) {
    && (forall d, id :: d in s.devs && id in s.devs[d].db.outbox ==>
          IsIssued(s, s.devs[d].db.outbox[id]) && s.devs[d].db.outbox[id].id == id)
    && (forall l, m, c :: m in On(s, l) && m.Batch? && c in m.cs ==> IsIssued(s, c))
    && (forall a :: a in s.acks ==> a.id in s.issued)
  }

  // ---- What a device has been told ---------------------------------------------------------

  /** The writer itself, or a device recording a change to the row at least as new as `c`. */
  ghost predicate Held(s: Net, w: DeviceId, p: DeviceId, c: Change) {
    p == w || (p in s.devs && Holds(s.devs[p].db.outbox, c))
  }

  ghost predicate Carried(msgs: seq<Message>, c: Change) {
    exists m, e :: m in msgs && m.Batch? && e in m.cs && e.RowKey() == c.RowKey() && e.ts >= c.ts
  }

  /** Timestamp `x` is no greater than the table's latest. */
  ghost predicate Known(s: Net, t: TableName, x: int) {
    x <= 0 || exists k :: k in s.latest && k.table == t && x <= s.latest[k].ts
  }

  /** Device `p` holds the last change of every row whose last change is stamped at most `x`,
      or will once it has taken the messages `msgs`. */
  ghost predicate CoversWith(s: Net, t: TableName, w: DeviceId, p: DeviceId, x: int, msgs: seq<Message>)
    requires w in s.devs
  {
    Known(s, t, x)
    && forall k :: k in s.latest && k.table == t && s.latest[k].ts <= x ==>
         Held(s, w, p, s.latest[k]) || Carried(msgs, s.latest[k])
  }

  ghost predicate Covers(s: Net, t: TableName, w: DeviceId, p: DeviceId, x: int)
    requires w in s.devs
  {
    CoversWith(s, t, w, p, x, [])
  }

  ghost predicate MessageOk(s: Net, t: TableName, w: DeviceId, src: DeviceId, dst: DeviceId, m: Message,
                            upTo: seq<Message>)
    requires w in s.devs
  {
    match m
    case Batch(cs) => forall c :: c in cs && c.table == t ==> CoversWith(s, t, w, dst, c.ts, upTo)
    case CursorExchange(cursors) => t in cursors ==> Covers(s, t, w, src, cursors[t])
  }

  /** Delivering the messages in order never tells the receiver of a change before the changes below it. */
  ghost predicate LinkOk(s: Net, t: TableName, w: DeviceId, src: DeviceId, dst: DeviceId, msgs: seq<Message>)
    requires w in s.devs
  {
    forall i :: 0 <= i < |msgs| ==> MessageOk(s, t, w, src, dst, msgs[i], msgs[..i + 1])
  }

  ghost predicate CursorsOk(s: Net, t: TableName, w: DeviceId)
    requires w in s.devs
  {
    forall d, p :: d in s.devs && p in s.devs ==> CursorOk(s, t, w, d, p)
  }

  /** Device `d`'s cursor for `p` tells the truth about `p`, and about `d` itself. */
  ghost predicate CursorOk(s: Net, t: TableName, w: DeviceId, d: DeviceId, p: DeviceId)
    requires w in s.devs && d in s.devs
  {
    Covers(s, t, w, p, Cursor(s.devs[d], p, t)) && Covers(s, t, w, d, Cursor(s.devs[d], p, t))
  }

  ghost predicate OutboxesOk(s: Net, t: TableName, w: DeviceId)
    requires w in s.devs
  {
    forall d, id :: d in s.devs && id in s.devs[d].db.outbox ==> EntryOk(s, t, w, d, id)
  }

  ghost predicate EntryOk(s: Net, t: TableName, w: DeviceId, d: DeviceId, id: ChangeId)
    requires w in s.devs && d in s.devs && id in s.devs[d].db.outbox
  {
    s.devs[d].db.outbox[id].table == t ==> Covers(s, t, w, d, s.devs[d].db.outbox[id].ts)
  }

  ghost predicate AcksOk(s: Net, t: TableName, w: DeviceId)
    requires w in s.devs
  {
    forall a :: a in s.acks ==> AckOk(s, t, w, a)
  }

  ghost predicate AckOk(s: Net, t: TableName, w: DeviceId, a: Ack)
    requires w in s.devs
  {
    a.id in s.issued && s.issued[a.id].table == t ==> Covers(s, t, w, a.peer, s.issued[a.id].ts)
  }

  ghost predicate LinksOk(s: Net, t: TableName, w: DeviceId)
    requires w in s.devs
  {
    forall src, dst :: src in s.devs && dst in s.devs ==> LinkOk(s, t, w, src, dst, On(s, Link(src, dst)))
  }

  /** The last change of each row is in the writer's outbox unless every device holds it. */
  ghost predicate WriterOk(s: Net, t: TableName, w: DeviceId)
    requires w in s.devs
  {
    forall k :: k in s.latest && k.table == t ==> RowKept(s, w, s.latest[k])
  }

  ghost predicate RowKept(s: Net, w: DeviceId, c: Change)
    requires w in s.devs
  {
    InOutbox(s, w, c) || forall p :: p in s.devs ==> Held(s, w, p, c)
  }

  predicate InOutbox(s: Net, d: DeviceId, c: Change)
    requires d in s.devs
  {
    c.id in s.devs[d].db.outbox && s.devs[d].db.outbox[c.id] == c
  }

  ghost predicate Inv(s: Net, t: TableName, w: DeviceId) {
    && Regime(s, w)
    && IssuedOk(s, t, w)
    && ContentsIssued(s)
    && CursorsOk(s, t, w)
    && OutboxesOk(s, t, w)
    && AcksOk(s, t, w)
    && LinksOk(s, t, w)
    && WriterOk(s, t, w)
  }

  // ---- Monotonicity ---------------------------------------------------------------------

  /** What every step does to the facts above: nothing held is forgotten, and a row's last change is
      only replaced by one stamped past every change of the table. */
  ghost predicate Extends(s: Net, s': Net, t: TableName, w: DeviceId) {
    && w in s.devs && s.devs.Keys == s'.devs.Keys && s'.path == s.path
    && (forall d, c: Change :: d in s.devs && d != w && c.table == t && Holds(s.devs[d].db.outbox, c)
          ==> Holds(s'.devs[d].db.outbox, c))
    && (forall k :: k in s'.latest && k.table == t ==>
          (k in s.latest && s'.latest[k] == s.latest[k]) || PastAll(s, t, s'.latest[k].ts))
    && (forall k :: k in s.latest && k.table == t ==> k in s'.latest && s'.latest[k].ts >= s.latest[k].ts)
  }

  ghost predicate PastAll(s: Net, t: TableName, x: int) {
    x > 0 && forall k :: k in s.latest && k.table == t ==> s.latest[k].ts < x
  }

  lemma CoversMono(s: Net, s': Net, t: TableName, w: DeviceId, p: DeviceId, x: int, msgs: seq<Message>)
    requires Extends(s, s', t, w) && CoversWith(s, t, w, p, x, msgs)
    requires LatestOk(s, t)
    ensures CoversWith(s', t, w, p, x, msgs)
  {
    assert Known(s', t, x) by {
      if k :| k in s.latest && k.table == t && x <= s.latest[k].ts { assert x <= s'.latest[k].ts; }
    }
    forall k | k in s'.latest && k.table == t && s'.latest[k].ts <= x
      ensures Held(s', w, p, s'.latest[k]) || Carried(msgs, s'.latest[k])
    {
      assert !PastAll(s, t, s'.latest[k].ts);
      assert k in s.latest && s'.latest[k] == s.latest[k];
      assert s.latest[k].table == t;
    }
  }

  lemma CoversMore(s: Net, t: TableName, w: DeviceId, p: DeviceId, x: int, msgs: seq<Message>, more: seq<Message>)
    requires w in s.devs && CoversWith(s, t, w, p, x, msgs)
    requires forall m :: m in msgs ==> m in more
    ensures CoversWith(s, t, w, p, x, more)
  {
  }

  lemma LinkMono(s: Net, s': Net, t: TableName, w: DeviceId, src: DeviceId, dst: DeviceId, msgs: seq<Message>)
    requires Extends(s, s', t, w) && LinkOk(s, t, w, src, dst, msgs)
    requires LatestOk(s, t)
    ensures LinkOk(s', t, w, src, dst, msgs)
  {
    forall i | 0 <= i < |msgs|
      ensures MessageOk(s', t, w, src, dst, msgs[i], msgs[..i + 1])
    {
      assert MessageOk(s, t, w, src, dst, msgs[i], msgs[..i + 1]);
      match msgs[i]
      case Batch(cs) =>
        forall c | c in cs && c.table == t
          ensures CoversWith(s', t, w, dst, c.ts, msgs[..i + 1])
        {
          CoversMono(s, s', t, w, dst, c.ts, msgs[..i + 1]);
        }
      case CursorExchange(m) =>
        if t in m { CoversMono(s, s', t, w, src, m[t], []); }
    }
  }

  /** Appending messages that are fine after everything already on the link. */
  lemma LinkAppend(s: Net, t: TableName, w: DeviceId, src: DeviceId, dst: DeviceId, msgs: seq<Message>,
                   more: seq<Message>)
    requires w in s.devs && LinkOk(s, t, w, src, dst, msgs) && LinkOk(s, t, w, src, dst, more)
    ensures LinkOk(s, t, w, src, dst, msgs + more)
  {
    var all := msgs + more;
    forall i | 0 <= i < |all|
      ensures MessageOk(s, t, w, src, dst, all[i], all[..i + 1])
    {
      if i < |msgs| {
        assert all[..i + 1] == msgs[..i + 1];
        assert MessageOk(s, t, w, src, dst, msgs[i], msgs[..i + 1]);
      } else {
        var j := i - |msgs|;
        assert MessageOk(s, t, w, src, dst, more[j], more[..j + 1]);
        assert all[..i + 1] == msgs + more[..j + 1];
        match all[i]
        case Batch(cs) =>
          forall c | c in cs && c.table == t
            ensures CoversWith(s, t, w, dst, c.ts, all[..i + 1])
          {
            CoversMore(s, t, w, dst, c.ts, more[..j + 1], all[..i + 1]);
          }
        case CursorExchange(m) =>
      }
    }
  }

  /** The parts of the invariant that no step but a recording can disturb. */
  ghost predicate SameHistory(s: Net, s': Net, w: DeviceId) {
    && w in s.devs && s'.path == s.path && s'.issued == s.issued && s'.latest == s.latest && s'.devs.Keys == s.devs.Keys
    && Clock(s, w) <= Clock(s', w)
    && forall d :: d in s.devs ==> s'.devs[d].me == s.devs[d].me && s'.devs[d].db.known == s.devs[d].db.known
  }

  lemma HistoryFrame(s: Net, s': Net, t: TableName, w: DeviceId)
    requires Regime(s, w) && IssuedOk(s, t, w) && SameHistory(s, s', w)
    ensures Regime(s', w) && IssuedOk(s', t, w)
  {
    forall id | id in s'.issued && s'.issued[id].table == t
      ensures IssuedByWriter(s', w, s'.issued[id])
    {
      assert IssuedByWriter(s, w, s.issued[id]);
    }
  }

  // A step keeps each part of the invariant if whatever it adds to that part is covered.

  lemma CursorsStep(s: Net, s': Net, t: TableName, w: DeviceId)
    requires Extends(s, s', t, w) && LatestOk(s, t) && CursorsOk(s, t, w)
    requires forall d, p :: d in s.devs && p in s.devs ==>
               Cursor(s'.devs[d], p, t) == Cursor(s.devs[d], p, t) || CursorOk(s', t, w, d, p)
    ensures CursorsOk(s', t, w)
  {
    forall d, p | d in s'.devs && p in s'.devs
      ensures CursorOk(s', t, w, d, p)
    {
      if Cursor(s'.devs[d], p, t) == Cursor(s.devs[d], p, t) {
        assert CursorOk(s, t, w, d, p);
        CoversMono(s, s', t, w, p, Cursor(s.devs[d], p, t), []);
        CoversMono(s, s', t, w, d, Cursor(s.devs[d], p, t), []);
      }
    }
  }

  lemma OutboxesStep(s: Net, s': Net, t: TableName, w: DeviceId)
    requires Extends(s, s', t, w) && LatestOk(s, t) && OutboxesOk(s, t, w)
    requires forall d, id :: d in s.devs && id in s'.devs[d].db.outbox ==>
               OldEntry(s, s', d, id) || EntryOk(s', t, w, d, id)
    ensures OutboxesOk(s', t, w)
  {
    forall d, id | d in s'.devs && id in s'.devs[d].db.outbox
      ensures EntryOk(s', t, w, d, id)
    {
      if OldEntry(s, s', d, id) && s.devs[d].db.outbox[id].table == t {
        assert EntryOk(s, t, w, d, id);
        CoversMono(s, s', t, w, d, s.devs[d].db.outbox[id].ts, []);
      }
    }
  }

  predicate OldEntry(s: Net, s': Net, d: DeviceId, id: ChangeId)
    requires d in s.devs && d in s'.devs && id in s'.devs[d].db.outbox
  {
    id in s.devs[d].db.outbox && s.devs[d].db.outbox[id] == s'.devs[d].db.outbox[id]
  }

  lemma AcksStep(s: Net, s': Net, t: TableName, w: DeviceId)
    requires Extends(s, s', t, w) && LatestOk(s, t) && AcksOk(s, t, w)
    requires forall id :: id in s.issued ==> id in s'.issued && s'.issued[id] == s.issued[id]
    requires forall a :: a in s.acks ==> a.id in s.issued
    requires forall a :: a in s'.acks ==> a in s.acks || AckOk(s', t, w, a)
    ensures AcksOk(s', t, w)
  {
    forall a | a in s'.acks
      ensures AckOk(s', t, w, a)
    {
      if a in s.acks && s.issued[a.id].table == t {
        assert AckOk(s, t, w, a);
        CoversMono(s, s', t, w, a.peer, s.issued[a.id].ts, []);
      }
    }
  }

  lemma LinksStep(s: Net, s': Net, t: TableName, w: DeviceId)
    requires Extends(s, s', t, w) && LatestOk(s, t) && LinksOk(s, t, w)
    requires forall src, dst :: src in s.devs && dst in s.devs ==>
               On(s', Link(src, dst)) == On(s, Link(src, dst)) || LinkOk(s', t, w, src, dst, On(s', Link(src, dst)))
    ensures LinksOk(s', t, w)
  {
    forall src, dst | src in s'.devs && dst in s'.devs
      ensures LinkOk(s', t, w, src, dst, On(s', Link(src, dst)))
    {
      if On(s', Link(src, dst)) == On(s, Link(src, dst)) {
        LinkMono(s, s', t, w, src, dst, On(s, Link(src, dst)));
      }
    }
  }

  // ---- Recording ------------------------------------------------------------------------

  ghost predicate RecordEffect(s: Net, s': Net, d: DeviceId, c: Change) {
    && d in s.devs && c.id !in s.issued && c.dev == s.devs[d].me && c.ts == Clock(s, d) + 1
    && s' == AfterRecording(s, d, c)
  }

  lemma RecordIssued(s: Net, s': Net, d: DeviceId, c: Change, t: TableName, w: DeviceId)
    requires Regime(s, w) && IssuedOk(s, t, w) && RecordEffect(s, s', d, c) && (c.table == t ==> d == w)
    ensures Regime(s', w) && IssuedOk(s', t, w)
  {
    forall id | id in s'.issued && s'.issued[id].table == t
      ensures IssuedByWriter(s', w, s'.issued[id])
    {
      if id != c.id { assert IssuedByWriter(s, w, s.issued[id]); }
    }
    forall i, j | i in s'.issued && j in s'.issued && SameTick(s'.issued[i], s'.issued[j], t)
      ensures i == j
    {
      if i == c.id && j != c.id {
        assert IssuedByWriter(s, w, s.issued[j]);
      } else if j == c.id && i != c.id {
        assert IssuedByWriter(s, w, s.issued[i]);
      } else if i != c.id && j != c.id {
        assert SameTick(s.issued[i], s.issued[j], t);
      }
    }
    forall k | k in s'.latest && k.table == t
      ensures s'.latest[k].RowKey() == k && IsIssued(s', s'.latest[k])
    {
      if k != c.RowKey() { assert IsIssued(s, s.latest[k]); }
    }
  }

  lemma RecordContents(s: Net, s': Net, d: DeviceId, c: Change)
    requires ContentsIssued(s) && RecordEffect(s, s', d, c)
    ensures ContentsIssued(s')
  {
    assert forall l :: On(s', l) == On(s, l);
    assert forall x :: IsIssued(s, x) ==> IsIssued(s', x);
    assert IsIssued(s', c);
  }

  lemma RecordedPastAll(s: Net, t: TableName, w: DeviceId, c: Change)
    requires Regime(s, w) && IssuedOk(s, t, w) && c.ts == Clock(s, w) + 1
    ensures PastAll(s, t, c.ts)
  {
    forall k | k in s.latest && k.table == t
      ensures s.latest[k].ts < c.ts
    {
      assert s.latest[k].RowKey() == k && IsIssued(s, s.latest[k]);
      assert IssuedByWriter(s, w, s.issued[s.latest[k].id]);
    }
  }

  lemma RecordExtends(s: Net, s': Net, d: DeviceId, c: Change, t: TableName, w: DeviceId)
    requires Regime(s, w) && IssuedOk(s, t, w) && RecordEffect(s, s', d, c) && ContentsIssued(s)
    requires c.table == t ==> d == w
    ensures Extends(s, s', t, w)
  {
    if c.table == t { RecordedPastAll(s, t, w, c); }
    forall e, x: Change | e in s.devs && e != w && x.table == t && Holds(s.devs[e].db.outbox, x)
      ensures Holds(s'.devs[e].db.outbox, x)
    {
      var id :| id in s.devs[e].db.outbox && s.devs[e].db.outbox[id].RowKey() == x.RowKey()
          && s.devs[e].db.outbox[id].ts >= x.ts;
      assert IsIssued(s, s.devs[e].db.outbox[id]);
      assert id in s'.devs[e].db.outbox && s'.devs[e].db.outbox[id] == s.devs[e].db.outbox[id];
    }
  }

  lemma RecordWriter(s: Net, s': Net, d: DeviceId, c: Change, t: TableName, w: DeviceId)
    requires w in s.devs && LatestOk(s, t) && WriterOk(s, t, w)
    requires RecordEffect(s, s', d, c) && Extends(s, s', t, w) && ContentsIssued(s) && (c.table == t ==> d == w)
    ensures WriterOk(s', t, w)
  {
    forall k | k in s'.latest && k.table == t
      ensures RowKept(s', w, s'.latest[k])
    {
      if k != c.RowKey() {
        assert s.latest[k].RowKey() == k;
        assert RowKept(s, w, s.latest[k]);
        WriterFrame(s, s', t, w, s.latest[k]);
      }
    }
  }

  /** A kept row stays kept unless its entry leaves the writer's outbox. */
  lemma WriterFrame(s: Net, s': Net, t: TableName, w: DeviceId, c: Change)
    requires Extends(s, s', t, w) && RowKept(s, w, c) && c.table == t
    requires InOutbox(s, w, c) ==> InOutbox(s', w, c)
    ensures RowKept(s', w, c)
  {
    if !InOutbox(s', w, c) {
      forall p | p in s'.devs
        ensures Held(s', w, p, c)
      {
        assert Held(s, w, p, c);
      }
    }
  }

  lemma RecordEntries(s: Net, s': Net, d: DeviceId, c: Change, t: TableName, w: DeviceId)
    requires RecordEffect(s, s', d, c) && w in s.devs && (c.table == t ==> d == w)
    ensures forall e, id :: e in s.devs && id in s'.devs[e].db.outbox ==>
              OldEntry(s, s', e, id) || EntryOk(s', t, w, e, id)
    ensures forall e, p :: e in s.devs ==> Cursor(s'.devs[e], p, t) == Cursor(s.devs[e], p, t)
    ensures forall l :: On(s', l) == On(s, l)
  {
    if c.table == t {
      assert Covers(s', t, w, w, c.ts);
    }
  }

  lemma RecordKeepsInv(s: Net, s': Net, d: DeviceId, c: Change, t: TableName, w: DeviceId)
    requires Inv(s, t, w) && RecordEffect(s, s', d, c) && (c.table == t ==> d == w)
    ensures Inv(s', t, w) && Extends(s, s', t, w)
  {
    RecordIssued(s, s', d, c, t, w);
    RecordContents(s, s', d, c);
    RecordExtends(s, s', d, c, t, w);
    RecordWriter(s, s', d, c, t, w);
    RecordEntries(s, s', d, c, t, w);
    CursorsStep(s, s', t, w);
    OutboxesStep(s, s', t, w);
    AcksStep(s, s', t, w);
    LinksStep(s, s', t, w);
  }

  // ---- Steps of one device that add no entry -----------------------------------------------

  /** Device `d` becomes `r`: entries may go, but a device other than the writer keeps those of the table. */
  ghost predicate Shrinks(s: Net, s': Net, d: DeviceId, r: Replica, t: TableName, w: DeviceId) {
    && d in s.devs && s' == s.(devs := s.devs[d := r])
    && r.me == s.devs[d].me && r.db.known == s.devs[d].db.known
    && (d == w ==> LocalClock(r, s.path) >= Clock(s, d))
    && (forall id :: id in r.db.outbox ==> id in s.devs[d].db.outbox && r.db.outbox[id] == s.devs[d].db.outbox[id])
    && (d != w ==> forall id :: id in s.devs[d].db.outbox && s.devs[d].db.outbox[id].table == t ==> id in r.db.outbox)
  }

  lemma ShrinkExtends(s: Net, s': Net, d: DeviceId, r: Replica, t: TableName, w: DeviceId)
    requires w in s.devs && Shrinks(s, s', d, r, t, w)
    ensures Extends(s, s', t, w)
  {
    forall e, x: Change | e in s.devs && e != w && x.table == t && Holds(s.devs[e].db.outbox, x)
      ensures Holds(s'.devs[e].db.outbox, x)
    {
      var id :| id in s.devs[e].db.outbox && s.devs[e].db.outbox[id].RowKey() == x.RowKey()
          && s.devs[e].db.outbox[id].ts >= x.ts;
      assert id in s'.devs[e].db.outbox && s'.devs[e].db.outbox[id] == s.devs[e].db.outbox[id];
    }
  }

  lemma ShrinkContents(s: Net, s': Net, d: DeviceId, r: Replica, t: TableName, w: DeviceId)
    requires ContentsIssued(s) && Shrinks(s, s', d, r, t, w)
    ensures ContentsIssued(s')
    ensures forall l :: On(s', l) == On(s, l)
    ensures forall e, id :: e in s.devs && id in s'.devs[e].db.outbox ==> OldEntry(s, s', e, id)
  {
    assert forall l :: On(s', l) == On(s, l);
    assert forall x :: IsIssued(s', x) <==> IsIssued(s, x);
  }

  lemma ShrinkKeepsInv(s: Net, s': Net, d: DeviceId, r: Replica, t: TableName, w: DeviceId)
    requires Inv(s, t, w) && Shrinks(s, s', d, r, t, w)
    requires WriterOk(s', t, w)
    requires forall p :: p in s.devs ==> Cursor(r, p, t) == Cursor(s.devs[d], p, t) || CursorOk(s', t, w, d, p)
    ensures Inv(s', t, w) && Extends(s, s', t, w)
  {
    ShrinkExtends(s, s', d, r, t, w);
    HistoryFrame(s, s', t, w);
    ShrinkContents(s, s', d, r, t, w);
    CursorsStep(s, s', t, w);
    OutboxesStep(s, s', t, w);
    AcksStep(s, s', t, w);
    LinksStep(s, s', t, w);
  }

  lemma ShrinkWriter(s: Net, s': Net, d: DeviceId, r: Replica, t: TableName, w: DeviceId)
    requires w in s.devs && LatestOk(s, t) && WriterOk(s, t, w) && Shrinks(s, s', d, r, t, w)
    requires d == w ==>
               forall k :: k in s.latest && k.table == t && InOutbox(s, w, s.latest[k]) ==> RowKept(s', w, s.latest[k])
    ensures WriterOk(s', t, w)
  {
    ShrinkExtends(s, s', d, r, t, w);
    forall k | k in s'.latest && k.table == t
      ensures RowKept(s', w, s'.latest[k])
    {
      var c := s.latest[k];
      assert c.RowKey() == k && RowKept(s, w, c);
      if d == w && InOutbox(s, w, c) {
      } else {
        WriterFrame(s, s', t, w, c);
      }
    }
  }

  lemma CompactionShrinks(s: Net, s': Net, d: DeviceId, after: map<ChangeId, Change>, t: TableName, w: DeviceId)
    requires Regime(s, w) && IssuedOk(s, t, w) && ContentsIssued(s)
    requires d in s.devs && IsCompaction(s.devs[d].me, s.devs[d].db.outbox, after)
    requires s' == s.(devs := s.devs[d := Compacted(s.devs[d], after)])
    ensures Shrinks(s, s', d, Compacted(s.devs[d], after), t, w)
  {
    if d != w {
      forall id | id in s.devs[d].db.outbox && s.devs[d].db.outbox[id].table == t
        ensures id in after
      {
        assert IsIssued(s, s.devs[d].db.outbox[id]);
        assert IssuedByWriter(s, w, s.issued[id]);
      }
    }
  }

  /** Compaction at the writer never removes a row's last change: nothing newer could replace it. */
  lemma CompactionKeepsLatest(s: Net, after: map<ChangeId, Change>, t: TableName, w: DeviceId, c: Change)
    requires w in s.devs && s.devs[w].me == w && IssuedOk(s, t, w) && ContentsIssued(s)
    requires IsCompaction(w, s.devs[w].db.outbox, after)
    requires c.table == t && c.RowKey() in s.latest && s.latest[c.RowKey()] == c
    requires InOutbox(s, w, c)
    ensures c.id in after && after[c.id] == c
  {
    var out := s.devs[w].db.outbox;
    assert IsIssued(s, out[c.id]);
    assert IssuedByWriter(s, w, s.issued[c.id]);
    var v :| KeptFor(w, after, out[c.id], v);
    assert IsIssued(s, out[v]) && out[v].id == v;
    assert IssuedByWriter(s, w, s.issued[v]);
    assert SameTick(s.issued[v], s.issued[c.id], t);
  }

  lemma CompactKeepsInv(s: Net, s': Net, d: DeviceId, after: map<ChangeId, Change>, t: TableName, w: DeviceId)
    requires Inv(s, t, w)
    requires d in s.devs && IsCompaction(s.devs[d].me, s.devs[d].db.outbox, after)
    requires s' == s.(devs := s.devs[d := Compacted(s.devs[d], after)])
    ensures Inv(s', t, w) && Extends(s, s', t, w)
  {
    CompactionShrinks(s, s', d, after, t, w);
    if d == w {
      forall k | k in s.latest && k.table == t && InOutbox(s, w, s.latest[k])
        ensures RowKept(s', w, s.latest[k])
      {
        CompactionKeepsLatest(s, after, t, w, s.latest[k]);
      }
    }
    ShrinkWriter(s, s', d, Compacted(s.devs[d], after), t, w);
    ShrinkKeepsInv(s, s', d, Compacted(s.devs[d], after), t, w);
  }

  /** Pruning at the writer removes a row's last change only when every device holds it. */
  lemma PrunedIsHeld(s: Net, t: TableName, w: DeviceId, c: Change)
    requires Regime(s, w) && CursorsOk(s, t, w)
    requires c.table == t && c.RowKey() in s.latest && s.latest[c.RowKey()] == c && c.ts >= 1
    requires Delivered(s.devs[w].db, c)
    ensures forall p :: p in s.devs ==> Held(s, w, p, c)
  {
    forall p | p in s.devs
      ensures Held(s, w, p, c)
    {
      if p != w {
        assert p in s.devs[w].db.known;
        assert CursorOk(s, t, w, w, p);
        assert c.ts <= Cursor(s.devs[w], p, t);
      }
    }
  }

  lemma PruneShrinks(s: Net, s': Net, d: DeviceId, t: TableName, w: DeviceId)
    requires Regime(s, w) && IssuedOk(s, t, w) && ContentsIssued(s)
    requires d in s.devs && s' == s.(devs := s.devs[d := Prune(s.devs[d])])
    ensures Shrinks(s, s', d, Prune(s.devs[d]), t, w)
  {
    if d != w {
      forall id | id in s.devs[d].db.outbox && s.devs[d].db.outbox[id].table == t
        ensures id in Prune(s.devs[d]).db.outbox
      {
        assert IsIssued(s, s.devs[d].db.outbox[id]);
        assert IssuedByWriter(s, w, s.issued[id]);
      }
    }
  }

  lemma PruneKeepsInv(s: Net, s': Net, d: DeviceId, t: TableName, w: DeviceId)
    requires Inv(s, t, w)
    requires d in s.devs && s' == s.(devs := s.devs[d := Prune(s.devs[d])])
    ensures Inv(s', t, w) && Extends(s, s', t, w)
  {
    PruneShrinks(s, s', d, t, w);
    ShrinkExtends(s, s', d, Prune(s.devs[d]), t, w);
    if d == w {
      forall k | k in s.latest && k.table == t && InOutbox(s, w, s.latest[k])
        ensures RowKept(s', w, s.latest[k])
      {
        PruneKeepsRow(s, s', t, w, s.latest[k]);
      }
    }
    ShrinkWriter(s, s', d, Prune(s.devs[d]), t, w);
    ShrinkKeepsInv(s, s', d, Prune(s.devs[d]), t, w);
  }

  lemma PruneKeepsRow(s: Net, s': Net, t: TableName, w: DeviceId, c: Change)
    requires Regime(s, w) && CursorsOk(s, t, w) && IssuedOk(s, t, w) && Extends(s, s', t, w)
    requires s' == s.(devs := s.devs[w := Prune(s.devs[w])])
    requires c.table == t && c.RowKey() in s.latest && s.latest[c.RowKey()] == c
    requires InOutbox(s, w, c)
    ensures RowKept(s', w, c)
  {
    if !InOutbox(s', w, c) {
      assert IsIssued(s, c);
      assert IssuedByWriter(s, w, s.issued[c.id]);
      PrunedIsHeld(s, t, w, c);
      forall p | p in s'.devs
        ensures Held(s', w, p, c)
      {
        assert Held(s, w, p, c);
      }
    }
  }

  /** Application writes to the tables and clean restarts touch neither outbox nor cursors. */
  lemma QuietKeepsInv(s: Net, s': Net, d: DeviceId, r: Replica, t: TableName, w: DeviceId)
    requires Inv(s, t, w)
    requires d in s.devs && s' == s.(devs := s.devs[d := r])
    requires r.me == s.devs[d].me && (d == w ==> LocalClock(r, s.path) >= Clock(s, d))
    requires r.db.outbox == s.devs[d].db.outbox && r.db.cursors == s.devs[d].db.cursors
             && r.db.known == s.devs[d].db.known
    ensures Inv(s', t, w) && Extends(s, s', t, w)
  {
    assert Shrinks(s, s', d, r, t, w);
    ShrinkExtends(s, s', d, r, t, w);
    if d == w {
      forall k | k in s.latest && k.table == t && InOutbox(s, w, s.latest[k])
        ensures RowKept(s', w, s.latest[k])
      {
      }
    }
    ShrinkWriter(s, s', d, r, t, w);
    ShrinkKeepsInv(s, s', d, r, t, w);
  }

  lemma AckKeepsInv(s: Net, s': Net, d: DeviceId, a: Ack, t: TableName, w: DeviceId)
    requires Inv(s, t, w)
    requires a in s.acks && d in s.devs && s' == s.(devs := s.devs[d := AckFrom(s.devs[d], a.peer, a.id)])
    ensures Inv(s', t, w) && Extends(s, s', t, w)
  {
    var r := AckFrom(s.devs[d], a.peer, a.id);
    assert Shrinks(s, s', d, r, t, w);
    ShrinkExtends(s, s', d, r, t, w);
    if d == w {
      forall k | k in s.latest && k.table == t && InOutbox(s, w, s.latest[k])
        ensures RowKept(s', w, s.latest[k])
      {
      }
    }
    ShrinkWriter(s, s', d, r, t, w);
    AckCursor(s, s', d, a, t, w);
    ShrinkKeepsInv(s, s', d, r, t, w);
  }

  /** The acknowledged timestamp covers the peer, which had the change delivered, and the device
      itself, which still has the entry. */
  lemma AckCursor(s: Net, s': Net, d: DeviceId, a: Ack, t: TableName, w: DeviceId)
    requires w in s.devs && LatestOk(s, t) && AcksOk(s, t, w) && OutboxesOk(s, t, w) && ContentsIssued(s)
    requires a in s.acks && d in s.devs && s' == s.(devs := s.devs[d := AckFrom(s.devs[d], a.peer, a.id)])
    requires Extends(s, s', t, w)
    ensures forall p :: p in s.devs ==>
              Cursor(s'.devs[d], p, t) == Cursor(s.devs[d], p, t) || CursorOk(s', t, w, d, p)
  {
    var r := s.devs[d];
    if a.id in r.db.outbox && r.db.outbox[a.id].table == t {
      var x := r.db.outbox[a.id].ts;
      assert IsIssued(s, r.db.outbox[a.id]);
      assert AckOk(s, t, w, a) && EntryOk(s, t, w, d, a.id);
      CoversMono(s, s', t, w, a.peer, x, []);
      CoversMono(s, s', t, w, d, x, []);
      assert Cursor(s'.devs[d], a.peer, t) == x;
    }
  }

  // ---- Sending ---------------------------------------------------------------------------

  /** A row's last change below an outbox entry of `d` is at `p`, or `d` has it above any cursor that covers `p`. */
  lemma GapClosed(s: Net, t: TableName, w: DeviceId, d: DeviceId, p: DeviceId, x: int, c: Change, k: Key)
    requires Regime(s, w) && IssuedOk(s, t, w) && ContentsIssued(s) && OutboxesOk(s, t, w) && WriterOk(s, t, w)
    requires d in s.devs && p in s.devs && Covers(s, t, w, p, x)
    requires InOutbox(s, d, c) && c.table == t
    requires k in s.latest && k.table == t && s.latest[k].ts <= c.ts
    ensures Held(s, w, p, s.latest[k]) || (InOutbox(s, d, s.latest[k]) && s.latest[k].ts > x)
  {
    var last := s.latest[k];
    assert last.RowKey() == k && IsIssued(s, last);
    if !Held(s, w, p, last) {
      assert RowKept(s, w, last);
      assert EntryOk(s, t, w, d, c.id);
      if d != w {
        assert Held(s, w, d, last);
        SameRowLatest(s, t, w, d, last);
      }
    }
  }

  /** Whoever holds a row's last change or something newer holds exactly that change. */
  lemma SameRowLatest(s: Net, t: TableName, w: DeviceId, d: DeviceId, last: Change)
    requires w in s.devs && IssuedOk(s, t, w) && ContentsIssued(s)
    requires d in s.devs && Holds(s.devs[d].db.outbox, last)
    requires last.table == t && last.RowKey() in s.latest && s.latest[last.RowKey()] == last
    ensures InOutbox(s, d, last)
  {
    var out := s.devs[d].db.outbox;
    var id :| id in out && out[id].RowKey() == last.RowKey() && out[id].ts >= last.ts;
    assert IsIssued(s, out[id]) && out[id].id == id;
    assert IssuedByWriter(s, w, s.issued[id]);
    assert IsIssued(s, last);
    assert SameTick(s.issued[id], s.issued[last.id], t);
  }

  lemma EntryStamp(s: Net, t: TableName, w: DeviceId, d: DeviceId, c: Change)
    requires w in s.devs && IssuedOk(s, t, w) && ContentsIssued(s)
    requires d in s.devs && InOutbox(s, d, c) && c.table == t
    ensures Known(s, t, c.ts)
  {
    assert IsIssued(s, c);
    assert IssuedByWriter(s, w, s.issued[c.id]);
    assert c.RowKey() in s.latest;
  }

  /** One message with everything of the table above a cursor that covers the receiver. */
  lemma WholeBatchOk(s: Net, t: TableName, w: DeviceId, d: DeviceId, p: DeviceId, x: int, cs: seq<Change>,
                     upTo: seq<Message>)
    requires Regime(s, w) && IssuedOk(s, t, w) && ContentsIssued(s) && OutboxesOk(s, t, w) && WriterOk(s, t, w)
    requires d in s.devs && p in s.devs && Covers(s, t, w, p, x)
    requires forall c :: c in cs && c.table == t ==> InOutbox(s, d, c)
    requires forall c :: InOutbox(s, d, c) && c.table == t && c.ts > x ==> c in cs
    requires Batch(cs) in upTo
    ensures MessageOk(s, t, w, d, p, Batch(cs), upTo)
  {
    forall c | c in cs && c.table == t
      ensures CoversWith(s, t, w, p, c.ts, upTo)
    {
      EntryStamp(s, t, w, d, c);
      forall k | k in s.latest && k.table == t && s.latest[k].ts <= c.ts
        ensures Held(s, w, p, s.latest[k]) || Carried(upTo, s.latest[k])
      {
        GapClosed(s, t, w, d, p, x, c, k);
        assert s.latest[k].table == t;
      }
    }
  }

  lemma ChunkPosition(all: seq<Change>, n: nat, i: nat, c: Change) returns (q: nat)
    requires n > 0 && i < |Chunks(all, n)| && c in Chunks(all, n)[i]
    ensures q < |all| && all[q] == c && q < i * n + n
  {
    ChunkAt(all, n, i);
    var chunk := Chunks(all, n)[i];
    var o :| 0 <= o < |chunk| && chunk[o] == c;
    q := i * n + o;
  }

  lemma ChunkOrder(i: nat, j: nat, n: nat)
    requires i * n < j * n + n
    ensures i <= j
  {
    assert i >= j + 1 ==> i * n >= (j + 1) * n;
  }

  /** A change that never comes after `c` in the list is sent no later than the chunk of `c`. */
  lemma EarlierInPrefix(all: seq<Change>, n: nat, i: nat, c: Change, last: Change)
    requires n > 0 && i < |Chunks(all, n)| && c in Chunks(all, n)[i] && last in all
    requires forall a, b :: 0 <= a < |all| && 0 <= b < |all| && all[a] == c && all[b] == last ==> b <= a
    ensures exists i' :: 0 <= i' <= i && last in Chunks(all, n)[i']
  {
    var q := ChunkPosition(all, n, i, c);
    var j :| 0 <= j < |all| && all[j] == last;
    var i' := PositionInChunk(all, n, j);
    ChunkOrder(i', i, n);
  }

  /** The chunked messages of `sync_to_peer`, or any prefix the transport accepted. */
  lemma ChunksOk(s: Net, t: TableName, w: DeviceId, d: DeviceId, p: DeviceId, all: seq<Change>, accepted: nat)
    requires Inv(s, t, w) && d in s.devs && p in s.devs
    requires IsPending(s.devs[d], p, all) && accepted <= |Chunks(all, SEND_CHUNK)|
    ensures LinkOk(s, t, w, d, p, Batches(Chunks(all, SEND_CHUNK)[..accepted]))
  {
    var chunks := Chunks(all, SEND_CHUNK);
    var msgs := Batches(chunks[..accepted]);
    assert CursorOk(s, t, w, d, p);
    forall i | 0 <= i < |msgs|
      ensures MessageOk(s, t, w, d, p, msgs[i], msgs[..i + 1])
    {
      forall c: Change | c in chunks[i] && c.table == t
        ensures CoversWith(s, t, w, p, c.ts, msgs[..i + 1])
      {
        ChunkChangeOk(s, t, w, d, p, all, accepted, i, c);
      }
    }
  }

  lemma ChunkChangeOk(s: Net, t: TableName, w: DeviceId, d: DeviceId, p: DeviceId, all: seq<Change>, accepted: nat,
                      i: nat, c: Change)
    requires Regime(s, w) && IssuedOk(s, t, w) && ContentsIssued(s) && OutboxesOk(s, t, w) && WriterOk(s, t, w)
    requires d in s.devs && p in s.devs && CursorOk(s, t, w, d, p)
    requires IsPending(s.devs[d], p, all) && i < accepted <= |Chunks(all, SEND_CHUNK)|
    requires c in Chunks(all, SEND_CHUNK)[i] && c.table == t
    ensures CoversWith(s, t, w, p, c.ts, Batches(Chunks(all, SEND_CHUNK)[..accepted])[..i + 1])
  {
    var chunks := Chunks(all, SEND_CHUNK);
    var msgs := Batches(chunks[..accepted]);
    ChunkAt(all, SEND_CHUNK, i);
    assert c in all;
    PendingIsEntry(s, d, p, all, c);
    EntryStamp(s, t, w, d, c);
    forall k | k in s.latest && k.table == t && s.latest[k].ts <= c.ts
      ensures Held(s, w, p, s.latest[k]) || Carried(msgs[..i + 1], s.latest[k])
    {
      GapClosed(s, t, w, d, p, Cursor(s.devs[d], p, t), c, k);
      if !Held(s, w, p, s.latest[k]) {
        var last := s.latest[k];
        assert last.table == t && last in all;
        LatestInPrefix(s, t, w, d, p, all, i, c, last);
        var i' :| 0 <= i' <= i && last in chunks[i'];
        CarriedBy(chunks, accepted, i, i', last);
      }
    }
  }

  /** A change in one of the first chunks is carried by the messages up to that point. */
  lemma CarriedBy(chunks: seq<seq<Change>>, accepted: nat, i: nat, i': nat, last: Change)
    requires i' <= i < accepted <= |chunks| && last in chunks[i']
    ensures Carried(Batches(chunks[..accepted])[..i + 1], last)
  {
    assert Batches(chunks[..accepted])[..i + 1][i'] == Batch(chunks[i']);
  }

  lemma PendingIsEntry(s: Net, d: DeviceId, p: DeviceId, all: seq<Change>, c: Change)
    requires d in s.devs && ContentsIssued(s) && IsPending(s.devs[d], p, all) && c in all
    ensures InOutbox(s, d, c)
  {
  }

  lemma LatestInPrefix(s: Net, t: TableName, w: DeviceId, d: DeviceId, p: DeviceId, all: seq<Change>, i: nat,
                       c: Change, last: Change)
    requires w in s.devs && IssuedOk(s, t, w) && ContentsIssued(s)
    requires d in s.devs && IsPending(s.devs[d], p, all) && i < |Chunks(all, SEND_CHUNK)|
    requires c in Chunks(all, SEND_CHUNK)[i] && c in all && c.table == t
    requires last in all && last.table == t && last.ts <= c.ts
    ensures exists i' :: 0 <= i' <= i && last in Chunks(all, SEND_CHUNK)[i']
  {
    if last != c {
      PendingIsEntry(s, d, p, all, c);
      PendingIsEntry(s, d, p, all, last);
      assert IsIssued(s, c) && IsIssued(s, last);
      assert !SameTick(s.issued[c.id], s.issued[last.id], t);
      EarlierInPrefix(all, SEND_CHUNK, i, c, last);
    }
  }

  // ---- Links ---------------------------------------------------------------------------------

  lemma LinkStepKeepsInv(s: Net, s': Net, l: Link, msgs: seq<Message>, t: TableName, w: DeviceId)
    requires Inv(s, t, w) && s' == s.(links := s.links[l := msgs])
    requires l.src in s.devs && l.dst in s.devs ==> LinkOk(s, t, w, l.src, l.dst, msgs)
    requires forall m, c :: m in msgs && m.Batch? && c in m.cs ==> IsIssued(s, c)
    ensures Inv(s', t, w) && Extends(s, s', t, w)
  {
    assert SameHistory(s, s', w) && Extends(s, s', t, w);
    HistoryFrame(s, s', t, w);
    LinkContents(s, s', l, msgs);
    if l.src in s.devs && l.dst in s.devs { LinkMono(s, s', t, w, l.src, l.dst, msgs); }
    assert forall d, p :: d in s.devs ==> Cursor(s'.devs[d], p, t) == Cursor(s.devs[d], p, t);
    CursorsStep(s, s', t, w);
    assert forall e, id :: e in s.devs && id in s'.devs[e].db.outbox ==> OldEntry(s, s', e, id);
    OutboxesStep(s, s', t, w);
    AcksStep(s, s', t, w);
    LinksStep(s, s', t, w);
    SameWriter(s, s', t, w);
  }

  lemma LinkContents(s: Net, s': Net, l: Link, msgs: seq<Message>)
    requires ContentsIssued(s) && s' == s.(links := s.links[l := msgs])
    requires forall m, c :: m in msgs && m.Batch? && c in m.cs ==> IsIssued(s, c)
    ensures ContentsIssued(s')
    ensures forall k :: k != l ==> On(s', k) == On(s, k)
    ensures On(s', l) == msgs
  {
    assert forall x :: IsIssued(s', x) <==> IsIssued(s, x);
    assert forall k :: k != l ==> On(s', k) == On(s, k);
  }

  lemma SameWriter(s: Net, s': Net, t: TableName, w: DeviceId)
    requires w in s.devs && LatestOk(s, t) && WriterOk(s, t, w) && Extends(s, s', t, w)
    requires w in s'.devs && s'.devs[w].db.outbox == s.devs[w].db.outbox && s'.latest == s.latest
    ensures WriterOk(s', t, w)
  {
    forall k | k in s'.latest && k.table == t
      ensures RowKept(s', w, s'.latest[k])
    {
      assert RowKept(s, w, s.latest[k]) && s.latest[k].RowKey() == k;
      WriterFrame(s, s', t, w, s.latest[k]);
    }
  }

  lemma SendKeepsInv(s: Net, s': Net, d: DeviceId, p: DeviceId, all: seq<Change>, accepted: nat, t: TableName,
                     w: DeviceId)
    requires Inv(s, t, w) && d in s.devs && p in s.devs
    requires IsPending(s.devs[d], p, all) && accepted <= |Chunks(all, SEND_CHUNK)|
    requires s' == s.(links := s.links[Link(d, p) := On(s, Link(d, p)) + Batches(Chunks(all, SEND_CHUNK)[..accepted])])
    ensures Inv(s', t, w) && Extends(s, s', t, w)
  {
    var more := Batches(Chunks(all, SEND_CHUNK)[..accepted]);
    ChunksOk(s, t, w, d, p, all, accepted);
    LinkAppend(s, t, w, d, p, On(s, Link(d, p)), more);
    forall m, c | m in more && m.Batch? && c in m.cs
      ensures IsIssued(s, c)
    {
      var i :| 0 <= i < accepted && Chunks(all, SEND_CHUNK)[i] == m.cs;
      var q := ChunkPosition(all, SEND_CHUNK, i, c);
      PendingIsEntry(s, d, p, all, c);
    }
    LinkStepKeepsInv(s, s', Link(d, p), On(s, Link(d, p)) + more, t, w);
  }

  lemma PendingOk(s: Net, t: TableName, w: DeviceId, d: DeviceId, p: DeviceId, all: seq<Change>, upTo: seq<Message>)
    requires Regime(s, w) && IssuedOk(s, t, w) && ContentsIssued(s) && OutboxesOk(s, t, w) && WriterOk(s, t, w)
    requires d in s.devs && p in s.devs && CursorOk(s, t, w, d, p) && IsPending(s.devs[d], p, all)
    requires Batch(all) in upTo
    ensures MessageOk(s, t, w, d, p, Batch(all), upTo)
    ensures forall c :: c in all ==> IsIssued(s, c)
  {
    forall c | c in all
      ensures InOutbox(s, d, c) && IsIssued(s, c)
    {
      PendingIsEntry(s, d, p, all, c);
    }
    WholeBatchOk(s, t, w, d, p, Cursor(s.devs[d], p, t), all, upTo);
  }

  lemma ReconcileKeepsInv(s: Net, s': Net, d: DeviceId, p: DeviceId, cursors: map<TableName, int>, all: seq<Change>,
                          accepted: nat, t: TableName, w: DeviceId)
    requires Inv(s, t, w) && d in s.devs && p in s.devs
    requires (forall u :: u in cursors ==> cursors[u] == Cursor(s.devs[d], p, u)) && IsPending(s.devs[d], p, all)
    requires accepted <= 2
    requires s' == s.(links := s.links[
               Link(d, p) := On(s, Link(d, p)) + [CursorExchange(cursors), Batch(all)][..accepted]])
    ensures Inv(s', t, w) && Extends(s, s', t, w)
  {
    var more := [CursorExchange(cursors), Batch(all)][..accepted];
    assert CursorOk(s, t, w, d, p);
    forall i | 0 <= i < |more|
      ensures MessageOk(s, t, w, d, p, more[i], more[..i + 1])
    {
      if i == 1 {
        assert more[..2][1] == Batch(all);
        PendingOk(s, t, w, d, p, all, more[..2]);
      }
    }
    PendingOk(s, t, w, d, p, all, [Batch(all)]);
    LinkAppend(s, t, w, d, p, On(s, Link(d, p)), more);
    LinkStepKeepsInv(s, s', Link(d, p), On(s, Link(d, p)) + more, t, w);
  }

  lemma CutKeepsInv(s: Net, s': Net, l: Link, t: TableName, w: DeviceId)
    requires Inv(s, t, w) && s' == s.(links := s.links[l := []])
    ensures Inv(s', t, w) && Extends(s, s', t, w)
  {
    LinkStepKeepsInv(s, s', l, [], t, w);
  }

  // ---- Delivery ----------------------------------------------------------------------------------

  /** Taking the first message keeps the link fine once the receiver holds what that message carried. */
  lemma LinkPop(s: Net, t: TableName, w: DeviceId, src: DeviceId, dst: DeviceId, msgs: seq<Message>)
    requires w in s.devs && msgs != [] && LinkOk(s, t, w, src, dst, msgs)
    requires dst in s.devs && (msgs[0].Batch? ==> forall e :: e in msgs[0].cs ==> Holds(s.devs[dst].db.outbox, e))
    ensures LinkOk(s, t, w, src, dst, msgs[1..])
  {
    var rest := msgs[1..];
    forall i | 0 <= i < |rest|
      ensures MessageOk(s, t, w, src, dst, rest[i], rest[..i + 1])
    {
      assert MessageOk(s, t, w, src, dst, msgs[i + 1], msgs[..i + 2]);
      assert msgs[..i + 2] == [msgs[0]] + rest[..i + 1];
      if rest[i].Batch? {
        forall c | c in rest[i].cs && c.table == t
          ensures CoversWith(s, t, w, dst, c.ts, rest[..i + 1])
        {
          DropFirst(s, t, w, dst, c.ts, msgs[0], rest[..i + 1]);
        }
      }
    }
  }

  lemma DropFirst(s: Net, t: TableName, w: DeviceId, dst: DeviceId, x: int, m: Message, rest: seq<Message>)
    requires w in s.devs && dst in s.devs && CoversWith(s, t, w, dst, x, [m] + rest)
    requires m.Batch? ==> forall e :: e in m.cs ==> Holds(s.devs[dst].db.outbox, e)
    ensures CoversWith(s, t, w, dst, x, rest)
  {
    forall k | k in s.latest && k.table == t && s.latest[k].ts <= x
      ensures Held(s, w, dst, s.latest[k]) || Carried(rest, s.latest[k])
    {
      var last := s.latest[k];
      if Carried([m] + rest, last) && !Carried(rest, last) {
        var m', e :| m' in [m] + rest && m'.Batch? && e in m'.cs && e.RowKey() == last.RowKey() && e.ts >= last.ts;
        assert m' == m;
        HoldsOlder(s.devs[dst].db.outbox, e, last);
      }
    }
  }

  /** Device `d` takes the batch `cs`, and `es` is captured of it. */
  ghost predicate BatchDelivered(s: Net, s': Net, d: DeviceId, src: DeviceId, cs: seq<Change>, es: seq<Change>) {
    && d in s.devs && src in s.devs && On(s, Link(src, d)) != [] && On(s, Link(src, d))[0] == Batch(cs)
    && NewChanges(s, es) && d in s'.devs && TookBatch(s.devs[d], cs, es, s'.devs[d])
    && s' == IssueAll(s, es).(
               devs := s.devs[d := s'.devs[d]],
               links := s.links[Link(src, d) := On(s, Link(src, d))[1..]],
               acks := if cs == [] then s.acks else s.acks + {Ack(d, src, cs[|cs| - 1].id)})
  }

  ghost predicate TookBatch(r: Replica, cs: seq<Change>, es: seq<Change>, r': Replica) {
    && r'.me == r.me && r'.db.known == r.db.known && r'.db.cursors == BumpCursors(r.db.cursors, cs)
    && r'.clock >= r.clock && LogWithin(es, r.db.lamport, r'.db.lamport) && (forall e :: e in es ==> e.dev == r.db.gate)
    && Took(r.db.outbox, cs, es, r'.db.outbox)
  }

  /** The delivery of a batch, as the steps have it, is one in this sense. */
  lemma DeliveryIsBatch(s: Net, ev: Event, s': Net)
    requires ev.DeliverEv? && Step(s, ev, s')
    requires ContentsIssued(s) && forall id :: id in s.issued ==> s.issued[id].id == id
    ensures ev.d in s.devs && ev.src in s.devs && ev.src != ev.d && On(s, Link(ev.src, ev.d)) != []
    ensures var m := On(s, Link(ev.src, ev.d))[0];
            m.Batch? ==> |ev.ids| == |m.cs|
                         && BatchDelivered(s, s', ev.d, ev.src, m.cs, EchoAll(s.devs[ev.d], m.cs, ev.ids))
  {
    var m := On(s, Link(ev.src, ev.d))[0];
    if m.Batch? {
      var r, cs := s.devs[ev.d], m.cs;
      BatchIdentified(s, ev.d, ev.src, cs, EchoAll(r, cs, ev.ids));
      FireAllTook(s.issued, r, cs, ev.ids);
      EchoStamps(r, cs, ev.ids);
    }
  }

  lemma BatchIdentified(s: Net, d: DeviceId, src: DeviceId, cs: seq<Change>, es: seq<Change>)
    requires d in s.devs && On(s, Link(src, d)) != [] && On(s, Link(src, d))[0] == Batch(cs)
    requires NewChanges(s, es) && ContentsIssued(s) && forall id :: id in s.issued ==> s.issued[id].id == id
    ensures Identified(s.issued, s.devs[d], cs, es)
  {
    assert Batch(cs) in On(s, Link(src, d));
    assert forall c :: c in cs ==> IsIssued(s, c);
    assert forall id :: id in s.devs[d].db.outbox ==> IsIssued(s, s.devs[d].db.outbox[id]);
  }

  /** Changes entering the history: what is in it stays, what is new in it is among them. */
  lemma IssueAllFacts(s: Net, es: seq<Change>)
    requires NewChanges(s, es)
    ensures IssueAll(s, es).devs == s.devs && IssueAll(s, es).path == s.path
    ensures IssueAll(s, es).links == s.links && IssueAll(s, es).acks == s.acks
    ensures forall id :: id in s.issued ==> id in IssueAll(s, es).issued && IssueAll(s, es).issued[id] == s.issued[id]
    ensures forall e :: e in es ==> IsIssued(IssueAll(s, es), e)
    ensures forall id :: id in IssueAll(s, es).issued && id !in s.issued ==>
              IssueAll(s, es).issued[id] in es && IssueAll(s, es).issued[id].id == id
    ensures forall k :: k in s.latest ==> k in IssueAll(s, es).latest
    ensures forall k :: k in IssueAll(s, es).latest ==>
              (k in s.latest && IssueAll(s, es).latest[k] == s.latest[k]) || IssueAll(s, es).latest[k] in es
  {
    IssueAllFrame(s, es);
    IssuedGrows(s, es);
    LatestGrows(s, es);
  }

  lemma IssuedGrows(s: Net, es: seq<Change>)
    requires NewChanges(s, es)
    ensures forall id :: id in s.issued ==> id in IssueAll(s, es).issued && IssueAll(s, es).issued[id] == s.issued[id]
    ensures forall e :: e in es ==> IsIssued(IssueAll(s, es), e)
    ensures forall id :: id in IssueAll(s, es).issued && id !in s.issued ==>
              IssueAll(s, es).issued[id] in es && IssueAll(s, es).issued[id].id == id
  {
    IssuedIsAdded(s, es);
    AddAllHas(s.issued, es);
  }

  lemma {:induction false} IssuedIsAdded(s: Net, es: seq<Change>)
    ensures IssueAll(s, es).issued == AddAll(s.issued, es)
  {
    if es != [] { IssuedIsAdded(s, es[..|es| - 1]); }
  }

  lemma {:induction false} LatestGrows(s: Net, es: seq<Change>)
    ensures forall k :: k in s.latest ==> k in IssueAll(s, es).latest
    ensures forall k :: k in IssueAll(s, es).latest ==>
              (k in s.latest && IssueAll(s, es).latest[k] == s.latest[k]) || IssueAll(s, es).latest[k] in es
  {
    if es != [] {
      assert es == es[..|es| - 1] + [es[|es| - 1]];
      LatestGrows(s, es[..|es| - 1]);
    }
  }

  /** One more change of the table by the writer, past all others, keeps the history well-formed. */
  lemma IssueKeepsOk(s: Net, c: Change, t: TableName, w: DeviceId)
    requires w in s.devs && IssuedOk(s, t, w) && c.id !in s.issued
    requires c.table == t ==> c.dev == w && 1 <= c.ts <= Clock(s, w) && PastAll(s, t, c.ts)
    ensures IssuedOk(Issue(s, c), t, w)
  {
    var s' := Issue(s, c);
    forall id | id in s'.issued && s'.issued[id].table == t
      ensures IssuedByWriter(s', w, s'.issued[id])
      ensures id != c.id && c.table == t ==> s'.issued[id].ts < c.ts
    {
      if id != c.id { assert IssuedByWriter(s, w, s.issued[id]); }
    }
    forall i, j | i in s'.issued && j in s'.issued && SameTick(s'.issued[i], s'.issued[j], t)
      ensures i == j
    {
      if i != c.id && j != c.id { assert SameTick(s.issued[i], s.issued[j], t); }
    }
    forall k | k in s'.latest && k.table == t
      ensures s'.latest[k].RowKey() == k && IsIssued(s', s'.latest[k])
    {
      if k != c.RowKey() { assert IsIssued(s, s.latest[k]); }
    }
  }

  /** Changes of the table among `es` are the writer's, stamped past all others and within its clock. */
  ghost predicate WritersOwn(s: Net, es: seq<Change>, t: TableName, w: DeviceId)
    requires w in s.devs
  {
    forall e :: e in es && e.table == t ==> e.dev == w && 1 <= e.ts <= Clock(s, w) && PastAll(s, t, e.ts)
  }

  lemma {:induction false} IssueAllKeepsOk(s: Net, es: seq<Change>, t: TableName, w: DeviceId)
    requires w in s.devs && IssuedOk(s, t, w) && NewChanges(s, es) && Increasing(es) && WritersOwn(s, es, t, w)
    ensures w in IssueAll(s, es).devs && IssuedOk(IssueAll(s, es), t, w)
  {
    IssueAllFrame(s, es);
    if es != [] {
      var n := |es| - 1;
      var front, last, mid := es[..n], es[n], IssueAll(s, es[..n]);
      assert forall e :: e in front ==> e in es;
      IssueAllFrame(s, front);
      IssueAllKeepsOk(s, front, t, w);
      LastIsNew(s, es, t, w);
      IssueKeepsOk(mid, last, t, w);
    }
  }

  /** The last of them is new when its turn comes, and newest. */
  lemma LastIsNew(s: Net, es: seq<Change>, t: TableName, w: DeviceId)
    requires w in s.devs && es != [] && NewChanges(s, es) && Increasing(es) && WritersOwn(s, es, t, w)
    ensures var mid, last := IssueAll(s, es[..|es| - 1]), es[|es| - 1];
            last in es && last.id !in mid.issued && (last.table == t ==> PastAll(mid, t, last.ts))
  {
    var front, last := es[..|es| - 1], es[|es| - 1];
    assert last in es;
    assert forall i :: 0 <= i < |front| ==> front[i].ts < last.ts && front[i].id != last.id;
    IssuedGrows(s, front);
    LatestGrows(s, front);
  }

  /** The echoes a delivery may leave: none of the table, except at the writer, as its own. */
  ghost predicate EchoesAllowed(s: Net, d: DeviceId, es: seq<Change>, t: TableName, w: DeviceId) {
    forall e :: e in es && e.table == t ==> d == w && e.dev == w && s.path.ViaTriggers?
  }

  lemma DeliveredIssued(s: Net, s': Net, d: DeviceId, src: DeviceId, cs: seq<Change>, es: seq<Change>)
    requires BatchDelivered(s, s', d, src, cs, es) && ContentsIssued(s)
    ensures forall c :: c in cs ==> IsIssued(s, c)
    ensures forall k :: k != Link(src, d) ==> On(s', k) == On(s, k)
    ensures On(s', Link(src, d)) == On(s, Link(src, d))[1..]
    ensures forall c :: IsIssued(s, c) ==> IsIssued(s', c)
    ensures forall e :: e in es ==> IsIssued(s', e)
    ensures s'.devs.Keys == s.devs.Keys && s'.path == s.path
  {
    assert Batch(cs) in On(s, Link(src, d));
    IssueAllFacts(s, es);
    assert forall k :: k != Link(src, d) ==> On(s', k) == On(s, k);
  }

  /** Nothing leaves an outbox, and everything new came with the batch or was captured of it. */
  lemma DeliveredEntries(s: Net, s': Net, d: DeviceId, src: DeviceId, cs: seq<Change>, es: seq<Change>)
    requires BatchDelivered(s, s', d, src, cs, es)
    ensures forall e, c :: e in s.devs && InOutbox(s, e, c) ==> InOutbox(s', e, c)
    ensures forall e, id :: e in s.devs && id in s'.devs[e].db.outbox ==>
              OldEntry(s, s', e, id)
              || (e == d && s'.devs[e].db.outbox[id].id == id
                  && (s'.devs[e].db.outbox[id] in cs || s'.devs[e].db.outbox[id] in es))
    ensures forall c :: c in cs ==> Holds(s'.devs[d].db.outbox, c)
  {
  }

  lemma DeliveredHistory(s: Net, s': Net, d: DeviceId, src: DeviceId, cs: seq<Change>, es: seq<Change>,
                         t: TableName, w: DeviceId)
    requires BatchDelivered(s, s', d, src, cs, es) && Regime(s, w) && IssuedOk(s, t, w)
    requires EchoesAllowed(s, d, es, t, w)
    ensures Regime(s', w) && IssuedOk(s', t, w)
  {
    var moved := s.(devs := s'.devs, links := s'.links, acks := s'.acks);
    assert s'.devs == s.devs[d := s'.devs[d]];
    HistoryFrame(s, moved, t, w);
    EchoesPastAll(s, s', d, src, cs, es, t, w);
    assert NewChanges(moved, es);
    IssueAllKeepsOk(moved, es, t, w);
    IssueMoved(s, moved, es);
    IssueAllFacts(s, es);
  }

  /** Issuing touches the history alone. */
  lemma {:induction false} IssueMoved(s: Net, moved: Net, es: seq<Change>)
    requires moved.issued == s.issued && moved.latest == s.latest && moved.path == s.path
    ensures IssueAll(moved, es).issued == IssueAll(s, es).issued && IssueAll(moved, es).latest == IssueAll(s, es).latest
    ensures IssueAll(moved, es).devs == moved.devs && IssueAll(moved, es).path == moved.path
    ensures IssueAll(moved, es).links == moved.links && IssueAll(moved, es).acks == moved.acks
  {
    if es != [] { IssueMoved(s, moved, es[..|es| - 1]); }
  }

  lemma EchoesPastAll(s: Net, s': Net, d: DeviceId, src: DeviceId, cs: seq<Change>, es: seq<Change>,
                      t: TableName, w: DeviceId)
    requires BatchDelivered(s, s', d, src, cs, es) && Regime(s, w) && IssuedOk(s, t, w)
    requires EchoesAllowed(s, d, es, t, w)
    ensures w in s'.devs && s'.path == s.path
    ensures forall e :: e in es && e.table == t ==>
              e.dev == w && 1 <= e.ts <= LocalClock(s'.devs[w], s.path) && PastAll(s, t, e.ts)
  {
    IssueAllFacts(s, es);
    forall e | e in es && e.table == t
      ensures 1 <= e.ts <= LocalClock(s'.devs[w], s.path) && PastAll(s, t, e.ts)
    {
      LatestBelowClock(s, t, w);
    }
  }

  lemma LatestBelowClock(s: Net, t: TableName, w: DeviceId)
    requires w in s.devs && IssuedOk(s, t, w)
    ensures forall k :: k in s.latest && k.table == t ==> s.latest[k].ts <= Clock(s, w)
  {
    forall k | k in s.latest && k.table == t
      ensures s.latest[k].ts <= Clock(s, w)
    {
      assert s.latest[k].RowKey() == k && IsIssued(s, s.latest[k]);
      assert IssuedByWriter(s, w, s.issued[s.latest[k].id]);
    }
  }

  lemma DeliveredContents(s: Net, s': Net, d: DeviceId, src: DeviceId, cs: seq<Change>, es: seq<Change>)
    requires BatchDelivered(s, s', d, src, cs, es) && ContentsIssued(s)
    ensures ContentsIssued(s')
  {
    DeliveredIssued(s, s', d, src, cs, es);
    DeliveredEntries(s, s', d, src, cs, es);
    forall l, m, c | m in On(s', l) && m.Batch? && c in m.cs
      ensures IsIssued(s', c)
    {
      assert m in On(s, l);
    }
    forall e, id | e in s'.devs && id in s'.devs[e].db.outbox
      ensures IsIssued(s', s'.devs[e].db.outbox[id]) && s'.devs[e].db.outbox[id].id == id
    {
      if OldEntry(s, s', e, id) { assert IsIssued(s, s.devs[e].db.outbox[id]); }
    }
    DeliveredAckIds(s, s', d, src, cs, es);
  }

  lemma DeliveredAckIds(s: Net, s': Net, d: DeviceId, src: DeviceId, cs: seq<Change>, es: seq<Change>)
    requires BatchDelivered(s, s', d, src, cs, es) && ContentsIssued(s)
    ensures forall a :: a in s'.acks ==> a.id in s'.issued
  {
    IssueAllFacts(s, es);
    DeliveredIssued(s, s', d, src, cs, es);
    if cs != [] { assert IsIssued(s, cs[|cs| - 1]); }
  }

  lemma DeliveredExtends(s: Net, s': Net, d: DeviceId, src: DeviceId, cs: seq<Change>, es: seq<Change>,
                         t: TableName, w: DeviceId)
    requires BatchDelivered(s, s', d, src, cs, es) && Regime(s, w) && IssuedOk(s, t, w)
    requires EchoesAllowed(s, d, es, t, w) && LatestOk(s', t)
    ensures Extends(s, s', t, w)
  {
    IssueAllFacts(s, es);
    EchoesPastAll(s, s', d, src, cs, es, t, w);
    DeliveredHolds(s, s', d, src, cs, es);
    forall k | k in s'.latest && k.table == t
      ensures (k in s.latest && s'.latest[k] == s.latest[k]) || PastAll(s, t, s'.latest[k].ts)
    {
      assert s'.latest[k].RowKey() == k;
    }
  }

  lemma DeliveredHolds(s: Net, s': Net, d: DeviceId, src: DeviceId, cs: seq<Change>, es: seq<Change>)
    requires BatchDelivered(s, s', d, src, cs, es)
    ensures forall e, x: Change :: e in s.devs && Holds(s.devs[e].db.outbox, x) ==>
              e in s'.devs && Holds(s'.devs[e].db.outbox, x)
  {
    IssueAllFacts(s, es);
    forall e, x: Change | e in s.devs && Holds(s.devs[e].db.outbox, x)
      ensures Holds(s'.devs[e].db.outbox, x)
    {
      HoldsKept(s.devs[e].db.outbox, s'.devs[e].db.outbox, x);
    }
  }

  /** After a batch the receiver is covered up to every change of it. */
  lemma DeliveredCovers(s: Net, s': Net, d: DeviceId, src: DeviceId, cs: seq<Change>, es: seq<Change>,
                        t: TableName, w: DeviceId, c: Change)
    requires BatchDelivered(s, s', d, src, cs, es) && Extends(s, s', t, w) && LatestOk(s, t)
    requires LinkOk(s, t, w, src, d, On(s, Link(src, d)))
    requires c in cs && c.table == t
    ensures Covers(s', t, w, d, c.ts)
  {
    var msgs := On(s, Link(src, d));
    assert MessageOk(s, t, w, src, d, msgs[0], msgs[..1]);
    assert msgs[..1] == [msgs[0]] + [];
    CoversMono(s, s', t, w, d, c.ts, msgs[..1]);
    DropFirst(s', t, w, d, c.ts, msgs[0], []);
  }

  lemma DeliveredCursor(s: Net, s': Net, d: DeviceId, src: DeviceId, cs: seq<Change>, es: seq<Change>,
                        t: TableName, w: DeviceId, p: DeviceId)
    requires w in s.devs && w in s'.devs && BatchDelivered(s, s', d, src, cs, es) && IssuedOk(s, t, w)
    requires forall c :: c in cs ==> IsIssued(s, c)
    requires forall c :: c in cs && c.table == t ==> Covers(s', t, w, d, c.ts)
    ensures Cursor(s'.devs[d], p, t) == Cursor(s.devs[d], p, t) || CursorOk(s', t, w, d, p)
  {
    var k := CursorKey(p, t);
    if k in CursorKeys(cs) {
      var c0 :| c0 in cs && CursorKey(c0.dev, c0.table) == k;
      assert IssuedByWriter(s, w, s.issued[c0.id]);
      var x := HighWater(cs, k);
      assert x >= c0.ts >= 1;
      var c :| c in cs && CursorKey(c.dev, c.table) == k && c.ts == x;
      assert Covers(s', t, w, d, c.ts);
      assert Cursor(s'.devs[d], p, t) == x && p == w;
      assert Covers(s', t, w, w, x);
    }
  }

  lemma BatchKeepsInv(s: Net, s': Net, d: DeviceId, src: DeviceId, cs: seq<Change>, es: seq<Change>,
                      t: TableName, w: DeviceId)
    requires Inv(s, t, w) && BatchDelivered(s, s', d, src, cs, es) && EchoesAllowed(s, d, es, t, w)
    ensures Inv(s', t, w) && Extends(s, s', t, w)
  {
    DeliveredIssued(s, s', d, src, cs, es);
    DeliveredHistory(s, s', d, src, cs, es, t, w);
    DeliveredContents(s, s', d, src, cs, es);
    DeliveredExtends(s, s', d, src, cs, es, t, w);
    forall c | c in cs && c.table == t
      ensures Covers(s', t, w, d, c.ts)
    {
      DeliveredCovers(s, s', d, src, cs, es, t, w, c);
    }
    DeliveredCursors(s, s', d, src, cs, es, t, w);
    DeliveredOutboxes(s, s', d, src, cs, es, t, w);
    DeliveredAcks(s, s', d, src, cs, es, t, w);
    DeliveredLinks(s, s', d, src, cs, es, t, w);
    DeliveredWriter(s, s', d, src, cs, es, t, w);
  }

  lemma DeliveredCursors(s: Net, s': Net, d: DeviceId, src: DeviceId, cs: seq<Change>, es: seq<Change>,
                         t: TableName, w: DeviceId)
    requires BatchDelivered(s, s', d, src, cs, es) && Extends(s, s', t, w) && IssuedOk(s, t, w)
    requires forall c :: c in cs ==> IsIssued(s, c)
    requires forall c :: c in cs && c.table == t ==> Covers(s', t, w, d, c.ts)
    requires CursorsOk(s, t, w)
    ensures CursorsOk(s', t, w)
  {
    forall e, p | e in s.devs && p in s.devs
      ensures Cursor(s'.devs[e], p, t) == Cursor(s.devs[e], p, t) || CursorOk(s', t, w, e, p)
    {
      if e == d { DeliveredCursor(s, s', d, src, cs, es, t, w, p); }
    }
    CursorsStep(s, s', t, w);
  }

  lemma DeliveredOutboxes(s: Net, s': Net, d: DeviceId, src: DeviceId, cs: seq<Change>, es: seq<Change>,
                          t: TableName, w: DeviceId)
    requires BatchDelivered(s, s', d, src, cs, es) && Extends(s, s', t, w) && LatestOk(s, t) && OutboxesOk(s, t, w)
    requires IssuedOk(s', t, w) && EchoesAllowed(s, d, es, t, w)
    requires forall c :: c in cs && c.table == t ==> Covers(s', t, w, d, c.ts)
    ensures OutboxesOk(s', t, w)
  {
    DeliveredEntries(s, s', d, src, cs, es);
    IssueAllFacts(s, es);
    forall e | e in es && e.table == t
      ensures Covers(s', t, w, w, e.ts)
    {
      assert IsIssued(s', e) && IssuedByWriter(s', w, s'.issued[e.id]);
      assert e.RowKey() in s'.latest;
    }
    OutboxesStep(s, s', t, w);
  }

  lemma DeliveredAcks(s: Net, s': Net, d: DeviceId, src: DeviceId, cs: seq<Change>, es: seq<Change>,
                      t: TableName, w: DeviceId)
    requires BatchDelivered(s, s', d, src, cs, es) && Extends(s, s', t, w) && LatestOk(s, t) && AcksOk(s, t, w)
    requires ContentsIssued(s) && forall c :: c in cs ==> IsIssued(s, c)
    requires forall c :: c in cs && c.table == t ==> Covers(s', t, w, d, c.ts)
    ensures AcksOk(s', t, w)
  {
    IssueAllFacts(s, es);
    forall a | a in s'.acks
      ensures a in s.acks || AckOk(s', t, w, a)
    {
      if a !in s.acks { assert IsIssued(s, cs[|cs| - 1]); }
    }
    AcksStep(s, s', t, w);
  }

  lemma DeliveredLinks(s: Net, s': Net, d: DeviceId, src: DeviceId, cs: seq<Change>, es: seq<Change>,
                       t: TableName, w: DeviceId)
    requires BatchDelivered(s, s', d, src, cs, es) && Extends(s, s', t, w) && LatestOk(s, t) && LinksOk(s, t, w)
    requires forall k :: k != Link(src, d) ==> On(s', k) == On(s, k)
    requires On(s', Link(src, d)) == On(s, Link(src, d))[1..]
    ensures LinksOk(s', t, w)
  {
    LinkMono(s, s', t, w, src, d, On(s, Link(src, d)));
    LinkPop(s', t, w, src, d, On(s, Link(src, d)));
    LinksStep(s, s', t, w);
  }

  lemma DeliveredWriter(s: Net, s': Net, d: DeviceId, src: DeviceId, cs: seq<Change>, es: seq<Change>,
                        t: TableName, w: DeviceId)
    requires BatchDelivered(s, s', d, src, cs, es) && Extends(s, s', t, w) && LatestOk(s, t) && WriterOk(s, t, w)
    requires LatestOk(s', t) && EchoesAllowed(s, d, es, t, w)
    ensures WriterOk(s', t, w)
  {
    DeliveredEntries(s, s', d, src, cs, es);
    IssueAllFacts(s, es);
    forall k | k in s'.latest && k.table == t
      ensures RowKept(s', w, s'.latest[k])
    {
      assert s'.latest[k].RowKey() == k;
      if k in s.latest && s'.latest[k] == s.latest[k] {
        assert RowKept(s, w, s.latest[k]);
        WriterFrame(s, s', t, w, s.latest[k]);
      } else {
        assert s'.latest[k] in es && InOutbox(s', w, s'.latest[k]);
      }
    }
  }

  /** Answering a cursor exchange: the requester's cursor covers the requester itself. */
  lemma RepliesOk(s: Net, t: TableName, w: DeviceId, d: DeviceId, src: DeviceId, m: map<TableName, int>,
                  replies: seq<Message>)
    requires Regime(s, w) && IssuedOk(s, t, w) && ContentsIssued(s) && OutboxesOk(s, t, w) && WriterOk(s, t, w)
    requires d in s.devs && src in s.devs && AreReplies(s.devs[d], m, replies)
    requires t in m ==> Covers(s, t, w, src, m[t])
    ensures LinkOk(s, t, w, d, src, replies)
    ensures forall x, c :: x in replies && x.Batch? && c in x.cs ==> IsIssued(s, c)
  {
    forall i | 0 <= i < |replies|
      ensures MessageOk(s, t, w, d, src, replies[i], replies[..i + 1])
      ensures forall c :: c in replies[i].cs ==> IsIssued(s, c)
    {
      ReplyOk(s, t, w, d, src, m, replies, i);
    }
  }

  lemma ReplyOk(s: Net, t: TableName, w: DeviceId, d: DeviceId, src: DeviceId, m: map<TableName, int>,
                replies: seq<Message>, i: nat)
    requires Regime(s, w) && IssuedOk(s, t, w) && ContentsIssued(s) && OutboxesOk(s, t, w) && WriterOk(s, t, w)
    requires d in s.devs && src in s.devs && AreReplies(s.devs[d], m, replies) && i < |replies|
    requires t in m ==> Covers(s, t, w, src, m[t])
    ensures MessageOk(s, t, w, d, src, replies[i], replies[..i + 1])
    ensures forall c :: c in replies[i].cs ==> IsIssued(s, c)
  {
    var cs := replies[i].cs;
    var u :| u in m && IsOutboxSince(s.devs[d].db.outbox, u, m[u], cs);
    forall c | c in cs
      ensures InOutbox(s, d, c) && IsIssued(s, c) && c.table == u
    {
    }
    assert replies[..i + 1][i] == Batch(cs);
    if u == t { WholeBatchOk(s, t, w, d, src, m[t], cs, replies[..i + 1]); }
  }

  lemma ExchangeKeepsInv(s: Net, s': Net, d: DeviceId, src: DeviceId, m: map<TableName, int>, replies: seq<Message>,
                         t: TableName, w: DeviceId)
    requires Inv(s, t, w) && d in s.devs && src in s.devs && src != d
    requires On(s, Link(src, d)) != [] && On(s, Link(src, d))[0] == CursorExchange(m)
    requires AreReplies(s.devs[d], m, replies)
    requires s' == s.(links := s.links[Link(src, d) := On(s, Link(src, d))[1..]]
                                      [Link(d, src) := On(s, Link(d, src)) + replies])
    ensures Inv(s', t, w) && Extends(s, s', t, w)
  {
    var msgs := On(s, Link(src, d));
    assert LinkOk(s, t, w, src, d, msgs);
    assert MessageOk(s, t, w, src, d, msgs[0], msgs[..1]);
    LinkPop(s, t, w, src, d, msgs);
    var mid := s.(links := s.links[Link(src, d) := msgs[1..]]);
    assert forall x :: x in msgs[1..] ==> x in msgs;
    LinkStepKeepsInv(s, mid, Link(src, d), msgs[1..], t, w);
    CoversMono(s, mid, t, w, src, if t in m then m[t] else 0, []) by {
      if t !in m { ZeroCovers(s, t, w, src); }
    }
    RepliesOk(mid, t, w, d, src, m, replies);
    assert On(mid, Link(d, src)) == On(s, Link(d, src));
    LinkAppend(mid, t, w, d, src, On(s, Link(d, src)), replies);
    LinkStepKeepsInv(mid, s', Link(d, src), On(s, Link(d, src)) + replies, t, w);
  }

  /** Every recorded change is stamped at least 1, so a missing cursor, read as 0, claims nothing. */
  lemma ZeroCovers(s: Net, t: TableName, w: DeviceId, p: DeviceId)
    requires Regime(s, w) && IssuedOk(s, t, w)
    ensures Covers(s, t, w, p, 0)
  {
    forall k | k in s.latest && k.table == t
      ensures s.latest[k].ts >= 1
    {
      assert IsIssued(s, s.latest[k]) && s.latest[k].table == t;
      assert IssuedByWriter(s, w, s.issued[s.latest[k].id]);
    }
  }

  // ---- Starts that bootstrap the clock -------------------------------------------------------------

  lemma BootHistory(s: Net, s': Net, m: int, t: TableName, w: DeviceId)
    requires Regime(s, w) && IssuedOk(s, t, w) && ContentsIssued(s) && Reaches(s, t, m)
    requires s' == s.(devs := s.devs[w := Booted(s.devs[w], m)])
    ensures Regime(s', w) && IssuedOk(s', t, w) && ContentsIssued(s')
  {
    assert forall l :: On(s', l) == On(s, l);
    assert forall x :: IsIssued(s', x) <==> IsIssued(s, x);
    forall id | id in s'.issued && s'.issued[id].table == t
      ensures IssuedByWriter(s', w, s'.issued[id])
    {
      assert IssuedByWriter(s, w, s.issued[id]);
    }
  }

  lemma BootExtends(s: Net, s': Net, m: int, t: TableName, w: DeviceId)
    requires w in s.devs && s' == s.(devs := s.devs[w := Booted(s.devs[w], m)])
    ensures Extends(s, s', t, w)
    ensures forall e, id :: e in s.devs && id in s'.devs[e].db.outbox ==> OldEntry(s, s', e, id)
    ensures forall e, p :: e in s.devs ==> Cursor(s'.devs[e], p, t) == Cursor(s.devs[e], p, t)
    ensures forall l :: On(s', l) == On(s, l)
  {
    assert forall l :: On(s', l) == On(s, l);
  }

  lemma BootKeepsInv(s: Net, s': Net, m: int, t: TableName, w: DeviceId)
    requires Inv(s, t, w) && s' == s.(devs := s.devs[w := Booted(s.devs[w], m)]) && Reaches(s, t, m)
    ensures Inv(s', t, w) && Extends(s, s', t, w)
  {
    BootHistory(s, s', m, t, w);
    BootExtends(s, s', m, t, w);
    CursorsStep(s, s', t, w);
    OutboxesStep(s, s', t, w);
    AcksStep(s, s', t, w);
    LinksStep(s, s', t, w);
    SameWriter(s, s', t, w);
  }

  /** The protocol invariant survives a start of the writer if and only if the outbox maximum, which
      becomes its clock, reaches the last change of every row. */
  lemma BootKeepsInvIff(s: Net, s': Net, m: int, t: TableName, w: DeviceId)
    requires Inv(s, t, w) && Step(s, BootEv(w, m), s')
    ensures Inv(s', t, w) <==> Reaches(s, t, m)
  {
    if Inv(s', t, w) {
      forall k | k in s.latest && k.table == t
        ensures s.latest[k].ts <= m
      {
        assert s'.latest[k].RowKey() == k && IsIssued(s', s'.latest[k]);
        assert IssuedByWriter(s', w, s'.issued[s'.latest[k].id]);
      }
    } else if Reaches(s, t, m) {
      BootKeepsInv(s, s', m, t, w);
    }
  }

  // ---- Runs ---------------------------------------------------------------------------------

  lemma InitInv(s: Net, t: TableName, w: DeviceId)
    requires Init(s) && Regime(s, w)
    ensures Inv(s, t, w)
  {
    forall d, p | d in s.devs && p in s.devs
      ensures CursorOk(s, t, w, d, p)
    {
      assert Cursor(s.devs[d], p, t) == 0;
      ZeroCovers(s, t, w, p);
      ZeroCovers(s, t, w, d);
    }
  }

  lemma DeliverKeepsInv(s: Net, ev: Event, s': Net, t: TableName, w: DeviceId)
    requires Inv(s, t, w) && ev.DeliverEv? && Step(s, ev, s') && QuietReceipt(s, ev, t, w)
    ensures Inv(s', t, w) && Extends(s, s', t, w)
  {
    DeliveryIsBatch(s, ev, s');
    match On(s, Link(ev.src, ev.d))[0]
    case Batch(cs) => BatchKeepsInv(s, s', ev.d, ev.src, cs, EchoAll(s.devs[ev.d], cs, ev.ids), t, w);
    case CursorExchange(m) => ExchangeKeepsInv(s, s', ev.d, ev.src, m, ev.replies, t, w);
  }

  lemma OneWriter(s: Net, t: TableName, w: DeviceId)
    ensures Inv(s, t, w) ==> forall id :: id in s.issued && s.issued[id].table == t ==> s.issued[id].dev == w
  {
    if Inv(s, t, w) {
      forall id | id in s.issued && s.issued[id].table == t
        ensures s.issued[id].dev == w
      {
        assert IssuedByWriter(s, w, s.issued[id]);
      }
    }
  }

  /** Exactly these deliveries keep the invariant, where the triggers stamp local changes: if a receipt elsewhere
      than at the writer captures a change of the table, the table has a second writer. */
  lemma DeliveryKeepsInvIff(s: Net, ev: Event, s': Net, t: TableName, w: DeviceId)
    requires Inv(s, t, w) && ev.DeliverEv? && Step(s, ev, s')
    requires s.path.ViaTriggers? && s.devs[ev.d].db.gate in {ev.d, "local"}
    ensures Inv(s', t, w) <==> QuietReceipt(s, ev, t, w)
  {
    if QuietReceipt(s, ev, t, w) {
      DeliverKeepsInv(s, ev, s', t, w);
    } else {
      DeliveryIsBatch(s, ev, s');
      LoudBreaksInv(s, s', ev.d, ev.src, On(s, Link(ev.src, ev.d))[0].cs, ev.ids, t, w);
    }
  }

  lemma LoudBreaksInv(s: Net, s': Net, d: DeviceId, src: DeviceId, cs: seq<Change>, ids: seq<TriggerIds>,
                      t: TableName, w: DeviceId)
    requires d in s.devs && |ids| == |cs| && BatchDelivered(s, s', d, src, cs, EchoAll(s.devs[d], cs, ids))
    requires s.path.ViaTriggers? && s.devs[d].db.gate in {d, "local"}
    requires !EchoesAllowed(s, d, EchoAll(s.devs[d], cs, ids), t, w)
    ensures !Inv(s', t, w)
  {
    var es := EchoAll(s.devs[d], cs, ids);
    var e :| e in es && e.table == t && !(d == w && e.dev == w);
    if !GateOn(s.devs[d].db) { QuietIsPlain(s.devs[d], cs, ids); }
    assert e.dev == d;
    IssueAllFacts(s, es);
    assert IsIssued(s', e);
    OneWriter(s', t, w);
  }

  predicate OnLinks(ev: Event) { ev.SendEv? || ev.ReconcileEv? || ev.DeliverEv? || ev.CutEv? }

  lemma LinkEventKeepsInv(s: Net, ev: Event, s': Net, t: TableName, w: DeviceId)
    requires Inv(s, t, w) && Step(s, ev, s') && InRegime(s, ev, t, w) && OnLinks(ev)
    ensures Inv(s', t, w) && Extends(s, s', t, w)
  {
    match ev
    case SendEv(d, p, after, all, accepted) =>
      var mid := s.(devs := s.devs[d := Compacted(s.devs[d], after)]);
      CompactKeepsInv(s, mid, d, after, t, w);
      assert On(mid, Link(d, p)) == On(s, Link(d, p));
      SendKeepsInv(mid, s', d, p, all, accepted, t, w);
    case ReconcileEv(d, p, cursors, all, accepted) => ReconcileKeepsInv(s, s', d, p, cursors, all, accepted, t, w);
    case DeliverEv(d, src, replies, ids) => DeliverKeepsInv(s, ev, s', t, w);
    case CutEv(d, p) => CutKeepsInv(s, s', Link(d, p), t, w);
  }

  lemma LocalEventKeepsInv(s: Net, ev: Event, s': Net, t: TableName, w: DeviceId)
    requires Inv(s, t, w) && Step(s, ev, s') && InRegime(s, ev, t, w) && !OnLinks(ev)
    ensures Inv(s', t, w) && Extends(s, s', t, w)
  {
    match ev
    case RecordEv(d, c) => RecordKeepsInv(s, s', d, c, t, w);
    case AppWriteEv(d, store) => QuietKeepsInv(s, s', d, s'.devs[d], t, w);
    case CompactEv(d, after) => CompactKeepsInv(s, s', d, after, t, w);
    case AckEv(d, peer, id) => AckKeepsInv(s, s', d, Ack(peer, d, id), t, w);
    case PruneEv(d) => PruneKeepsInv(s, s', d, t, w);
    case RestartEv(d, r) => QuietKeepsInv(s, s', d, r, t, w);
    case BootEv(d, m) =>
      if d == w { BootKeepsInv(s, s', m, t, w); } else { QuietKeepsInv(s, s', d, s'.devs[d], t, w); }
    case GateEv(d, on) => QuietKeepsInv(s, s', d, s'.devs[d], t, w);
  }

  /** Every step of the regime keeps the invariant. */
  lemma StepKeepsInv(s: Net, ev: Event, s': Net, t: TableName, w: DeviceId)
    requires Inv(s, t, w) && Step(s, ev, s') && InRegime(s, ev, t, w)
    ensures Inv(s', t, w) && Extends(s, s', t, w)
  {
    if OnLinks(ev) { LinkEventKeepsInv(s, ev, s', t, w); } else { LocalEventKeepsInv(s, ev, s', t, w); }
  }

  lemma {:induction false} RunKeepsInv(ss: seq<Net>, evs: seq<Event>, t: TableName, w: DeviceId, i: nat)
    requires IsRun(ss, evs) && Regime(ss[0], w)
    requires forall j :: 0 <= j < |evs| ==> InRegime(ss[j], evs[j], t, w)
    requires i <= |evs|
    ensures Inv(ss[i], t, w)
  {
    if i == 0 {
      InitInv(ss[0], t, w);
    } else {
      RunKeepsInv(ss, evs, t, w, i - 1);
      StepKeepsInv(ss[i - 1], evs[i - 1], ss[i], t, w);
    }
  }

  /** Peer `p` records the very change `c`, or `c` is in the writer's outbox above its cursor for `p`, so that
      the next flush to `p` sends it. */
  ghost predicate HasOrPending(s: Net, t: TableName, w: DeviceId, p: DeviceId, c: Change)
    requires w in s.devs && p in s.devs
  {
    InOutbox(s, p, c) || (InOutbox(s, w, c) && c.ts > Cursor(s.devs[w], p, t))
  }

  lemma InvKeepsLatest(s: Net, t: TableName, w: DeviceId, p: DeviceId, k: Key)
    requires Inv(s, t, w) && p in s.devs && p != w && k in s.latest && k.table == t
    ensures HasOrPending(s, t, w, p, s.latest[k])
  {
    var last := s.latest[k];
    assert last.RowKey() == k && RowKept(s, w, last);
    assert CursorOk(s, t, w, w, p);
    if Holds(s.devs[p].db.outbox, last) { SameRowLatest(s, t, w, p, last); }
  }

  /** In every state of every run, for every peer of the writer and every row of the table: the peer records
      the row's last change itself, or that change is still in the writer's outbox above the writer's cursor
      for the peer. */
  lemma NoUpdateLost(ss: seq<Net>, evs: seq<Event>, t: TableName, w: DeviceId, i: nat, p: DeviceId, k: Key)
    requires IsRun(ss, evs) && Regime(ss[0], w)
    requires forall j :: 0 <= j < |evs| ==> InRegime(ss[j], evs[j], t, w)
    requires i <= |evs| && p in ss[i].devs && p != w && k in ss[i].latest && k.table == t
    ensures w in ss[i].devs && HasOrPending(ss[i], t, w, p, ss[i].latest[k])
  {
    RunKeepsInv(ss, evs, t, w, i);
    InvKeepsLatest(ss[i], t, w, p, k);
  }

  /** Pruning never drops an undelivered change: an entry that leaves the writer's outbox by pruning
      and is its row's last change is in the outbox of every other device. */
  lemma PruneDropsOnlyDelivered(ss: seq<Net>, evs: seq<Event>, t: TableName, w: DeviceId, i: nat, k: Key, p: DeviceId)
    requires IsRun(ss, evs) && Regime(ss[0], w)
    requires forall j :: 0 <= j < |evs| ==> InRegime(ss[j], evs[j], t, w)
    requires i < |evs| && evs[i] == PruneEv(w) && k in ss[i].latest && k.table == t
    requires w in ss[i].devs && w in ss[i + 1].devs && p in ss[i].devs && p != w
    requires InOutbox(ss[i], w, ss[i].latest[k]) && !InOutbox(ss[i + 1], w, ss[i].latest[k])
    ensures InOutbox(ss[i], p, ss[i].latest[k])
  {
    RunKeepsInv(ss, evs, t, w, i);
    var s, last := ss[i], ss[i].latest[k];
    assert Step(s, evs[i], ss[i + 1]);
    assert last.RowKey() == k && IsIssued(s, last);
    assert IssuedByWriter(s, w, s.issued[last.id]);
    PrunedIsHeld(s, t, w, last);
    assert Held(s, w, p, last);
    SameRowLatest(s, t, w, p, last);
  }

  lemma FlushCarries(before: seq<Message>, all: seq<Change>, last: Change)
    requires last in all
    ensures var chunks := Chunks(all, SEND_CHUNK); Carried(before + Batches(chunks[..|chunks|]), last)
  {
    var chunks := Chunks(all, SEND_CHUNK);
    var j :| 0 <= j < |all| && all[j] == last;
    var i := PositionInChunk(all, SEND_CHUNK, j);
    assert Batches(chunks[..|chunks|])[i] == Batch(chunks[i]);
  }

  /** After a complete flush every row's last change is at the peer or on the link to it. */
  lemma FlushReachesPeer(s: Net, s': Net, t: TableName, w: DeviceId, p: DeviceId, after: map<ChangeId, Change>,
                         all: seq<Change>)
    requires Inv(s, t, w) && p in s.devs && p != w
    requires Step(s, SendEv(w, p, after, all, |Chunks(all, SEND_CHUNK)|), s')
    ensures Inv(s', t, w) && HeldOrInFlight(s', t, w, p)
  {
    StepKeepsInv(s, SendEv(w, p, after, all, |Chunks(all, SEND_CHUNK)|), s', t, w);
    forall k | k in s'.latest && k.table == t
      ensures Held(s', w, p, s'.latest[k]) || Carried(On(s', Link(w, p)), s'.latest[k])
    {
      var last := s'.latest[k];
      assert last.RowKey() == k && RowKept(s', w, last) && CursorOk(s', t, w, w, p);
      if !Held(s', w, p, last) {
        assert InOutbox(s', w, last) && last.ts > Cursor(s'.devs[w], p, t);
        assert last in all;
        FlushCarries(On(s, Link(w, p)), all, last);
      }
    }
  }

  /** Every last change is at the peer or still on the link from the writer. */
  ghost predicate HeldOrInFlight(s: Net, t: TableName, w: DeviceId, p: DeviceId) {
    forall k :: k in s.latest && k.table == t ==>
      Held(s, w, p, s.latest[k]) || Carried(On(s, Link(w, p)), s.latest[k])
  }

  // ---- Catching up ------------------------------------------------------------------------------

  /** `c`, or something newer, is at the peer or carried by one of the first `n` messages to it. */
  ghost predicate HeldOrAmong(s: Net, w: DeviceId, p: DeviceId, c: Change, n: nat) {
    Held(s, w, p, c) || (n <= |On(s, Link(w, p))| && Carried(On(s, Link(w, p))[..n], c))
  }

  predicate DeliversFrom(ev: Event, w: DeviceId, p: DeviceId) { ev.DeliverEv? && ev.d == p && ev.src == w }

  /** Only a delivery takes messages off a link, only a cut drops them, and what a device has acknowledged
      stays acknowledged. */
  lemma LinkMoves(s: Net, ev: Event, s': Net, src: DeviceId, dst: DeviceId)
    requires Step(s, ev, s') && src != dst && ev != CutEv(src, dst)
    ensures s.acks <= s'.acks
    ensures if DeliversFrom(ev, src, dst)
            then On(s, Link(src, dst)) != [] && On(s', Link(src, dst)) == On(s, Link(src, dst))[1..]
            else On(s, Link(src, dst)) <= On(s', Link(src, dst))
  {
    if ev.DeliverEv? && On(s, Link(ev.src, ev.d))[0].Batch? {
      IssueAllFrame(s, EchoAll(s.devs[ev.d], On(s, Link(ev.src, ev.d))[0].cs, ev.ids));
    }
  }

  lemma InFlightStep(s: Net, ev: Event, s': Net, t: TableName, w: DeviceId, p: DeviceId, c: Change, n: nat)
    requires Inv(s, t, w) && Step(s, ev, s') && InRegime(s, ev, t, w) && ev != CutEv(w, p)
    requires p in s.devs && p != w && c.table == t && HeldOrAmong(s, w, p, c, n)
    ensures HeldOrAmong(s', w, p, c, if DeliversFrom(ev, w, p) && n > 0 then n - 1 else n)
  {
    if Held(s, w, p, c) {
      StepKeepsInv(s, ev, s', t, w);
    } else {
      LinkMoves(s, ev, s', w, p);
      var msgs := On(s, Link(w, p));
      if DeliversFrom(ev, w, p) {
        FirstOrLater(msgs, n, c);
        if !Carried(msgs[1..][..n - 1], c) { FirstIsHeld(s, ev, s', t, w, p, c); }
      } else {
        assert On(s', Link(w, p))[..n] == msgs[..n];
      }
    }
  }

  lemma FirstIsHeld(s: Net, ev: Event, s': Net, t: TableName, w: DeviceId, p: DeviceId, c: Change)
    requires Inv(s, t, w) && Step(s, ev, s') && DeliversFrom(ev, w, p)
    requires On(s, Link(w, p)) != [] && On(s, Link(w, p))[0].Batch?
    requires exists e :: e in On(s, Link(w, p))[0].cs && e.RowKey() == c.RowKey() && e.ts >= c.ts
    ensures Held(s', w, p, c)
  {
    var cs := On(s, Link(w, p))[0].cs;
    DeliveryIsBatch(s, ev, s');
    DeliveredEntries(s, s', p, w, cs, EchoAll(s.devs[p], cs, ev.ids));
    var e :| e in cs && e.RowKey() == c.RowKey() && e.ts >= c.ts;
    HoldsOlder(s'.devs[p].db.outbox, e, c);
  }

  /** What is carried by the first `n` messages is in the first one or carried by the others. */
  lemma FirstOrLater(msgs: seq<Message>, n: nat, c: Change)
    requires n <= |msgs| && Carried(msgs[..n], c)
    ensures n > 0
    ensures Carried(msgs[1..][..n - 1], c)
            || (msgs[0].Batch? && exists e :: e in msgs[0].cs && e.RowKey() == c.RowKey() && e.ts >= c.ts)
  {
    var m, e :| m in msgs[..n] && m.Batch? && e in m.cs && e.RowKey() == c.RowKey() && e.ts >= c.ts;
    assert msgs[..n] == [msgs[0]] + msgs[1..][..n - 1];
  }

  /** Messages delivered to `p` from `w` by the first `i` events. */
  function DeliveredFrom(evs: seq<Event>, w: DeviceId, p: DeviceId, i: nat): nat
    requires i <= |evs|
  {
    if i == 0 then 0 else DeliveredFrom(evs, w, p, i - 1) + if DeliversFrom(evs[i - 1], w, p) then 1 else 0
  }

  /** A stretch of a run in the regime, of any events but a cut of the link from `w` to `p`. */
  ghost predicate Stretch(ss: seq<Net>, evs: seq<Event>, t: TableName, w: DeviceId, p: DeviceId) {
    && |ss| == |evs| + 1
    && Inv(ss[0], t, w) && p in ss[0].devs && p != w
    && forall i :: 0 <= i < |evs| ==> StretchAt(ss[i], evs[i], ss[i + 1], t, w, p)
  }

  ghost predicate StretchAt(s: Net, ev: Event, s': Net, t: TableName, w: DeviceId, p: DeviceId) {
    Step(s, ev, s') && InRegime(s, ev, t, w) && ev != CutEv(w, p)
  }

  lemma StretchStep(ss: seq<Net>, evs: seq<Event>, t: TableName, w: DeviceId, p: DeviceId, i: nat)
    requires Stretch(ss, evs, t, w, p) && i < |evs|
    ensures StretchAt(ss[i], evs[i], ss[i + 1], t, w, p)
  {
  }

  /** How many of the `n` messages first on the link are left after `i` events. */
  function Left(evs: seq<Event>, w: DeviceId, p: DeviceId, n: nat, i: nat): nat
    requires i <= |evs|
  {
    if i == 0 then n
    else
      var before := Left(evs, w, p, n, i - 1);
      if DeliversFrom(evs[i - 1], w, p) && before > 0 then before - 1 else before
  }

  lemma {:induction false} LeftIs(evs: seq<Event>, w: DeviceId, p: DeviceId, n: nat, i: nat)
    requires i <= |evs|
    ensures Left(evs, w, p, n, i) ==
            if n > DeliveredFrom(evs, w, p, i) then n - DeliveredFrom(evs, w, p, i) else 0
  {
    if i > 0 { LeftIs(evs, w, p, n, i - 1); }
  }

  /** What one step of a stretch does to the messages that carry `c`. */
  predicate LeftAfter(ev: Event, w: DeviceId, p: DeviceId, n: nat, n': nat) {
    n' == if DeliversFrom(ev, w, p) && n > 0 then n - 1 else n
  }

  lemma AlongStretch(s: Net, ev: Event, s': Net, t: TableName, w: DeviceId, p: DeviceId, c: Change, n: nat, n': nat)
    requires StretchAt(s, ev, s', t, w, p) && Inv(s, t, w) && p in s.devs && p != w && c.table == t
    requires HeldOrAmong(s, w, p, c, n) && LeftAfter(ev, w, p, n, n')
    ensures HeldOrAmong(s', w, p, c, n')
  {
    InFlightStep(s, ev, s', t, w, p, c, n);
  }

  lemma StretchStepKeeps(ss: seq<Net>, evs: seq<Event>, t: TableName, w: DeviceId, p: DeviceId,
                         c: Change, n: nat, n': nat, i: nat)
    requires Stretch(ss, evs, t, w, p) && i < |evs| && c.table == t
    requires HeldOrAmong(ss[i], w, p, c, n) && LeftAfter(evs[i], w, p, n, n')
    ensures HeldOrAmong(ss[i + 1], w, p, c, n')
  {
    DevicesStay(ss, evs, t, w, p, i);
    StretchStep(ss, evs, t, w, p, i);
    AlongStretch(ss[i], evs[i], ss[i + 1], t, w, p, c, n, n');
  }

  /** Event `i` takes whatever is held or on its way one message further. */
  ghost predicate KeepsAt(ss: seq<Net>, evs: seq<Event>, w: DeviceId, p: DeviceId, c: Change, i: nat)
    requires |ss| == |evs| + 1 && i < |evs|
  {
    forall n, n' :: HeldOrAmong(ss[i], w, p, c, n) && LeftAfter(evs[i], w, p, n, n') ==>
                      HeldOrAmong(ss[i + 1], w, p, c, n')
  }

  lemma {:induction false} AllKeep(ss: seq<Net>, evs: seq<Event>, w: DeviceId, p: DeviceId, c: Change, n: nat, i: nat)
    requires |ss| == |evs| + 1 && i <= |evs| && HeldOrAmong(ss[0], w, p, c, n)
    requires forall j :: 0 <= j < |evs| ==> KeepsAt(ss, evs, w, p, c, j)
    ensures HeldOrAmong(ss[i], w, p, c, Left(evs, w, p, n, i))
  {
    if i > 0 {
      AllKeep(ss, evs, w, p, c, n, i - 1);
      assert KeepsAt(ss, evs, w, p, c, i - 1);
      assert LeftAfter(evs[i - 1], w, p, Left(evs, w, p, n, i - 1), Left(evs, w, p, n, i));
    }
  }

  lemma StretchKeeps(ss: seq<Net>, evs: seq<Event>, t: TableName, w: DeviceId, p: DeviceId, c: Change, n: nat, i: nat)
    requires Stretch(ss, evs, t, w, p) && i <= |evs| && c.table == t && HeldOrAmong(ss[0], w, p, c, n)
    ensures HeldOrAmong(ss[i], w, p, c, Left(evs, w, p, n, i))
  {
    forall j, m, m' | 0 <= j < |evs| && HeldOrAmong(ss[j], w, p, c, m) && LeftAfter(evs[j], w, p, m, m')
      ensures HeldOrAmong(ss[j + 1], w, p, c, m')
    {
      StretchStepKeeps(ss, evs, t, w, p, c, m, m', j);
    }
    AllKeep(ss, evs, w, p, c, n, i);
  }

  /** Catch-up: after a complete flush by the writer, whatever else happens in between short of cutting
      the link, once as many messages have been delivered as were on the link the peer records, for every
      row of the table, the change that was its last at the flush or something newer. */
  lemma CatchUp(ss: seq<Net>, evs: seq<Event>, t: TableName, w: DeviceId, p: DeviceId, i: nat)
    requires Stretch(ss, evs, t, w, p) && HeldOrInFlight(ss[0], t, w, p) && i <= |evs|
    requires DeliveredFrom(evs, w, p, i) >= |On(ss[0], Link(w, p))|
    ensures p in ss[i].devs
    ensures forall k :: k in ss[0].latest && k.table == t ==> Holds(ss[i].devs[p].db.outbox, ss[0].latest[k])
  {
    forall k | k in ss[0].latest && k.table == t
      ensures p in ss[i].devs && Holds(ss[i].devs[p].db.outbox, ss[0].latest[k])
    {
      var c := ss[0].latest[k];
      assert c.RowKey() == k;
      assert On(ss[0], Link(w, p))[..|On(ss[0], Link(w, p))|] == On(ss[0], Link(w, p));
      StretchKeeps(ss, evs, t, w, p, c, |On(ss[0], Link(w, p))|, i);
      LeftIs(evs, w, p, |On(ss[0], Link(w, p))|, i);
      assert !Carried([], c);
    }
    DevicesStay(ss, evs, t, w, p, i);
  }

  lemma {:induction false} DevicesStay(ss: seq<Net>, evs: seq<Event>, t: TableName, w: DeviceId, p: DeviceId, i: nat)
    requires Stretch(ss, evs, t, w, p) && i <= |evs|
    ensures Inv(ss[i], t, w) && p in ss[i].devs
  {
    if i > 0 {
      DevicesStay(ss, evs, t, w, p, i - 1);
      StretchStep(ss, evs, t, w, p, i - 1);
      StepKeepsInv(ss[i - 1], evs[i - 1], ss[i], t, w);
    }
  }
}
