/** Any number of devices running the sync loop over links that deliver in order but may be cut.
    One step is one atomic engine call or one delivery; every interleaving is a run. */
module Network {
  import opened SyncTypes
  import opened Materializer
  import opened EngineSpec
  import OutboxHook
  import opened Receipt

  datatype Message = Batch(cs: seq<Change>) | CursorExchange(cursors: map<TableName, int>)

  datatype Link = Link(src: DeviceId, dst: DeviceId)

  /** An acknowledgement `peer` has sent to `to`; it may be handled late, repeatedly or never. */
  datatype Ack = Ack(peer: DeviceId, to: DeviceId, id: ChangeId)

  /** `path` is the way all devices record local changes; `issued` and `latest` are history: every change
      ever recorded, and the last one per row. */
  datatype Net = Net(path: WritePath, devs: map<DeviceId, Replica>, links: map<Link, seq<Message>>, acks: set<Ack>,
                     issued: map<ChangeId, Change>, latest: map<Key, Change>)

  datatype Event =
    | RecordEv(d: DeviceId, c: Change)
    | AppWriteEv(d: DeviceId, store: Store)
    | CompactEv(d: DeviceId, after: map<ChangeId, Change>)
    | SendEv(d: DeviceId, p: DeviceId, after: map<ChangeId, Change>, all: seq<Change>, accepted: nat)
    | ReconcileEv(d: DeviceId, p: DeviceId, cursors: map<TableName, int>, all: seq<Change>, accepted: nat)
    | DeliverEv(d: DeviceId, src: DeviceId, replies: seq<Message>, ids: seq<TriggerIds>)
    | AckEv(d: DeviceId, peer: DeviceId, id: ChangeId)
    | PruneEv(d: DeviceId)
    | RestartEv(d: DeviceId, r: Replica)
    | BootEv(d: DeviceId, m: int)
    | GateEv(d: DeviceId, on: bool)
    | CutEv(d: DeviceId, p: DeviceId)

  function On(s: Net, l: Link): seq<Message> {
    if l in s.links then s.links[l] else []
  }

  /** The clock that stamps the next local change of device `d`. */
  function Clock(s: Net, d: DeviceId): int
    requires d in s.devs
  {
    LocalClock(s.devs[d], s.path)
  }

  function Batches(cs: seq<seq<Change>>): seq<Message> {
    seq(|cs|, i requires 0 <= i < |cs| => Batch(cs[i]))
  }

  /** Replies to a cursor exchange: for some of its tables, the outbox above the given cursor. */
  ghost predicate AreReplies(r: Replica, m: map<TableName, int>, replies: seq<Message>) {
    forall i :: 0 <= i < |replies| ==>
      replies[i].Batch? && exists t :: t in m && IsOutboxSince(r.db.outbox, t, m[t], replies[i].cs)
  }

  ghost predicate Step(s: Net, ev: Event, s': Net) {
    ev.d in s.devs &&
    var r := s.devs[ev.d];
    match ev
    case RecordEv(d, c) =>
      Recordable(s, d, c) && s' == AfterRecording(s, d, c)
    case AppWriteEv(d, store) =>
      s' == AfterWrite(s, d, store)
    case CompactEv(d, after) =>
      IsCompaction(r.me, r.db.outbox, after) && s' == s.(devs := s.devs[d := Compacted(r, after)])
    case SendEv(d, p, after, all, accepted) =>
      && p in s.devs && p != d
      && IsCompaction(r.me, r.db.outbox, after) && IsPending(Compacted(r, after), p, all)
      && accepted <= |Chunks(all, SEND_CHUNK)|
      && s' == s.(devs := s.devs[d := Compacted(r, after)],
                  links := s.links[Link(d, p) := On(s, Link(d, p)) + Batches(Chunks(all, SEND_CHUNK)[..accepted])])
    case ReconcileEv(d, p, cursors, all, accepted) =>
      && p in s.devs && p != d
      && (forall t :: t in cursors ==> cursors[t] == Cursor(r, p, t))
      && IsPending(r, p, all)
      && accepted <= 2
      && s' == s.(links := s.links[Link(d, p) := On(s, Link(d, p)) + [CursorExchange(cursors), Batch(all)][..accepted]])
    case DeliverEv(d, src, replies, ids) =>
      && src in s.devs && src != d
      && On(s, Link(src, d)) != []
      && var rest := On(s, Link(src, d))[1..];
      (match On(s, Link(src, d))[0]
       case Batch(cs) =>
         && replies == [] && |ids| == |cs|
         && NewChanges(s, EchoAll(r, cs, ids))
         && s' == IssueAll(s, EchoAll(r, cs, ids)).(
                    devs := s.devs[d := ReceiveFiring(r, cs, ids)],
                    links := s.links[Link(src, d) := rest],
                    acks := if cs == [] then s.acks else s.acks + {Ack(d, src, cs[|cs| - 1].id)})
       case CursorExchange(m) =>
         && AreReplies(r, m, replies)
         && s' == s.(links := s.links[Link(src, d) := rest][Link(d, src) := On(s, Link(d, src)) + replies]))
    case AckEv(d, peer, id) =>
      Ack(peer, d, id) in s.acks && s' == s.(devs := s.devs[d := AckFrom(r, peer, id)])
    case PruneEv(d) =>
      s' == s.(devs := s.devs[d := Prune(r)])
    case RestartEv(d, started) =>
      IsStart(r.me, Persist(r).db, started) && s' == s.(devs := s.devs[d := started])
    case BootEv(d, m) =>
      IsOutboxMax(r.db.outbox, m) && s' == s.(devs := s.devs[d := Booted(r, m)])
    case GateEv(d, on) =>
      s' == s.(devs := s.devs[d := WithGate(r, if on then r.me else "local")])
    case CutEv(d, p) =>
      s' == s.(links := s.links[Link(d, p) := []])
  }

  function Compacted(r: Replica, after: map<ChangeId, Change>): Replica {
    r.(db := r.db.(outbox := after))
  }

  function WithGate(r: Replica, gate: DeviceId): Replica { r.(db := r.db.(gate := gate)) }

  /** A change enters the history. */
  function Issue(s: Net, c: Change): Net {
    s.(issued := s.issued[c.id := c], latest := s.latest[c.RowKey() := c])
  }

  function IssueAll(s: Net, cs: seq<Change>): Net {
    if cs == [] then s else Issue(IssueAll(s, cs[..|cs| - 1]), cs[|cs| - 1])
  }

  lemma {:induction false} IssueAllFrame(s: Net, cs: seq<Change>)
    ensures IssueAll(s, cs).devs == s.devs && IssueAll(s, cs).path == s.path
    ensures IssueAll(s, cs).links == s.links && IssueAll(s, cs).acks == s.acks
  {
    if cs != [] { IssueAllFrame(s, cs[..|cs| - 1]); }
  }

  predicate NewChanges(s: Net, cs: seq<Change>) {
    && (forall i :: 0 <= i < |cs| ==> cs[i].id !in s.issued)
    && (forall i, j :: 0 <= i < j < |cs| ==> cs[i].id != cs[j].id)
  }

  /** A device id is never the gate's off value. */
  predicate Fresh(r: Replica, d: DeviceId) {
    && r.me == d && d != "local" && r.db.gate in {d, "local"}
    && r.db.outbox == map[] && r.db.cursors == map[] && r.clock >= 0 && r.db.lamport >= 0
  }

  ghost predicate Init(s: Net) {
    && (forall d :: d in s.devs ==> Fresh(s.devs[d], d))
    && (forall l :: On(s, l) == []) && s.acks == {} && s.issued == map[] && s.latest == map[]
  }

  ghost predicate IsRun(ss: seq<Net>, evs: seq<Event>) {
    && |ss| == |evs| + 1
    && Init(ss[0])
    && forall i :: 0 <= i < |evs| ==> Step(ss[i], evs[i], ss[i + 1])
  }

  /** What the surroundings may do to the devices at any moment: hand over an acknowledgement, any number of times;
      prune, start or switch the gate; write a table; cut a link; let a flush through up to any message. */
  ghost predicate MayHappen(s: Net, ev: Event) {
    ev.d in s.devs &&
    match ev
    case AckEv(d, peer, id) => Ack(peer, d, id) in s.acks
    case BootEv(d, m) => IsOutboxMax(s.devs[d].db.outbox, m)
    case SendEv(d, p, after, all, accepted) =>
      && p in s.devs && p != d && IsCompaction(s.devs[d].me, s.devs[d].db.outbox, after)
      && IsPending(Compacted(s.devs[d], after), p, all) && accepted <= |Chunks(all, SEND_CHUNK)|
    case _ => ev.PruneEv? || ev.GateEv? || ev.AppWriteEv? || ev.CutEv?
  }

  /** None of it is ever ruled out by the state the network is in. */
  lemma AnythingMayHappen(s: Net, ev: Event) returns (s': Net)
    requires MayHappen(s, ev)
    ensures Step(s, ev, s')
    ensures s'.acks == s.acks
    ensures ev.SendEv? ==>
              On(s', Link(ev.d, ev.p))
              == On(s, Link(ev.d, ev.p)) + Batches(Chunks(ev.all, SEND_CHUNK)[..ev.accepted])
  {
    var r := s.devs[ev.d];
    match ev
    case AckEv(d, peer, id) => s' := s.(devs := s.devs[d := AckFrom(r, peer, id)]);
    case PruneEv(d) => s' := s.(devs := s.devs[d := Prune(r)]);
    case BootEv(d, m) => s' := s.(devs := s.devs[d := Booted(r, m)]);
    case GateEv(d, on) => s' := s.(devs := s.devs[d := WithGate(r, if on then r.me else "local")]);
    case AppWriteEv(d, store) => s' := AfterWrite(s, d, store);
    case CutEv(d, p) => s' := s.(links := s.links[Link(d, p) := []]);
    case SendEv(d, p, after, all, accepted) =>
      var msgs := On(s, Link(d, p)) + Batches(Chunks(all, SEND_CHUNK)[..accepted]);
      s' := s.(devs := s.devs[d := Compacted(r, after)], links := s.links[Link(d, p) := msgs]);
    case _ => assert false;
  }

  /** On one device, a statement and its triggers: the captured entries are recorded one after the other,
      each stamped by the next tick of the stored clock, and the tables are written. */
  lemma StatementIsRecordings(r: Replica, stmt: OutboxHook.Statement)
    requires r.me == r.db.gate && OutboxHook.GateOn(r.db) && OutboxHook.Captured(r.db, stmt) != []
    ensures 1 <= |OutboxHook.Captured(r.db, stmt)| <= 2
    ensures AreRecordings(r, OutboxHook.Captured(r.db, stmt), OutboxHook.Exec(r.db, stmt))
  {
    match stmt
    case InsertRow(_, _, _, _) =>
    case UpdateRow(_, _, _) =>
    case UpsertRow(_, _, _, _) =>
    case DeleteRow(_, _) =>
  }

  predicate AreRecordings(r: Replica, cs: seq<Change>, after: Db)
    requires 1 <= |cs| <= 2
  {
    var first := Recorded(r, ViaTriggers, cs[0]);
    && (forall i :: 0 <= i < |cs| ==> cs[i].dev == r.me && cs[i].ts == r.db.lamport + 1 + i)
    && r.(db := after) == WithStore(if |cs| == 1 then first else Recorded(first, ViaTriggers, cs[1]), after.store)
  }

  function WithStore(r: Replica, store: Store): Replica { r.(db := r.db.(store := store)) }

  /** A stretch of a run. */
  ghost predicate IsPiece(ss: seq<Net>, evs: seq<Event>) {
    |ss| == |evs| + 1 && forall i :: 0 <= i < |evs| ==> Step(ss[i], evs[i], ss[i + 1])
  }

  lemma PiecesJoin(ss: seq<Net>, evs: seq<Event>, more: seq<Net>, evs': seq<Event>)
    requires IsPiece(ss, evs) && IsPiece(more, evs') && more[0] == ss[|evs|]
    ensures IsPiece(ss + more[1..], evs + evs') && (ss + more[1..])[|evs + evs'|] == more[|evs'|]
  {
    var all, events := ss + more[1..], evs + evs';
    forall i | 0 <= i < |events|
      ensures Step(all[i], events[i], all[i + 1])
    {
      if i < |evs| {
        assert all[i] == ss[i] && all[i + 1] == ss[i + 1];
      } else {
        assert all[i] == more[i - |evs|] && all[i + 1] == more[i - |evs| + 1];
      }
    }
  }

  /** Recordings of `cs` and writes, all of device `d`. */
  predicate RecordsAndWrites(evs: seq<Event>, d: DeviceId, cs: seq<Change>) {
    forall ev :: ev in evs ==> ev.d == d && (ev.AppWriteEv? || (ev.RecordEv? && ev.c in cs))
  }

  /** One or two changes have entered the history. */
  predicate IssuedMore(s: Net, cs: seq<Change>, s': Net)
    requires cs != []
  {
    && (forall id :: id in s.issued ==> id in s'.issued && s'.issued[id] == s.issued[id])
    && (forall id :: id in s'.issued ==> id in s.issued || id == cs[0].id || id == cs[|cs| - 1].id)
    && cs[0].id in s'.issued && s'.issued[cs[0].id] == cs[0]
  }

  /** A statement with its triggers is a piece of a run: one recording per captured entry, then the write
      of the tables. */
  lemma StatementIsSteps(s: Net, d: DeviceId, stmt: OutboxHook.Statement) returns (ss: seq<Net>, evs: seq<Event>)
    requires s.path.ViaTriggers? && d in s.devs && s.devs[d].me == s.devs[d].db.gate && OutboxHook.GateOn(s.devs[d].db)
    requires var cs := OutboxHook.Captured(s.devs[d].db, stmt);
             cs != [] && (forall c :: c in cs ==> c.id !in s.issued) && (|cs| == 2 ==> cs[0].id != cs[1].id)
    ensures IsPiece(ss, evs) && ss[0] == s && RecordsAndWrites(evs, d, OutboxHook.Captured(s.devs[d].db, stmt))
    ensures ss[|evs|].devs == s.devs[d := s.devs[d].(db := OutboxHook.Exec(s.devs[d].db, stmt))]
    ensures ss[|evs|].links == s.links && ss[|evs|].acks == s.acks && ss[|evs|].path == s.path
    ensures IssuedMore(s, OutboxHook.Captured(s.devs[d].db, stmt), ss[|evs|])
  {
    StatementIsRecordings(s.devs[d], stmt);
    ss, evs := CapturesAreSteps(s, d, OutboxHook.Captured(s.devs[d].db, stmt), OutboxHook.Exec(s.devs[d].db, stmt));
  }

  /** The piece goes from `s` to a state in which device `d` has the database `after` and `cs` has been made. */
  ghost predicate CapturedPiece(ss: seq<Net>, evs: seq<Event>, s: Net, d: DeviceId, cs: seq<Change>, after: Db)
    requires d in s.devs && cs != []
  {
    && IsPiece(ss, evs) && ss[0] == s && RecordsAndWrites(evs, d, cs) && IssuedMore(s, cs, ss[|evs|])
    && ss[|evs|].devs == s.devs[d := s.devs[d].(db := after)]
    && ss[|evs|].links == s.links && ss[|evs|].acks == s.acks && ss[|evs|].path == s.path
  }

  lemma CapturesAreSteps(s: Net, d: DeviceId, cs: seq<Change>, after: Db) returns (ss: seq<Net>, evs: seq<Event>)
    requires s.path.ViaTriggers? && d in s.devs && s.devs[d].me == s.devs[d].db.gate && OutboxHook.GateOn(s.devs[d].db)
    requires 1 <= |cs| <= 2 && (forall c :: c in cs ==> c.id !in s.issued) && (|cs| == 2 ==> cs[0].id != cs[1].id)
    requires AreRecordings(s.devs[d], cs, after)
    ensures CapturedPiece(ss, evs, s, d, cs, after)
  {
    assert cs[0] in cs && cs[|cs| - 1] in cs;
    if |cs| == 1 {
      assert cs == [cs[0]];
      ss, evs := CaptureOne(s, d, cs[0], after);
    } else {
      assert cs == [cs[0], cs[1]];
      ss, evs := CaptureTwo(s, d, cs[0], cs[1], after);
    }
  }

  lemma CaptureOne(s: Net, d: DeviceId, c: Change, after: Db) returns (ss: seq<Net>, evs: seq<Event>)
    requires s.path.ViaTriggers? && d in s.devs && Recordable(s, d, c) && AreRecordings(s.devs[d], [c], after)
    ensures CapturedPiece(ss, evs, s, d, [c], after)
  {
    ss, evs := OneRecording(s, d, c, after.store);
  }

  lemma CaptureTwo(s: Net, d: DeviceId, c: Change, c': Change, after: Db) returns (ss: seq<Net>, evs: seq<Event>)
    requires s.path.ViaTriggers? && d in s.devs && Recordable(s, d, c) && AreRecordings(s.devs[d], [c, c'], after)
    requires c'.id !in s.issued && c'.id != c.id
    ensures CapturedPiece(ss, evs, s, d, [c, c'], after)
  {
    assert [c, c'][1] == c';
    ss, evs := TwoRecordings(s, d, c, c', after.store);
  }

  lemma OneRecording(s: Net, d: DeviceId, c: Change, store: Store) returns (ss: seq<Net>, evs: seq<Event>)
    requires d in s.devs && Recordable(s, d, c)
    ensures IsPiece(ss, evs) && ss[0] == s && evs == [RecordEv(d, c), AppWriteEv(d, store)]
    ensures ss[|evs|] == Issue(s, c).(devs := s.devs[d := WithStore(Recorded(s.devs[d], s.path, c), store)])
    ensures IssuedMore(s, [c], ss[|evs|])
  {
    var first := AfterRecording(s, d, c);
    RecordingIsStep(s, d, c);
    WriteIsStep(first, d, store);
    ss, evs := [s, first, AfterWrite(first, d, store)], [RecordEv(d, c), AppWriteEv(d, store)];
  }

  lemma TwoRecordings(s: Net, d: DeviceId, c: Change, c': Change, store: Store)
    returns (ss: seq<Net>, evs: seq<Event>)
    requires d in s.devs && Recordable(s, d, c) && c'.id !in s.issued && c'.id != c.id
    requires c'.dev == s.devs[d].me && c'.ts == Clock(s, d) + 2
    ensures IsPiece(ss, evs) && ss[0] == s && evs == [RecordEv(d, c), RecordEv(d, c'), AppWriteEv(d, store)]
    ensures ss[|evs|] == Issue(Issue(s, c), c').(devs :=
              s.devs[d := WithStore(Recorded(Recorded(s.devs[d], s.path, c), s.path, c'), store)])
    ensures IssuedMore(s, [c, c'], ss[|evs|])
  {
    var rest, evs' := OneRecording(AfterRecording(s, d, c), d, c', store);
    RecordingIsStep(s, d, c);
    var one, ev := [s, AfterRecording(s, d, c)], [RecordEv(d, c)];
    assert IsPiece(one, ev);
    PiecesJoin(one, ev, rest, evs');
    ss, evs := one + rest[1..], ev + evs';
  }

  predicate Recordable(s: Net, d: DeviceId, c: Change)
    requires d in s.devs
  {
    && c.id !in s.issued && c.dev == s.devs[d].me && c.ts == Clock(s, d) + 1
    && (s.path.ViaTriggers? ==> OutboxHook.GateOn(s.devs[d].db) && s.devs[d].db.gate == s.devs[d].me)
  }

  lemma RecordingIsStep(s: Net, d: DeviceId, c: Change)
    requires d in s.devs && Recordable(s, d, c)
    ensures Step(s, RecordEv(d, c), AfterRecording(s, d, c))
  {
  }

  /** `record_change` on a device of the network is a recording step: the change takes the next tick of the engine's
      clock under the device's id. */
  lemma RecordChangeIsStep(s: Net, d: DeviceId, id: ChangeId, table: TableName, row: RowId, op: SyncOp, data: Payload)
    returns (s': Net)
    requires s.path.ViaEngine? && d in s.devs && id !in s.issued
    ensures var c := LocalChange(s.devs[d], id, table, row, op, data);
            && Step(s, RecordEv(d, c), s') && d in s'.devs && s'.devs[d] == RecordChange(s.devs[d], c)
            && c.id == id && c.RowKey() == Key(table, row) && c.op == op && c.data == data
            && Clock(s', d) == c.ts && id in s'.devs[d].db.outbox && s'.devs[d].db.outbox[id] == c
  {
    var c := LocalChange(s.devs[d], id, table, row, op, data);
    RecordingIsStep(s, d, c);
    s' := AfterRecording(s, d, c);
  }

  lemma WriteIsStep(s: Net, d: DeviceId, store: Store)
    requires d in s.devs
    ensures Step(s, AppWriteEv(d, store), AfterWrite(s, d, store))
  {
  }

  function AfterRecording(s: Net, d: DeviceId, c: Change): Net
    requires d in s.devs
  {
    Issue(s, c).(devs := s.devs[d := Recorded(s.devs[d], s.path, c)])
  }

  function AfterWrite(s: Net, d: DeviceId, store: Store): Net
    requires d in s.devs
  {
    s.(devs := s.devs[d := WithStore(s.devs[d], store)])
  }
}
