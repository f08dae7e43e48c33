/** Runs and receipts that do lose an update, each with the exact condition it comes from. */
module LostUpdates {
  import opened SyncTypes
  import opened Materializer
  import opened EngineSpec
  import opened OutboxHook
  import opened Receipt
  import opened Network
  import opened NoLostUpdate
  import Restarts

  // ---- Small runs, step by step ------------------------------------------------------------------

  /** Batches with one change. */
  function ReceivedOne(r: Replica, c: Change): Replica {
    var a := ApplyOne(r, c);
    a.(db := a.db.(cursors := a.db.cursors[CursorKey(c.dev, c.table) := Max(0, c.ts)]))
  }

  lemma ReceiveOneChange(r: Replica, c: Change)
    ensures Receive(r, [c]) == ReceivedOne(r, c)
  {
    assert [c][..0] == [] && ApplyAll(r, [c][..0]) == r;
    assert HighWater([c][..0], CursorKey(c.dev, c.table)) == 0;
    assert CursorKeys([c]) == {CursorKey(c.dev, c.table)};
    assert Receive(r, [c]).db.cursors == ReceivedOne(r, c).db.cursors;
  }

  /** A run with one writer and quiet receipts, starts unrestricted. */
  ghost predicate Ordinary(ss: seq<Net>, evs: seq<Event>, t: TableName, w: DeviceId) {
    && IsRun(ss, evs)
    && forall j :: 0 <= j < |evs| ==> SingleWriter(evs[j], t, w) && QuietReceipt(ss[j], evs[j], t, w)
  }

  /** `c` is its row's last change, and neither recorded by the writer or the peer, nor on any link. */
  ghost predicate Lost(s: Net, w: DeviceId, p: DeviceId, c: Change) {
    && w in s.devs && p in s.devs && c.RowKey() in s.latest && s.latest[c.RowKey()] == c
    && !InOutbox(s, w, c) && !InOutbox(s, p, c) && forall l :: On(s, l) == []
  }

  const TABLE: TableName := "workspaces"

  /** Devices "a", with its gate on, and "b", with its gate off. */
  datatype Pair = Pair(a: Replica, b: Replica, ab: seq<Message>, ba: seq<Message>, acks: set<Ack>,
                       issued: map<ChangeId, Change>, latest: map<Key, Change>)

  function NetOf(x: Pair): Net {
    Net(ViaTriggers, map["a" := x.a, "b" := x.b], map[Link("a", "b") := x.ab, Link("b", "a") := x.ba], x.acks,
        x.issued, x.latest)
  }

  /** Device "a" with an outbox, cursors and the two clocks. */
  function Writer(outbox: map<ChangeId, Change>, cursors: map<CursorKey, int>, clock: int, lamport: int): Replica {
    Replica("a", clock, Db(outbox, cursors, {"b"}, lamport, "a", Store(map[], map[])))
  }

  const PEER := Replica("b", 0, Db(map[], map[], {"a"}, 0, "local", Store(map[], map[])))

  const START := Pair(Writer(map[], map[], 0, 0), PEER, [], [], {}, map[], map[])

  /** A run from the start to `x`. */
  ghost predicate RunTo(ss: seq<Net>, evs: seq<Event>, x: Pair) {
    Ordinary(ss, evs, TABLE, "a") && ss[0] == NetOf(START) && ss[|evs|] == NetOf(x)
  }

  lemma RunStart() returns (ss: seq<Net>, evs: seq<Event>)
    ensures RunTo(ss, evs, START) && Regime(ss[0], "a") && Synced(TABLE)
  {
    assert SYNCED_TABLES[5] == "workspaces";
    ss, evs := [NetOf(START)], [];
  }

  lemma RunStep(ss: seq<Net>, evs: seq<Event>, x: Pair, ev: Event, x': Pair) returns (ss': seq<Net>, evs': seq<Event>)
    requires RunTo(ss, evs, x) && Step(NetOf(x), ev, NetOf(x'))
    requires SingleWriter(ev, TABLE, "a") && QuietReceipt(NetOf(x), ev, TABLE, "a")
    ensures RunTo(ss', evs', x') && ss' == ss + [NetOf(x')] && evs' == evs + [ev]
  {
    ss', evs' := ss + [NetOf(x')], evs + [ev];
    forall j | 0 <= j < |evs'|
      ensures Step(ss'[j], evs'[j], ss'[j + 1])
      ensures SingleWriter(evs'[j], TABLE, "a") && QuietReceipt(ss'[j], evs'[j], TABLE, "a")
    {
      if j < |evs| { assert ss'[j] == ss[j] && evs'[j] == evs[j] && ss'[j + 1] == ss[j + 1]; }
    }
  }

  lemma Set(x: Pair, a: Replica, b: Replica, ab: seq<Message>, ba: seq<Message>)
    ensures NetOf(x).devs["a" := a] == NetOf(x.(a := a)).devs && NetOf(x).devs["b" := b] == NetOf(x.(b := b)).devs
    ensures NetOf(x).links[Link("a", "b") := ab] == NetOf(x.(ab := ab)).links
    ensures NetOf(x).links[Link("b", "a") := ba] == NetOf(x.(ba := ba)).links
  {
  }

  // The steps of the two devices.

  function Records(x: Pair, c: Change): Pair {
    x.(a := Recorded(x.a, ViaTriggers, c), issued := x.issued[c.id := c], latest := x.latest[c.RowKey() := c])
  }

  lemma RunRecord(ss: seq<Net>, evs: seq<Event>, x: Pair, c: Change) returns (ss': seq<Net>, evs': seq<Event>)
    requires RunTo(ss, evs, x) && x.a.me == x.a.db.gate == "a" && c.id !in x.issued
    requires c.dev == "a" && c.ts == x.a.db.lamport + 1
    ensures RunTo(ss', evs', Records(x, c)) && ss' == ss + [NetOf(Records(x, c))] && evs' == evs + [RecordEv("a", c)]
  {
    Set(x, Recorded(x.a, ViaTriggers, c), x.b, x.ab, x.ba);
    RecordingIsStep(NetOf(x), "a", c);
    ss', evs' := RunStep(ss, evs, x, RecordEv("a", c), Records(x, c));
  }

  /** The entry is the outbox of "a" and pending for "b". */
  predicate OnlyPending(x: Pair, c: Change) {
    x.a.db.outbox == map[c.id := c] && c.table == TABLE && c.dev == x.a.me && Cursor(x.a, "b", TABLE) < c.ts
  }

  lemma OnlyPendingIsPending(x: Pair, c: Change)
    requires OnlyPending(x, c)
    ensures IsPending(x.a, "b", [c]) && IsCompaction(x.a.me, x.a.db.outbox, x.a.db.outbox)
    ensures Compacted(x.a, x.a.db.outbox) == x.a
  {
    assert x.a.db.outbox[c.id] == c && KeptFor(x.a.me, x.a.db.outbox, c, c.id);
  }

  /** A flush. */
  lemma RunSend(ss: seq<Net>, evs: seq<Event>, x: Pair, c: Change) returns (ss': seq<Net>, evs': seq<Event>)
    requires RunTo(ss, evs, x) && OnlyPending(x, c)
    ensures RunTo(ss', evs', x.(ab := x.ab + [Batch([c])])) && ss <= ss' && evs <= evs' && |evs'| == |evs| + 1
  {
    OnlyPendingIsPending(x, c);
    Set(x, x.a, x.b, x.ab + [Batch([c])], x.ba);
    assert Chunks([c], SEND_CHUNK) == [[c]] && [[c]][..1] == [[c]] && Batches([[c]]) == [Batch([c])];
    ss', evs' := RunStep(ss, evs, x, SendEv("a", "b", x.a.db.outbox, [c], 1), x.(ab := x.ab + [Batch([c])]));
  }

  function Exchange(x: Pair): Message { CursorExchange(map[TABLE := Cursor(x.a, "b", TABLE)]) }

  /** A reconciliation of which only the cursors get through. */
  lemma RunAsk(ss: seq<Net>, evs: seq<Event>, x: Pair, c: Change) returns (ss': seq<Net>, evs': seq<Event>)
    requires RunTo(ss, evs, x) && OnlyPending(x, c)
    ensures RunTo(ss', evs', x.(ab := x.ab + [Exchange(x)])) && ss <= ss' && evs <= evs' && |evs'| == |evs| + 1
  {
    OnlyPendingIsPending(x, c);
    Set(x, x.a, x.b, x.ab + [Exchange(x)], x.ba);
    assert [Exchange(x), Batch([c])][..1] == [Exchange(x)];
    var asked := x.(ab := x.ab + [Exchange(x)]);
    ss', evs' := RunStep(ss, evs, x, ReconcileEv("a", "b", Exchange(x).cursors, [c], 1), asked);
  }

  function Takes(x: Pair, c: Change): Pair
    requires x.ab != []
  {
    x.(b := ReceivedOne(x.b, c), ab := x.ab[1..], acks := x.acks + {Ack("b", "a", c.id)})
  }

  const IDS := TriggerIds("8", "9")

  lemma RunTake(ss: seq<Net>, evs: seq<Event>, x: Pair, c: Change) returns (ss': seq<Net>, evs': seq<Event>)
    requires RunTo(ss, evs, x) && !GateOn(x.b.db) && x.ab != [] && x.ab[0] == Batch([c])
    ensures RunTo(ss', evs', Takes(x, c)) && ss <= ss' && evs <= evs' && |evs'| == |evs| + 1
  {
    Set(x, x.a, ReceivedOne(x.b, c), x.ab[1..], x.ba);
    QuietOne(x.b, c);
    ss', evs' := RunStep(ss, evs, x, DeliverEv("b", "a", [], [IDS]), Takes(x, c));
  }

  lemma QuietOne(r: Replica, c: Change)
    requires Quiet(r, [c])
    ensures EchoAll(r, [c], [IDS]) == [] && ReceiveFiring(r, [c], [IDS]) == ReceivedOne(r, c)
  {
    QuietIsPlain(r, [c], [IDS]);
    ReceiveOneChange(r, c);
  }

  /** "b" answers the exchange with its one change above the cursor. */
  lemma RunAnswer(ss: seq<Net>, evs: seq<Event>, x: Pair, since: int, c: Change)
    returns (ss': seq<Net>, evs': seq<Event>)
    requires RunTo(ss, evs, x) && x.ab != [] && x.ab[0] == CursorExchange(map[TABLE := since])
    requires IsOutboxSince(x.b.db.outbox, TABLE, since, [c])
    ensures RunTo(ss', evs', x.(ab := x.ab[1..], ba := x.ba + [Batch([c])]))
    ensures ss <= ss' && evs <= evs' && |evs'| == |evs| + 1
  {
    Set(x, x.a, x.b, x.ab[1..], x.ba);
    Set(x.(ab := x.ab[1..]), x.a, x.b, x.ab[1..], x.ba + [Batch([c])]);
    var m := map[TABLE := since];
    assert TABLE in m && m[TABLE] == since;
    var answered := x.(ab := x.ab[1..], ba := x.ba + [Batch([c])]);
    ss', evs' := RunStep(ss, evs, x, DeliverEv("b", "a", [Batch([c])], []), answered);
  }

  function TakesBack(x: Pair, c: Change): Pair
    requires x.ba != []
  {
    x.(a := ReceivedOne(x.a, c), ba := x.ba[1..], acks := x.acks + {Ack("a", "b", c.id)})
  }

  /** A relayed delete of a row that "a" does not have. */
  lemma RunTakeBack(ss: seq<Net>, evs: seq<Event>, x: Pair, c: Change) returns (ss': seq<Net>, evs': seq<Event>)
    requires RunTo(ss, evs, x) && x.ba != [] && x.ba[0] == Batch([c])
    requires c.op.Delete? && x.a.db.store.rows == map[]
    ensures RunTo(ss', evs', TakesBack(x, c)) && ss <= ss' && evs <= evs' && |evs'| == |evs| + 1
  {
    Set(x, ReceivedOne(x.a, c), x.b, x.ab, x.ba[1..]);
    assert [c][..0] == [] && WritesNothing(ApplyAll(x.a, [c][..0]), c) && AllWriteNothing(x.a, [c][..0]);
    QuietOne(x.a, c);
    ss', evs' := RunStep(ss, evs, x, DeliverEv("a", "b", [], [IDS]), TakesBack(x, c));
  }

  lemma RunAck(ss: seq<Net>, evs: seq<Event>, x: Pair, id: ChangeId) returns (ss': seq<Net>, evs': seq<Event>)
    requires RunTo(ss, evs, x) && Ack("b", "a", id) in x.acks
    ensures RunTo(ss', evs', x.(a := AckFrom(x.a, "b", id))) && ss <= ss' && evs <= evs' && |evs'| == |evs| + 1
  {
    Set(x, AckFrom(x.a, "b", id), x.b, x.ab, x.ba);
    ss', evs' := RunStep(ss, evs, x, AckEv("a", "b", id), x.(a := AckFrom(x.a, "b", id)));
  }

  lemma RunPrune(ss: seq<Net>, evs: seq<Event>, x: Pair) returns (ss': seq<Net>, evs': seq<Event>)
    requires RunTo(ss, evs, x)
    ensures RunTo(ss', evs', x.(a := Prune(x.a))) && ss <= ss' && evs <= evs' && |evs'| == |evs| + 1
  {
    Set(x, Prune(x.a), x.b, x.ab, x.ba);
    ss', evs' := RunStep(ss, evs, x, PruneEv("a"), x.(a := Prune(x.a)));
  }

  lemma RunBoot(ss: seq<Net>, evs: seq<Event>, x: Pair, m: int) returns (ss': seq<Net>, evs': seq<Event>)
    requires RunTo(ss, evs, x) && IsOutboxMax(x.a.db.outbox, m)
    ensures RunTo(ss', evs', x.(a := Booted(x.a, m))) && ss' == ss + [NetOf(x.(a := Booted(x.a, m)))]
    ensures evs' == evs + [BootEv("a", m)]
  {
    Set(x, Booted(x.a, m), x.b, x.ab, x.ba);
    ss', evs' := RunStep(ss, evs, x, BootEv("a", m), x.(a := Booted(x.a, m)));
  }

  // The runs.

  /** Device "a" records `c`, the only entry of its outbox, "b" takes it and the acknowledgement is handled;
      on the way "a" may ask "b" for what is above its cursor, so that "b" sends `c` back. */
  function AfterRound(x: Pair, c: Change, ask: bool): Pair {
    var a := Writer(map[], x.a.db.cursors[CursorKey("b", TABLE) := c.ts], x.a.clock, c.ts);
    Records(x, c).(a := a, b := ReceivedOne(x.b, c), acks := x.acks + {Ack("b", "a", c.id)},
                   ba := x.ba + if ask then [Batch([c])] else [])
  }

  predicate NextUp(x: Pair, c: Change) {
    && x.a == Writer(map[], x.a.db.cursors, x.a.clock, c.ts - 1) && Cursor(x.a, "b", TABLE) == c.ts - 1
    && x.b.me == "b" && !GateOn(x.b.db) && x.ab == []
    && c.table == TABLE && c.dev == "a" && c.id !in x.issued
    && forall id :: id in x.b.db.outbox ==> id != c.id && x.b.db.outbox[id].ts < c.ts
  }

  function Sending(x: Pair, c: Change): Pair { Records(x, c).(ab := [Batch([c])]) }

  function Taken(x: Pair, c: Change, ask: bool): Pair {
    AfterRound(x, c, ask).(a := Recorded(x.a, ViaTriggers, c))
  }

  lemma Round(ss: seq<Net>, evs: seq<Event>, x: Pair, c: Change, ask: bool)
    returns (ss': seq<Net>, evs': seq<Event>)
    requires RunTo(ss, evs, x) && NextUp(x, c)
    ensures RunTo(ss', evs', AfterRound(x, c, ask))
  {
    ss', evs' := RunRecord(ss, evs, x, c);
    ss', evs' := RunSend(ss', evs', Records(x, c), c);
    assert Records(x, c).(ab := x.ab + [Batch([c])]) == Sending(x, c);
    ss', evs' := RoundTaken(ss', evs', x, c, ask);
    ss', evs' := RoundEnds(ss', evs', x, c, ask);
  }

  lemma RoundTaken(ss: seq<Net>, evs: seq<Event>, x: Pair, c: Change, ask: bool)
    returns (ss': seq<Net>, evs': seq<Event>)
    requires NextUp(x, c) && RunTo(ss, evs, Sending(x, c))
    ensures RunTo(ss', evs', Taken(x, c, ask))
  {
    if ask {
      ss', evs' := RoundAsked(ss, evs, x, c);
    } else {
      ss', evs' := RunTake(ss, evs, Sending(x, c), c);
      assert Takes(Sending(x, c), c) == Taken(x, c, false);
    }
  }

  lemma RoundAsked(ss: seq<Net>, evs: seq<Event>, x: Pair, c: Change) returns (ss': seq<Net>, evs': seq<Event>)
    requires NextUp(x, c) && RunTo(ss, evs, Sending(x, c))
    ensures RunTo(ss', evs', Taken(x, c, true))
  {
    var sent, ex := Sending(x, c), CursorExchange(map[TABLE := c.ts - 1]);
    ss', evs' := RunAsk(ss, evs, sent, c);
    assert sent.(ab := sent.ab + [Exchange(sent)]) == sent.(ab := [Batch([c]), ex]);
    AnswerIs(x.b, c);
    ss', evs' := TakenAndAnswered(ss', evs', sent.(ab := [Batch([c]), ex]), c, c.ts - 1);
  }

  lemma TakenAndAnswered(ss: seq<Net>, evs: seq<Event>, x: Pair, c: Change, since: int)
    returns (ss': seq<Net>, evs': seq<Event>)
    requires RunTo(ss, evs, x) && !GateOn(x.b.db) && x.ab == [Batch([c]), CursorExchange(map[TABLE := since])]
    requires IsOutboxSince(ReceivedOne(x.b, c).db.outbox, TABLE, since, [c])
    ensures RunTo(ss', evs', Takes(x, c).(ab := [], ba := x.ba + [Batch([c])]))
  {
    ss', evs' := RunTake(ss, evs, x, c);
    ss', evs' := RunAnswer(ss', evs', Takes(x, c), since, c);
    assert Takes(x, c).ab[1..] == [];
  }

  lemma AnswerIs(b: Replica, c: Change)
    requires forall id :: id in b.db.outbox ==> id != c.id && b.db.outbox[id].ts < c.ts
    ensures IsOutboxSince(ReceivedOne(b, c).db.outbox, c.table, c.ts - 1, [c])
  {
    var out := ReceivedOne(b, c).db.outbox;
    assert out == b.db.outbox[c.id := c] && out[c.id] == c;
  }

  /** The acknowledgement is handled and the entry pruned. */
  lemma RoundEnds(ss: seq<Net>, evs: seq<Event>, x: Pair, c: Change, ask: bool)
    returns (ss': seq<Net>, evs': seq<Event>)
    requires NextUp(x, c) && RunTo(ss, evs, Taken(x, c, ask))
    ensures RunTo(ss', evs', AfterRound(x, c, ask))
  {
    var taken := Taken(x, c, ask);
    ss', evs' := RunAck(ss, evs, taken, c.id);
    var acked := taken.(a := AckFrom(taken.a, "b", c.id));
    assert acked.a.db.outbox[c.id] == c && Delivered(acked.a.db, c);
    assert Prune(acked.a).db.outbox == map[];
    ss', evs' := RunPrune(ss', evs', acked);
  }

  const E1 := Change("1", TABLE, "r", Delete, KeyOnly, 1, "a")
  const E2 := Change("2", TABLE, "s", Delete, KeyOnly, 2, "a")

  function Next(row: RowId, ts: int): Change {
    Change("3", TABLE, row, Update, Record(Row("x", 0, "a")), ts, "a")
  }

  /** The writer's only entry, delivered and acknowledged, is pruned; the start finds an empty outbox and
      bootstraps the clock to 0; the next update, of whatever row, repeats a stamp that the cursor says the
      peer has. It is never pending, the peer never gets it, and the next pruning drops it. */
  lemma BootLosesUpdate(row: RowId) returns (ss: seq<Net>, evs: seq<Event>)
    ensures Ordinary(ss, evs, TABLE, "a") && Regime(ss[0], "a") && Synced(TABLE)
    ensures Lost(ss[|evs|], "a", "b", Next(row, 1))
  {
    ss, evs := RunStart();
    ss, evs := Round(ss, evs, START, E1, false);
    var x, c := AfterRound(START, E1, false), Next(row, 1);
    ss, evs := RunBoot(ss, evs, x, 0);
    var booted := x.(a := Booted(x.a, 0));
    ss, evs := RunRecord(ss, evs, booted, c);
    ss, evs := PrunedLost(ss, evs, Records(booted, c), c);
  }

  // The relayed changes "b" sends back stay in flight until the outbox of "a" has been pruned.

  const ROUND1 := AfterRound(START, E1, true)
  const ROUND2 := AfterRound(ROUND1, E2, true)

  /** "a" has taken back its first change and handled the acknowledgement of it again. */
  const LOWERED := ROUND2.(a := Writer(map["1" := E1], CURSORS[CursorKey("b", TABLE) := 1], 2, 2),
                           ba := [Batch([E2])], acks := ROUND2.acks + {Ack("a", "b", "1")})
  const CURSORS: map<CursorKey, int> := map[CursorKey("b", TABLE) := 2, CursorKey("a", TABLE) := 1]

  lemma RunLowered() returns (ss: seq<Net>, evs: seq<Event>)
    ensures RunTo(ss, evs, LOWERED) && Regime(ss[0], "a") && Synced(TABLE)
  {
    ss, evs := RunStart();
    ss, evs := Round(ss, evs, START, E1, true);
    ss, evs := Round(ss, evs, ROUND1, E2, true);
    FirstBack();
    ss, evs := RunTakeBack(ss, evs, ROUND2, E1);
    ss, evs := RunAck(ss, evs, TakesBack(ROUND2, E1), "1");
  }

  lemma FirstBack()
    ensures ROUND2.ba == [Batch([E1]), Batch([E2])] && TakesBack(ROUND2, E1).ba == [Batch([E2])]
    ensures ROUND2.acks == {Ack("b", "a", "1"), Ack("b", "a", "2")}
    ensures ROUND2.a == Writer(map[], map[CursorKey("b", TABLE) := 2], 0, 2)
    ensures AckFrom(ReceivedOne(ROUND2.a, E1), "b", "1") == LOWERED.a
  {
    SecondRound();
    FirstTakenBack(ROUND2.a);
  }

  lemma SecondRound()
    ensures ROUND2.a == Writer(map[], map[CursorKey("b", TABLE) := 2], 0, 2)
  {
    assert ROUND2.a.db.cursors == map[CursorKey("b", TABLE) := 2];
  }

  lemma FirstTakenBack(r: Replica)
    requires r == Writer(map[], map[CursorKey("b", TABLE) := 2], 0, 2)
    ensures AckFrom(ReceivedOne(r, E1), "b", "1")
            == Writer(map["1" := E1], CURSORS[CursorKey("b", TABLE) := 1], 2, 2)
  {
    AbsentDelete(r, E1);
  }

  /** Taking a delete of a row that is absent. */
  lemma AbsentDelete(r: Replica, c: Change)
    requires c.op.Delete? && r.db.store == Store(map[], map[]) && c.ts >= 0 && !Dominated(r.me, r.db.outbox, c)
    ensures var m := Merge(r, c.ts);
            ReceivedOne(r, c) == m.(db := m.db.(outbox := r.db.outbox[c.id := c],
                                                cursors := r.db.cursors[CursorKey(c.dev, c.table) := c.ts]))
  {
    assert r.db.store.rows - {c.RowKey()} == map[];
  }

  /** From here a start, a recording of `c`, the relayed delete `e` and its repeated acknowledgement lose `c`. */
  ghost predicate Doomed(x: Pair, e: Change, c: Change) {
    && x.a.me == "a" && IsOutboxMax(x.a.db.outbox, c.ts - 1) && c.ts >= 1 && c.ts - 1 >= Cursor(x.a, "b", TABLE)
    && x.b.me == "b" && c.id !in x.issued && c.id !in x.b.db.outbox && c.dev == "a" && c.table == TABLE
    && x.ab == [] && x.ba == [Batch([e])] && Ack("b", "a", e.id) in x.acks
    && e.op.Delete? && e.dev == "a" && e.table == TABLE && e.id != c.id && e.ts == c.ts
    && x.a.db.store == Store(map[], map[]) && x.a.db.known == {"b"}
  }

  lemma LoweredIsDoomed(c: Change)
    requires c.id == "3" && c.ts == 2 && c.dev == "a" && c.table == TABLE
    ensures Doomed(LOWERED, E2, c)
  {
    assert LOWERED.a.db.outbox["1"] == E1;
    PeerHasBoth();
  }

  lemma PeerHasBoth()
    ensures ROUND2.b.me == "b" && ROUND2.b.db.outbox == map["1" := E1, "2" := E2]
  {
    AbsentDelete(PEER, E1);
    AbsentDelete(ReceivedOne(PEER, E1), E2);
  }

  lemma RunDoomed(c: Change) returns (ss: seq<Net>, evs: seq<Event>, x: Pair)
    requires c.id == "3" && c.ts == 2 && c.dev == "a" && c.table == TABLE
    ensures RunTo(ss, evs, x) && Regime(ss[0], "a") && Synced(TABLE) && Doomed(x, E2, c)
  {
    ss, evs := RunLowered();
    x := LOWERED;
    LoweredIsDoomed(c);
  }

  /** Cursors at or below the outbox maximum do not make a start safe. Two changes are delivered, acknowledged
      and pruned; the first is relayed back and its acknowledgement repeated, so that the start finds the
      cursor and the outbox maximum both at 1; the next update takes stamp 2 again. It is pending, but then the
      second change is relayed back too, its repeated acknowledgement moves the cursor to 2, and the update is
      pruned without having been sent. */
  lemma LateAckLosesUpdate(row: RowId) returns (ss: seq<Net>, evs: seq<Event>, i: nat)
    ensures Ordinary(ss, evs, TABLE, "a") && Regime(ss[0], "a") && Synced(TABLE)
    ensures i + 1 < |evs| && evs[i] == BootEv("a", 1) && evs[i + 1] == RecordEv("a", Next(row, 2))
    ensures "a" in ss[i].devs && Restarts.CursorsReached(ss[i], TABLE, "a", 1)
    ensures Lost(ss[|evs|], "a", "b", Next(row, 2))
  {
    var x;
    ss, evs, x := RunDoomed(Next(row, 2));
    i := |evs|;
    ss, evs := DoomedLoses(ss, evs, x, E2, Next(row, 2));
  }

  lemma DoomedLoses(ss: seq<Net>, evs: seq<Event>, x: Pair, e: Change, c: Change)
    returns (ss': seq<Net>, evs': seq<Event>)
    requires RunTo(ss, evs, x) && Doomed(x, e, c)
    ensures Ordinary(ss', evs', TABLE, "a") && ss'[0] == ss[0] && Lost(ss'[|evs'|], "a", "b", c)
    ensures |evs| + 1 < |evs'| && evs'[|evs|] == BootEv("a", c.ts - 1) && evs'[|evs| + 1] == RecordEv("a", c)
    ensures "a" in ss'[|evs|].devs && Restarts.CursorsReached(ss'[|evs|], TABLE, "a", c.ts - 1)
  {
    DoomedReached(x, e, c);
    ss', evs' := BootedAndRecorded(ss, evs, x, c);
    ss', evs' := SecondBack(ss', evs', x, e, c);
  }

  lemma DoomedReached(x: Pair, e: Change, c: Change)
    requires Doomed(x, e, c)
    ensures "a" in NetOf(x).devs && Restarts.CursorsReached(NetOf(x), TABLE, "a", c.ts - 1)
  {
  }

  function BootsAndRecords(x: Pair, c: Change): Pair { Records(x.(a := Booted(x.a, c.ts - 1)), c) }

  lemma BootedAndRecorded(ss: seq<Net>, evs: seq<Event>, x: Pair, c: Change) returns (ss': seq<Net>, evs': seq<Event>)
    requires RunTo(ss, evs, x) && IsOutboxMax(x.a.db.outbox, c.ts - 1)
    requires x.a.me == c.dev == "a" && c.id !in x.issued
    ensures RunTo(ss', evs', BootsAndRecords(x, c)) && ss <= ss' && |ss'| == |ss| + 2
    ensures evs' == evs + [BootEv("a", c.ts - 1), RecordEv("a", c)]
  {
    ss', evs' := RunBoot(ss, evs, x, c.ts - 1);
    ss', evs' := RunRecord(ss', evs', x.(a := Booted(x.a, c.ts - 1)), c);
  }

  lemma SecondBack(ss: seq<Net>, evs: seq<Event>, x: Pair, e: Change, c: Change)
    returns (ss': seq<Net>, evs': seq<Event>)
    requires Doomed(x, e, c) && RunTo(ss, evs, BootsAndRecords(x, c))
    ensures Ordinary(ss', evs', TABLE, "a") && ss <= ss' && evs <= evs' && Lost(ss'[|evs'|], "a", "b", c)
  {
    OvertakenInTheEnd(x, e, c);
    ss', evs' := TakenAndAcked(ss, evs, BootsAndRecords(x, c), e);
    ss', evs' := PrunedLost(ss', evs', BackAndAcked(BootsAndRecords(x, c), e), c);
  }

  function BackAndAcked(x: Pair, e: Change): Pair
    requires x.ba != []
  {
    TakesBack(x, e).(a := AckFrom(ReceivedOne(x.a, e), "b", e.id))
  }

  lemma TakenAndAcked(ss: seq<Net>, evs: seq<Event>, x: Pair, e: Change) returns (ss': seq<Net>, evs': seq<Event>)
    requires RunTo(ss, evs, x) && x.ba == [Batch([e])] && Ack("b", "a", e.id) in x.acks
    requires e.op.Delete? && x.a.db.store.rows == map[]
    ensures RunTo(ss', evs', BackAndAcked(x, e)) && ss <= ss' && evs <= evs'
  {
    ss', evs' := RunTakeBack(ss, evs, x, e);
    ss', evs' := RunAck(ss', evs', TakesBack(x, e), e.id);
  }

  lemma OvertakenInTheEnd(x: Pair, e: Change, c: Change)
    requires Doomed(x, e, c)
    ensures var a := AckFrom(ReceivedOne(BootsAndRecords(x, c).a, e), "b", e.id);
            && a.me == "a" && a.db.known == {"b"} && c.id in a.db.outbox && a.db.outbox[c.id] == c
            && Delivered(a.db, c)
  {
    var r := BootsAndRecords(x, c).a;
    LessIrreflexive("a");
    assert !Dominated(r.me, r.db.outbox, e);
    AbsentDelete(r, e);
  }

  /** Only own entries that the cursor for "b" covers are left, and nothing is in flight. */
  lemma PrunedLost(ss: seq<Net>, evs: seq<Event>, x: Pair, c: Change) returns (ss': seq<Net>, evs': seq<Event>)
    requires RunTo(ss, evs, x) && x.a.db.known == {"b"} && x.ab == x.ba == []
    requires c.id in x.a.db.outbox && x.a.db.outbox[c.id] == c && c.dev == x.a.me && Delivered(x.a.db, c)
    requires c.id !in x.b.db.outbox && c.RowKey() in x.latest && x.latest[c.RowKey()] == c
    ensures RunTo(ss', evs', x.(a := Prune(x.a))) && Lost(ss'[|evs'|], "a", "b", c) && ss <= ss' && evs <= evs'
  {
    ss', evs' := RunPrune(ss, evs, x);
  }

  // ---- Tables with more than one writer ----------------------------------------------------------------

  /** An entry that the next flush to `p` sends. */
  predicate Pending(r: Replica, p: DeviceId, c: Change) {
    c.id in r.db.outbox && r.db.outbox[c.id] == c && c.ts > Cursor(r, p, c.table)
  }

  /** Nothing received or captured takes the id of `c`. */
  predicate KeepsId(cs: seq<Change>, ids: seq<TriggerIds>, c: Change) {
    && (forall x :: x in cs && x.id == c.id ==> x == c)
    && (forall i :: 0 <= i < |ids| ==> ids[i].entry != c.id && ids[i].stamp != c.id)
  }

  lemma FireOneKeepsEntry(r: Replica, x: Change, ids: TriggerIds, c: Change)
    requires c.id in r.db.outbox && r.db.outbox[c.id] == c
    requires (x.id == c.id ==> x == c) && ids.entry != c.id && ids.stamp != c.id
    ensures var out := FireOne(r, x, ids).db.outbox; c.id in out && out[c.id] == c
  {
    FireKeepsEntry(Entered(r, x), x, ids, c);
  }

  lemma FireKeepsEntry(db: Db, x: Change, ids: TriggerIds, c: Change)
    requires c.id in db.outbox && db.outbox[c.id] == c && ids.entry != c.id && ids.stamp != c.id
    ensures var out := Fire(db, x, ids).outbox; c.id in out && out[c.id] == c
  {
  }

  lemma {:induction false} FireAllKeepsEntry(r: Replica, cs: seq<Change>, ids: seq<TriggerIds>, c: Change)
    requires |ids| == |cs| && KeepsId(cs, ids, c) && c.id in r.db.outbox && r.db.outbox[c.id] == c
    ensures var out := FireAll(r, cs, ids).db.outbox; c.id in out && out[c.id] == c
  {
    if cs != [] {
      var n := |cs| - 1;
      assert cs[n] in cs && forall x :: x in cs[..n] ==> x in cs;
      FireAllKeepsEntry(r, cs[..n], ids[..n], c);
      FireOneKeepsEntry(FireAll(r, cs[..n], ids[..n]), cs[n], ids[n], c);
    }
  }

  /** One cursor counts what was received from a peer and what the peer acknowledged. So a batch leaves an
      unsent entry pending for `p` if and only if it brings no change of the entry's table that `p` made, or
      the newest one it brings is older than the entry. */
  lemma BatchKeepsPendingIff(r: Replica, cs: seq<Change>, ids: seq<TriggerIds>, p: DeviceId, c: Change)
    requires |ids| == |cs| && KeepsId(cs, ids, c) && Pending(r, p, c)
    ensures Pending(ReceiveFiring(r, cs, ids), p, c)
            <==> CursorKey(p, c.table) !in CursorKeys(cs) || c.ts > HighWater(cs, CursorKey(p, c.table))
  {
    FireAllKeepsEntry(r, cs, ids, c);
  }

  /** In an account table, which every device writes: an own change is waiting for "b" when a newer one of "b"
      to another row arrives. From then on it is not pending, and pruning drops it as delivered. */
  lemma ReceiptLosesUpdate(ids: TriggerIds) returns (r: Replica, c: Change, theirs: Change)
    requires ids.entry != "1" && ids.stamp != "1"
    ensures c.table == theirs.table == "api_keys" && theirs.dev == "b" && c.dev == r.me == "a" && c.row != theirs.row
    ensures Pending(r, "b", c) && r.db.known == {"b"}
    ensures var after := ReceiveFiring(r, [theirs], [ids]);
            !Pending(after, "b", c) && c.id in after.db.outbox && c.id !in Prune(after).db.outbox
  {
    c := Change("1", "api_keys", "r", Update, Record(Row("x", 0, "a")), 1, "a");
    theirs := Change("2", "api_keys", "s", Update, Record(Row("y", 4, "b")), 5, "b");
    r := Replica("a", 1, Db(map["1" := c], map[], {"b"}, 1, "a", Store(map[], map[])));
    Overtaken(r, theirs, ids, c);
  }

  /** A received change of the only known device overtakes an own entry of the same table stamped no later. */
  lemma Overtaken(r: Replica, theirs: Change, ids: TriggerIds, c: Change)
    requires Pending(r, theirs.dev, c) && c.dev == r.me && r.db.known == {theirs.dev}
    requires theirs.table == c.table && theirs.ts >= c.ts && theirs.id != c.id && KeepsId([theirs], [ids], c)
    ensures var after := ReceiveFiring(r, [theirs], [ids]);
            !Pending(after, theirs.dev, c) && c.id in after.db.outbox && c.id !in Prune(after).db.outbox
  {
    var after, k := ReceiveFiring(r, [theirs], [ids]), CursorKey(theirs.dev, c.table);
    FireAllKeepsEntry(r, [theirs], [ids], c);
    assert theirs in [theirs] && k in CursorKeys([theirs]);
    assert HighWater([theirs], k) >= theirs.ts;
    assert after.db.outbox[c.id] == c && Delivered(after.db, c);
  }

  /** With the gates on this reaches tables that only one device's application writes: the peer's echo of the
      writer's first change overtakes the writer's second, which is never sent and is pruned. */
  lemma EchoLosesUpdate(ids: TriggerIds, more: TriggerIds)
    returns (a: Replica, b: Replica, first: Change, second: Change)
    requires ids.entry != ids.stamp && {"1", "2"} !! {ids.entry, ids.stamp} && {"1", "2"} !! {more.entry, more.stamp}
    ensures GateOn(a.db) && GateOn(b.db) && first.dev == second.dev == a.me && first.table == second.table
    ensures Pending(a, b.me, first) && Pending(a, b.me, second) && a.db.known == {b.me}
    ensures EchoOne(b, first, ids) != []
    ensures var answered := ReceiveFiring(b, [first], [ids]);
            var echo := EchoOne(b, first, ids)[|EchoOne(b, first, ids)| - 1];
            var after := ReceiveFiring(a, [echo], [more]);
            && Pending(answered, a.me, echo) && !Holds(answered.db.outbox, second)
            && !Pending(after, b.me, second) && second.id !in Prune(after).db.outbox
  {
    assert SYNCED_TABLES[5] == "workspaces";
    first, second := FIRST, UNSENT;
    a, b := Writer(map["1" := FIRST, "2" := UNSENT], map[], 0, 2), WithGate(PEER, "b");
    BothPending(a);
    PeerAnswers(b, first, ids);
    AnswerIsPending(b, first, ids, second);
    Overtaken(a, EchoOne(b, first, ids)[1], more, second);
  }

  const FIRST := Change("1", TABLE, "r", Update, Record(Row("x", 0, "a")), 1, "a")
  const UNSENT := Change("2", TABLE, "s", Update, Record(Row("y", 0, "a")), 2, "a")

  lemma BothPending(a: Replica)
    requires a == Writer(map["1" := FIRST, "2" := UNSENT], map[], 0, 2)
    ensures Pending(a, "b", FIRST) && Pending(a, "b", UNSENT) && GateOn(a.db) && a.me == "a" && a.db.known == {"b"}
  {
  }

  lemma AnswerIsPending(b: Replica, c: Change, ids: TriggerIds, other: Change)
    requires GateOn(b.db) && b.db.outbox == map[] && b.db.store == Store(map[], map[])
             && b.db.lamport <= b.clock <= c.ts
    requires Synced(c.table) && !c.op.Delete? && c.data.Record? && c.id != ids.entry && c.id != ids.stamp
    requires ids.entry != ids.stamp && other.RowKey() != c.RowKey() && c.ts > 0
    ensures var answered, echo := ReceiveFiring(b, [c], [ids]), EchoOne(b, c, ids);
            |echo| == 2 && Pending(answered, c.dev, echo[1]) && !Holds(answered.db.outbox, other)
  {
    AnsweredBy(b, c, ids);
    PeerAnswers(b, c, ids);
    var echo := EchoOne(b, c, ids);
    assert Cursor(ReceiveFiring(b, [c], [ids]), c.dev, c.table) == c.ts;
    forall e | e in echo
      ensures e.RowKey() == c.RowKey()
    {
      EchoOneStamps(b, c, ids);
    }
    assert echo[0] in echo && echo[1] in echo;
  }

  /** A device with the gate on and no such row answers with two entries of its own. */
  lemma PeerAnswers(b: Replica, c: Change, ids: TriggerIds)
    requires GateOn(b.db) && b.db.outbox == map[] && b.db.store == Store(map[], map[])
             && b.db.lamport <= b.clock <= c.ts
    requires Synced(c.table) && !c.op.Delete? && c.data.Record? && c.id != ids.entry && c.id != ids.stamp
    requires ids.entry != ids.stamp
    ensures var echo := EchoOne(b, c, ids);
            && |echo| == 2 && echo[0].id == ids.entry && echo[1].id == ids.stamp
            && echo[1].ts == c.ts + 3 && echo[1].dev == b.db.gate
            && echo[1].table == c.table
            && FireOne(b, c, ids).db.outbox == map[c.id := c, ids.entry := echo[0], ids.stamp := echo[1]]
  {
    assert Touches(b.db.store, c);
  }

  lemma AnsweredBy(b: Replica, c: Change, ids: TriggerIds)
    ensures FireAll(b, [c], [ids]) == FireOne(b, c, ids)
    ensures ReceiveFiring(b, [c], [ids]).db.cursors == b.db.cursors[CursorKey(c.dev, c.table) := Max(0, c.ts)]
  {
    assert [c][..0] == [] && [ids][..0] == [] && FireAll(b, [c][..0], [ids][..0]) == b;
    ReceiveOneChange(b, c);
    assert ReceiveFiring(b, [c], [ids]).db.cursors == Receive(b, [c]).db.cursors;
  }

  function Echoed(s: Net, d: DeviceId, src: DeviceId, c: Change, ids: TriggerIds): Net
    requires d in s.devs && On(s, Link(src, d)) != []
  {
    IssueAll(s, EchoAll(s.devs[d], [c], [ids])).(
      devs := s.devs[d := ReceiveFiring(s.devs[d], [c], [ids])],
      links := s.links[Link(src, d) := On(s, Link(src, d))[1..]],
      acks := s.acks + {Ack(d, src, c.id)})
  }

  lemma EchoedIsStep(s: Net, d: DeviceId, src: DeviceId, c: Change, ids: TriggerIds)
    requires d in s.devs && src in s.devs && src != d && On(s, Link(src, d)) != []
    requires On(s, Link(src, d))[0] == Batch([c]) && NewChanges(s, EchoAll(s.devs[d], [c], [ids]))
    ensures Step(s, DeliverEv(d, src, [], [ids]), Echoed(s, d, src, c, ids))
  {
  }

  /** A delivery at a device with the gate on and no such row: the row's last change is now the receiver's
      own, newer than the one delivered, and waiting to be sent back. */
  lemma DeliveryIsEchoed(s: Net, d: DeviceId, src: DeviceId, c: Change, ids: TriggerIds) returns (s': Net, echo: Change)
    requires d in s.devs && src in s.devs && src != d && On(s, Link(src, d)) != []
    requires On(s, Link(src, d))[0] == Batch([c]) && c.dev == src && c.ts > 0
    requires var b := s.devs[d];
             GateOn(b.db) && b.db.outbox == map[] && b.db.store == Store(map[], map[])
                 && b.db.lamport <= b.clock <= c.ts
    requires Synced(c.table) && !c.op.Delete? && c.data.Record? && c.id in s.issued
    requires ids.entry != ids.stamp && ids.entry !in s.issued && ids.stamp !in s.issued
    ensures Step(s, DeliverEv(d, src, [], [ids]), s') && s'.latest == s.latest[c.RowKey() := echo]
    ensures echo.dev == s.devs[d].db.gate && echo.ts > c.ts && d in s'.devs && Pending(s'.devs[d], src, echo)
  {
    var b := s.devs[d];
    s', echo := Echoed(s, d, src, c, ids), EchoOne(b, c, ids)[1];
    AnswerIsPending(b, c, ids, c.(row := c.row + "'"));
    PeerAnswers(b, c, ids);
    EchoOfOne(b, c, ids);
    EchoRow(b, c, ids);
    IssueTwo(s, EchoOne(b, c, ids));
    EchoedIsStep(s, d, src, c, ids);
  }

  lemma EchoRow(b: Replica, c: Change, ids: TriggerIds)
    ensures forall i :: 0 <= i < |EchoOne(b, c, ids)| ==> EchoOne(b, c, ids)[i].RowKey() == c.RowKey()
  {
    EchoOneStamps(b, c, ids);
    assert forall i :: 0 <= i < |EchoOne(b, c, ids)| ==> EchoOne(b, c, ids)[i] in EchoOne(b, c, ids);
  }

  lemma EchoOfOne(b: Replica, c: Change, ids: TriggerIds)
    ensures EchoAll(b, [c], [ids]) == EchoOne(b, c, ids)
  {
    assert [c][..0] == [] && [ids][..0] == [] && EchoAll(b, [c][..0], [ids][..0]) == [];
    assert FireAll(b, [c][..0], [ids][..0]) == b;
  }

  lemma IssueTwo(s: Net, es: seq<Change>)
    requires |es| == 2 && es[0].RowKey() == es[1].RowKey()
    requires es[0].id != es[1].id && es[0].id !in s.issued && es[1].id !in s.issued
    ensures NewChanges(s, es) && IssueAll(s, es).latest == s.latest[es[1].RowKey() := es[1]]
  {
    assert es[..1][..0] == [] && es[..1] == [es[0]] && IssueAll(s, es[..1]) == Issue(s, es[0]);
  }
}
