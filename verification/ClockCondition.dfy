/** The Lamport clock condition over whole runs of the network: local changes and the ones receipts are
    captured as, clean restarts included, and starts that bootstrap the clock as long as they keep it. */
module ClockCondition {
  import opened SyncTypes
  import opened Materializer
  import opened EngineSpec
  import opened OutboxHook
  import opened Receipt
  import opened Network

  /** The changes an event delivers. */
  function DeliveredChanges(s: Net, ev: Event): seq<Change> {
    if ev.DeliverEv? && On(s, Link(ev.src, ev.d)) != [] && On(s, Link(ev.src, ev.d))[0].Batch?
    then On(s, Link(ev.src, ev.d))[0].cs else []
  }

  /** The changes an event makes: a recorded one, or those the triggers capture of a receipt. */
  function Made(s: Net, ev: Event): seq<Change> {
    if ev.RecordEv? then [ev.c]
    else if ev.DeliverEv? && ev.d in s.devs && |ev.ids| == |DeliveredChanges(s, ev)|
    then EchoAll(s.devs[ev.d], DeliveredChanges(s, ev), ev.ids)
    else []
  }

  /** What each event of a run makes. */
  function MadeBy(ss: seq<Net>, evs: seq<Event>): seq<seq<Change>>
    requires |ss| == |evs| + 1
  {
    seq(|evs|, j requires 0 <= j < |evs| => Made(ss[j], evs[j]))
  }

  /** The first `i` of these pieces, one after the other. */
  function Joined(made: seq<seq<Change>>, i: nat): seq<Change>
    requires i <= |made|
  {
    if i == 0 then [] else Joined(made, i - 1) + made[i - 1]
  }

  /** The change history grows by what is made. */
  ghost predicate Grows(s: Net, es: seq<Change>, s': Net) {
    s'.latest == IssueAll(s, es).latest && s'.issued == IssueAll(s, es).issued
  }

  lemma StepGrows(s: Net, ev: Event, s': Net)
    requires Step(s, ev, s')
    ensures Grows(s, Made(s, ev), s')
  {
    if ev.RecordEv? { assert [ev.c][..0] == [] && IssueAll(s, [ev.c]) == Issue(s, ev.c); }
  }

  lemma RunGrows(ss: seq<Net>, evs: seq<Event>)
    requires IsRun(ss, evs)
    ensures ss[0].latest == map[] && ss[0].issued == map[]
    ensures forall i :: 0 <= i < |evs| ==> Grows(ss[i], MadeBy(ss, evs)[i], ss[i + 1])
  {
    forall i | 0 <= i < |evs|
      ensures Grows(ss[i], MadeBy(ss, evs)[i], ss[i + 1])
    {
      StepGrows(ss[i], evs[i], ss[i + 1]);
    }
  }

  function LatestOf(latest: map<Key, Change>, k: Key): Option<Change> {
    if k in latest then Some(latest[k]) else None
  }

  lemma {:induction false} IssueAllLatest(s: Net, es: seq<Change>, log: seq<Change>, k: Key)
    requires LastOf(log, k) == LatestOf(s.latest, k)
    ensures LastOf(log + es, k) == LatestOf(IssueAll(s, es).latest, k)
  {
    if es == [] {
      assert log + es == log;
    } else {
      IssueAllLatest(s, es[..|es| - 1], log, k);
      LastOfSnoc(log + es[..|es| - 1], es[|es| - 1], k);
      assert log + es == log + es[..|es| - 1] + [es[|es| - 1]];
    }
  }

  lemma {:induction false} LatestFollows(ss: seq<Net>, made: seq<seq<Change>>, i: nat, k: Key)
    requires |ss| == |made| + 1 && i <= |made| && ss[0].latest == map[]
    requires forall j :: 0 <= j < |made| ==> Grows(ss[j], made[j], ss[j + 1])
    ensures LastOf(Joined(made, i), k) == LatestOf(ss[i].latest, k)
  {
    if i > 0 {
      var n := i - 1;
      LatestFollows(ss, made, n, k);
      assert Grows(ss[n], made[n], ss[n + 1]);
      IssueAllLatest(ss[n], made[n], Joined(made, n), k);
    }
  }

  /** The history variable of the network says what it is meant to: a row's last change is the last one made
      to it in the run, recorded or captured. */
  lemma LatestIsLastMade(ss: seq<Net>, evs: seq<Event>, i: nat, k: Key)
    requires IsRun(ss, evs) && i <= |evs|
    ensures LastOf(Joined(MadeBy(ss, evs), i), k) == if k in ss[i].latest then Some(ss[i].latest[k]) else None
  {
    RunGrows(ss, evs);
    LatestFollows(ss, MadeBy(ss, evs), i, k);
  }

  lemma {:induction false} IssueAllIds(s: Net, es: seq<Change>, log: seq<Change>, id: ChangeId)
    requires id in s.issued <==> exists c :: c in log && c.id == id
    ensures id in IssueAll(s, es).issued <==> exists c :: c in log + es && c.id == id
  {
    if es == [] {
      assert log + es == log;
    } else {
      IssueAllIds(s, es[..|es| - 1], log, id);
      assert log + es == log + es[..|es| - 1] + [es[|es| - 1]];
    }
  }

  lemma {:induction false} IssuedFollows(ss: seq<Net>, made: seq<seq<Change>>, i: nat, id: ChangeId)
    requires |ss| == |made| + 1 && i <= |made| && ss[0].issued == map[]
    requires forall j :: 0 <= j < |made| ==> Grows(ss[j], made[j], ss[j + 1])
    ensures id in ss[i].issued <==> exists c :: c in Joined(made, i) && c.id == id
  {
    if i > 0 {
      var n := i - 1;
      IssuedFollows(ss, made, n, id);
      assert Grows(ss[n], made[n], ss[n + 1]);
      IssueAllIds(ss[n], made[n], Joined(made, n), id);
    }
  }

  /** And an id is taken exactly when a change with it has been made. */
  lemma IssuedIsMade(ss: seq<Net>, evs: seq<Event>, i: nat, id: ChangeId)
    requires IsRun(ss, evs) && i <= |evs|
    ensures id in ss[i].issued <==> exists c :: c in Joined(MadeBy(ss, evs), i) && c.id == id
  {
    RunGrows(ss, evs);
    IssuedFollows(ss, MadeBy(ss, evs), i, id);
  }

  /** The regime: a start that bootstraps the clock keeps it, and receipts are captured again only where
      the triggers' clock is the one that stamps local changes. */
  ghost predicate KeepsClock(s: Net, ev: Event) {
    && (ev.BootEv? && ev.d in s.devs ==> ev.m >= Clock(s, ev.d))
    && (s.path.ViaEngine? ==> Made(s, ev) == if ev.RecordEv? then [ev.c] else [])
  }

  ghost predicate IsClockRun(ss: seq<Net>, evs: seq<Event>) {
    IsRun(ss, evs) && forall i :: 0 <= i < |evs| ==> KeepsClock(ss[i], evs[i])
  }

  /** A change, the event of the run that made it, and its place among the changes of that event. */
  datatype Occurrence = Occurrence(at: nat, n: nat, c: Change)

  predicate Occurs(ss: seq<Net>, evs: seq<Event>, o: Occurrence)
    requires |ss| == |evs| + 1
  {
    o.at < |evs| && o.n < |Made(ss[o.at], evs[o.at])| && Made(ss[o.at], evs[o.at])[o.n] == o.c
  }

  /** One change comes directly before another: made earlier by the same device, by an earlier event or earlier
      in one receipt; received by the other's device before; or the one whose receipt the other was captured from. */
  ghost predicate Before(ss: seq<Net>, evs: seq<Event>, a: Occurrence, b: Occurrence)
    requires |ss| == |evs| + 1
  {
    && Occurs(ss, evs, a) && Occurs(ss, evs, b)
    && (|| (a.at < b.at && evs[a.at].d == evs[b.at].d)
        || (a.at == b.at && a.n < b.n)
        || (exists j :: 0 <= j < b.at && evs[j].d == evs[b.at].d && a.c in DeliveredChanges(ss[j], evs[j]))
        || EchoOf(ss[b.at], evs[b.at], a.c, b.c))
  }

  /** `e` is captured while `c`, delivered by the event, is materialized. */
  ghost predicate EchoOf(s: Net, ev: Event, c: Change, e: Change) {
    && ev.DeliverEv? && ev.d in s.devs && |ev.ids| == |DeliveredChanges(s, ev)|
    && exists n :: 0 <= n < |ev.ids| && DeliveredChanges(s, ev)[n] == c && e in EchoAt(s, ev, n)
  }

  function EchoAt(s: Net, ev: Event, n: nat): seq<Change>
    requires ev.DeliverEv? && ev.d in s.devs && n < |ev.ids| == |DeliveredChanges(s, ev)|
  {
    var cs := DeliveredChanges(s, ev);
    EchoOne(FireAll(s.devs[ev.d], cs[..n], ev.ids[..n]), cs[n], ev.ids[n])
  }

  /** Happens-before: a path along `Before`. */
  ghost predicate Path(ss: seq<Net>, evs: seq<Event>, path: seq<Occurrence>)
    requires |ss| == |evs| + 1
  {
    |path| >= 2 && forall n :: 0 <= n < |path| - 1 ==> Before(ss, evs, path[n], path[n + 1])
  }

  lemma {:induction false} FireAllClocks(r: Replica, cs: seq<Change>, ids: seq<TriggerIds>, c: Change)
    requires |ids| == |cs| && c in cs
    ensures FireAll(r, cs, ids).clock > c.ts && FireAll(r, cs, ids).db.lamport > c.ts
  {
    var n := |cs| - 1;
    assert cs == cs[..n] + [cs[n]];
    if c in cs[..n] { FireAllClocks(r, cs[..n], ids[..n], c); }
  }

  lemma DeliveryClocks(s: Net, ev: Event, s': Net)
    requires ev.DeliverEv? && Step(s, ev, s')
    ensures s'.devs.Keys == s.devs.Keys && s'.path == s.path
    ensures forall d :: d in s.devs ==> Clock(s', d) >= Clock(s, d) && s'.devs[d].me == s.devs[d].me
                                        && s'.devs[d].db.gate == s.devs[d].db.gate
  {
    if On(s, Link(ev.src, ev.d))[0].Batch? {
      IssueAllFrame(s, EchoAll(s.devs[ev.d], On(s, Link(ev.src, ev.d))[0].cs, ev.ids));
    }
  }

  /** No step of the regime lowers any clock, and no device appears or leaves. */
  lemma StepClocks(s: Net, ev: Event, s': Net)
    requires Step(s, ev, s') && KeepsClock(s, ev)
    ensures s'.devs.Keys == s.devs.Keys && s'.path == s.path
    ensures forall d :: d in s.devs ==> Clock(s', d) >= Clock(s, d) && s'.devs[d].me == s.devs[d].me
    ensures forall d :: d in s.devs ==> s'.devs[d].db.gate in {s.devs[d].db.gate, s.devs[d].me, "local"}
  {
    if ev.DeliverEv? { DeliveryClocks(s, ev, s'); } else { LocalClocks(s, ev, s'); }
  }

  lemma LocalClocks(s: Net, ev: Event, s': Net)
    requires Step(s, ev, s') && KeepsClock(s, ev) && !ev.DeliverEv?
    ensures s'.devs.Keys == s.devs.Keys && s'.path == s.path
    ensures ev.d in s.devs && forall d :: d in s.devs && d != ev.d ==> s'.devs[d] == s.devs[d]
    ensures Clock(s', ev.d) >= Clock(s, ev.d) && s'.devs[ev.d].me == s.devs[ev.d].me
    ensures s'.devs[ev.d].db.gate in {s.devs[ev.d].db.gate, s.devs[ev.d].me, "local"}
  {
  }

  /** A receipt moves the clock past every change received. */
  lemma ReceiptPassesChanges(s: Net, ev: Event, s': Net, c: Change)
    requires Step(s, ev, s') && c in DeliveredChanges(s, ev)
    ensures ev.d in s'.devs && Clock(s', ev.d) > c.ts
  {
    IssueAllFrame(s, EchoAll(s.devs[ev.d], DeliveredChanges(s, ev), ev.ids));
    FireAllClocks(s.devs[ev.d], DeliveredChanges(s, ev), ev.ids, c);
  }

  /** What an event makes is stamped by ticks of the acting device's clock during it, each tick once. */
  lemma MadeStamps(s: Net, ev: Event, s': Net)
    requires Step(s, ev, s') && KeepsClock(s, ev)
    ensures ev.d in s.devs && ev.d in s'.devs
    ensures LogWithin(Made(s, ev), Clock(s, ev.d), Clock(s', ev.d))
    ensures forall c :: c in Made(s, ev) ==> c.dev == if ev.RecordEv? then s.devs[ev.d].me else s.devs[ev.d].db.gate
  {
    StepClocks(s, ev, s');
    if ev.DeliverEv? && Made(s, ev) != [] {
      var r, cs := s.devs[ev.d], DeliveredChanges(s, ev);
      IssueAllFrame(s, EchoAll(r, cs, ev.ids));
      EchoStamps(r, cs, ev.ids);
    }
  }

  /** Device `d` stays, keeps its id and never lowers its clock from one state to the next. */
  predicate Rises(s: Net, s': Net, d: DeviceId) {
    d in s.devs ==> d in s'.devs && Clock(s', d) >= Clock(s, d) && s'.devs[d].me == s.devs[d].me
  }

  lemma RunRises(ss: seq<Net>, evs: seq<Event>, i: nat, d: DeviceId)
    requires IsClockRun(ss, evs) && i < |evs|
    ensures Rises(ss[i], ss[i + 1], d)
  {
    assert Step(ss[i], evs[i], ss[i + 1]) && KeepsClock(ss[i], evs[i]);
    StepClocks(ss[i], evs[i], ss[i + 1]);
  }

  lemma {:induction false} RisesTo(ss: seq<Net>, i: nat, j: nat, d: DeviceId)
    requires i <= j < |ss| && d in ss[i].devs && forall n :: 0 <= n < |ss| - 1 ==> Rises(ss[n], ss[n + 1], d)
    ensures d in ss[j].devs && Clock(ss[j], d) >= Clock(ss[i], d) && ss[j].devs[d].me == ss[i].devs[d].me
    decreases j
  {
    if i < j {
      RisesTo(ss, i, j - 1, d);
      var n := j - 1;
      assert Rises(ss[n], ss[n + 1], d);
    }
  }

  lemma ClocksMonotone(ss: seq<Net>, evs: seq<Event>, i: nat, j: nat, d: DeviceId)
    requires IsClockRun(ss, evs) && i <= j <= |evs| && d in ss[i].devs
    ensures d in ss[j].devs && Clock(ss[j], d) >= Clock(ss[i], d) && ss[j].devs[d].me == ss[i].devs[d].me
  {
    forall n | 0 <= n < |ss| - 1
      ensures Rises(ss[n], ss[n + 1], d)
    {
      RunRises(ss, evs, n, d);
    }
    RisesTo(ss, i, j, d);
  }

  /** A change is stamped past its device's clock before the event that makes it, and no later than after. */
  lemma OccurrenceStamp(ss: seq<Net>, evs: seq<Event>, o: Occurrence)
    requires IsClockRun(ss, evs) && Occurs(ss, evs, o)
    ensures evs[o.at].d in ss[o.at].devs && evs[o.at].d in ss[o.at + 1].devs
    ensures Clock(ss[o.at], evs[o.at].d) < o.c.ts <= Clock(ss[o.at + 1], evs[o.at].d)
  {
    assert Step(ss[o.at], evs[o.at], ss[o.at + 1]) && KeepsClock(ss[o.at], evs[o.at]);
    MadeStamps(ss[o.at], evs[o.at], ss[o.at + 1]);
    assert o.c in Made(ss[o.at], evs[o.at]);
  }

  lemma ReceivedBefore(ss: seq<Net>, evs: seq<Event>, j: nat, a: Change, b: Occurrence)
    requires IsClockRun(ss, evs) && Occurs(ss, evs, b)
    requires j < b.at && evs[j].d == evs[b.at].d && a in DeliveredChanges(ss[j], evs[j])
    ensures a.ts < b.c.ts
  {
    assert Step(ss[j], evs[j], ss[j + 1]);
    ReceiptPassesChanges(ss[j], evs[j], ss[j + 1], a);
    ClocksMonotone(ss, evs, j + 1, b.at, evs[j].d);
    OccurrenceStamp(ss, evs, b);
  }

  lemma BeforeIncreases(ss: seq<Net>, evs: seq<Event>, a: Occurrence, b: Occurrence)
    requires IsClockRun(ss, evs) && Before(ss, evs, a, b)
    ensures a.c.ts < b.c.ts
  {
    if a.at < b.at && evs[a.at].d == evs[b.at].d {
      OccurrenceStamp(ss, evs, a);
      OccurrenceStamp(ss, evs, b);
      ClocksMonotone(ss, evs, a.at + 1, b.at, evs[a.at].d);
    } else if a.at == b.at && a.n < b.n {
      assert Step(ss[a.at], evs[a.at], ss[a.at + 1]) && KeepsClock(ss[a.at], evs[a.at]);
      MadeStamps(ss[a.at], evs[a.at], ss[a.at + 1]);
    } else if j :| 0 <= j < b.at && evs[j].d == evs[b.at].d && a.c in DeliveredChanges(ss[j], evs[j]) {
      ReceivedBefore(ss, evs, j, a.c, b);
    } else {
      EchoIncreases(ss[b.at], evs[b.at], a.c, b.c);
    }
  }

  lemma EchoIncreases(s: Net, ev: Event, c: Change, e: Change)
    requires EchoOf(s, ev, c, e)
    ensures c.ts < e.ts
  {
    var cs := DeliveredChanges(s, ev);
    var n :| 0 <= n < |ev.ids| && cs[n] == c && e in EchoAt(s, ev, n);
    EchoOneStamps(FireAll(s.devs[ev.d], cs[..n], ev.ids[..n]), c, ev.ids[n]);
  }

  /** If one change happens before another its timestamp is strictly smaller. */
  lemma {:induction false} HappensBeforeIncreases(ss: seq<Net>, evs: seq<Event>, path: seq<Occurrence>)
    requires IsClockRun(ss, evs) && Path(ss, evs, path)
    ensures path[0].c.ts < path[|path| - 1].c.ts
    decreases |path|
  {
    var n := |path|;
    BeforeIncreases(ss, evs, path[n - 2], path[n - 2 + 1]);
    if n > 2 { HappensBeforeIncreases(ss, evs, path[..n - 1]); }
  }

  lemma {:induction false} DevicesKeepIds(ss: seq<Net>, evs: seq<Event>, i: nat)
    requires IsClockRun(ss, evs) && i <= |evs|
    ensures forall d :: d in ss[i].devs ==>
              ss[i].devs[d].me == d && d != "local" && ss[i].devs[d].db.gate in {d, "local"}
  {
    if i > 0 {
      DevicesKeepIds(ss, evs, i - 1);
      assert Step(ss[i - 1], evs[i - 1], ss[i]) && KeepsClock(ss[i - 1], evs[i - 1]);
      StepClocks(ss[i - 1], evs[i - 1], ss[i]);
    }
  }

  /** A change names the device that made it. */
  lemma MadeByDevice(ss: seq<Net>, evs: seq<Event>, o: Occurrence)
    requires IsClockRun(ss, evs) && Occurs(ss, evs, o)
    ensures o.c.dev == evs[o.at].d
  {
    DevicesKeepIds(ss, evs, o.at);
    var s, ev := ss[o.at], evs[o.at];
    assert Step(s, ev, ss[o.at + 1]) && KeepsClock(s, ev);
    MadeStamps(s, ev, ss[o.at + 1]);
    assert o.c in Made(s, ev);
    if ev.DeliverEv? && s.devs[ev.d].db.gate == "local" {
      NoEchoWithGateOff(s.devs[ev.d], DeliveredChanges(s, ev), ev.ids);
    }
  }

  lemma NoEchoWithGateOff(r: Replica, cs: seq<Change>, ids: seq<TriggerIds>)
    requires !GateOn(r.db) && |ids| == |cs|
    ensures EchoAll(r, cs, ids) == []
  {
    QuietIsPlain(r, cs, ids);
  }

  /** No two changes of a run share a stamp: one device never reuses a timestamp. */
  lemma StampsUnique(ss: seq<Net>, evs: seq<Event>, a: Occurrence, b: Occurrence)
    requires IsClockRun(ss, evs) && Occurs(ss, evs, a) && Occurs(ss, evs, b)
    ensures a.c.ts == b.c.ts && a.c.dev == b.c.dev ==> a == b
  {
    if a.c.dev == b.c.dev {
      MadeByDevice(ss, evs, a);
      MadeByDevice(ss, evs, b);
      if a.at < b.at || (a.at == b.at && a.n < b.n) { BeforeIncreases(ss, evs, a, b); }
      if b.at < a.at || (a.at == b.at && b.n < a.n) { BeforeIncreases(ss, evs, b, a); }
    }
  }

  // ---- Restart through bootstrap -----------------------------------------------------------

  /** Starting sync bootstraps the clock before the engine reads it, so what a clean stop persisted is lost:
      the new clock reaches the old one exactly when the outbox still holds an entry that does (or the old
      clock had not moved past 0). */
  lemma BootstrapKeepsClockIff(r: Replica, m: int, path: WritePath)
    requires IsOutboxMax(r.db.outbox, m)
    ensures LocalClock(Booted(r, m), path) == m
    ensures LocalClock(Booted(r, m), path) >= LocalClock(r, path) <==>
            (if r.db.outbox == map[] then LocalClock(r, path) <= 0
             else exists id :: id in r.db.outbox && r.db.outbox[id].ts >= LocalClock(r, path))
  {
  }

  /** A start turns the triggers on: the next statement that changes a row is captured as this device's own,
      stamped right above the outbox maximum. */
  lemma StartCaptures(r: Replica, m: int, stmt: Statement)
    requires r.me != "local" && IsOutboxMax(r.db.outbox, m)
    requires if stmt.InsertRow? then stmt.key !in r.db.store.rows else stmt.UpsertRow? || stmt.key in r.db.store.rows
    ensures var cs := Captured(Booted(r, m).db, stmt);
            cs != [] && cs[0].ts == m + 1 && cs[0].dev == r.me && cs[0].RowKey() == stmt.key
  {
  }

  /** After full delivery and pruning the outbox is empty, and after a start the triggers reuse a stamp. */
  lemma BootstrapReusesStamp() returns (r: Replica, first: Statement, second: Statement, c: Change, c': Change)
    ensures GateOn(r.db) && r.db.known == {"b"} && Captured(r.db, first) == [c] && Synced(c.table)
    ensures var delivered := Prune(SetCursor(r.(db := Exec(r.db, first)), "b", c.table, c.ts));
            && IsOutboxMax(delivered.db.outbox, 0)
            && Captured(Booted(delivered, 0).db, second) == [c']
    ensures c'.ts == c.ts && c'.dev == c.dev && c' != c
  {
    var k := Key("workspaces", "r");
    assert SYNCED_TABLES[5] == "workspaces";
    r := Replica("a", 0, Db(map[], map[], {"b"}, 0, "a", Store(map[k := Row("x", 0, "")], map[])));
    first, second := UpdateRow(k, "y", "1"), UpdateRow(k, "z", "2");
    c := Captured(r.db, first)[0];
    var acked := SetCursor(r.(db := Exec(r.db, first)), "b", c.table, c.ts);
    assert acked.db.outbox == map["1" := c] && Delivered(acked.db, c);
    var delivered := Prune(acked);
    assert delivered.db.outbox == map[];
    c' := Captured(Booted(delivered, 0).db, second)[0];
  }
}
