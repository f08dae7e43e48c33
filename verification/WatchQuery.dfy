/** A cached query stream: it emits the query result, then waits for a notification of a watched table
    before it runs the query again. Writers may interleave with every single receive. */
module WatchQuery {
  import opened Broadcast
  import opened QuietRuns

  const CHANNEL_CAPACITY: nat := 64

  /** Contents of one watched table. */
  type Content = string

  /** Where the stream is: before its first result, polling receivers from `next` on, waiting, draining
      receivers from `next` on. */
  datatype Pc =
    | Starting
    | Polling(next: nat, changed: bool)
    | Resting
    | Settling(next: nat)

  /** `db` holds the watched tables, `last` what they held when the last emitted result was computed. */
  datatype Stream = Stream(db: seq<Content>, sent: seq<nat>, seen: seq<nat>, last: seq<Content>, pc: Pc)

  datatype Event =
    | Write(t: nat, v: Content)
    | Notify(t: nat)
    | Emit
    | Poll
    | Wake(t: nat)
    | Settle

  ghost predicate WellFormed(s: Stream) {
    && |s.sent| == |s.seen| == |s.db|
    && (forall t :: 0 <= t < |s.sent| ==> s.seen[t] <= s.sent[t])
    && (s.pc.Polling? || s.pc.Settling? ==> s.pc.next <= |s.db|)
    && (!s.pc.Starting? ==> |s.last| == |s.db|)
  }

  function Received(s: Stream, t: nat): Stream
    requires t < |s.sent| == |s.seen| && s.seen[t] <= s.sent[t]
  {
    s.(seen := s.seen[t := NextPos(s.sent[t], s.seen[t], CHANNEL_CAPACITY)])
  }

  predicate Lagging(s: Stream, t: nat)
    requires t < |s.sent| == |s.seen|
  {
    s.seen[t] + CHANNEL_CAPACITY < s.sent[t]
  }

  ghost predicate Step(s: Stream, ev: Event, s': Stream)
    requires WellFormed(s)
  {
    match ev
    case Write(t, v) =>  // the hook notifies before the connection lock is released
      t < |s.db| && s' == s.(db := s.db[t := v], sent := s.sent[t := s.sent[t] + 1])
    case Notify(t) =>
      t < |s.db| && s' == s.(sent := s.sent[t := s.sent[t] + 1])
    case Emit =>  // the first result, or the re-run once all receivers are drained
      (s.pc.Starting? || (s.pc.Settling? && s.pc.next == |s.db|)) && s' == s.(last := s.db, pc := Polling(0, false))
    case Poll =>
      && s.pc.Polling?
      && var t := s.pc.next;
      if t == |s.db| then s' == s.(pc := if s.pc.changed then Settling(0) else Resting)
      else s' == Received(s, t).(pc := Polling(t + 1, s.pc.changed || s.seen[t] < s.sent[t]))
    case Wake(t) =>
      s.pc.Resting? && t < |s.db| && s.seen[t] < s.sent[t] && s' == Received(s, t).(pc := Settling(0))
    case Settle =>  // draining stops at an empty channel and also at a lag report
      && s.pc.Settling? && s.pc.next < |s.db|
      && var t := s.pc.next;
      s' == Received(s, t).(pc := Settling(if s.seen[t] < s.sent[t] && !Lagging(s, t) then t else t + 1))
  }

  /** A table that differs from what the last result was computed from has a notification pending. */
  ghost predicate Covered(s: Stream)
    requires WellFormed(s) && !s.pc.Starting?
  {
    forall t :: 0 <= t < |s.db| && s.db[t] != s.last[t] ==> s.seen[t] < s.sent[t]
  }

  ghost predicate Inv(s: Stream) {
    WellFormed(s) && (s.pc.Resting? || (s.pc.Polling? && !s.pc.changed) ==> Covered(s))
  }

  /** All receivers are subscribed before the first result is computed. */
  ghost predicate Init(s: Stream) {
    |s.sent| == |s.db| && s.seen == s.sent && s.pc == Starting
  }

  lemma StepKeepsInv(s: Stream, ev: Event, s': Stream)
    requires Inv(s) && Step(s, ev, s')
    ensures Inv(s')
  {
  }

  ghost predicate IsRun(ss: seq<Stream>, evs: seq<Event>) {
    && |ss| == |evs| + 1
    && Init(ss[0])
    && forall i :: 0 <= i < |evs| ==> WellFormed(ss[i]) && Step(ss[i], evs[i], ss[i + 1])
  }

  lemma {:induction false} RunKeepsInv(ss: seq<Stream>, evs: seq<Event>, i: nat)
    requires IsRun(ss, evs) && i <= |evs|
    ensures Inv(ss[i])
  {
    if i > 0 {
      RunKeepsInv(ss, evs, i - 1);
      StepKeepsInv(ss[i - 1], evs[i - 1], ss[i]);
    }
  }

  /** Whenever the stream rests, for any query over the watched tables: its last result is the query on
      the current database, or some receiver has a notification (or a lag) pending that will wake it. */
  lemma NeverRestsStale<R>(ss: seq<Stream>, evs: seq<Event>, i: nat, query: seq<Content> -> R)
    requires IsRun(ss, evs) && i <= |evs| && ss[i].pc.Resting?
    ensures WellFormed(ss[i])
    ensures query(ss[i].last) == query(ss[i].db)
            || exists t :: 0 <= t < |ss[i].db| && ss[i].seen[t] < ss[i].sent[t]
  {
    RunKeepsInv(ss, evs, i);
    if forall t :: 0 <= t < |ss[i].db| ==> ss[i].db[t] == ss[i].last[t] {
      assert ss[i].db == ss[i].last;
    }
  }

  // ---- The stream catches up -----------------------------------------------------------------

  function Pending(s: Stream): nat
    requires WellFormed(s)
  {
    Unread(s.sent, s.seen)
  }

  function Phase(s: Stream): nat
    requires WellFormed(s)
  {
    var n := |s.db|;
    match s.pc
    case Resting => 0
    case Polling(next, changed) => if changed then 3 * n + 5 - next else n + 1 - next
    case Settling(next) => 2 * n + 3 - next
    case Starting => 3 * n + 6
  }

  lemma ReceivingLowersPending(s: Stream, t: nat)
    requires WellFormed(s) && t < |s.db|
    ensures WellFormed(Received(s, t))
    ensures if s.seen[t] < s.sent[t] then Pending(Received(s, t)) < Pending(s) else Received(s, t) == s
  {
    if s.seen[t] < s.sent[t] {
      ReceiveLowersUnread(s.sent, s.seen, t, NextPos(s.sent[t], s.seen[t], CHANNEL_CAPACITY));
    } else {
      assert Received(s, t).seen == s.seen;
    }
  }

  predicate Settled(s: Stream)
    requires WellFormed(s)
  {
    s.pc.Resting? && forall t :: 0 <= t < |s.db| ==> s.seen[t] == s.sent[t]
  }

  /** A step of the stream, as opposed to a write or a notification. */
  predicate Quiet(ev: Event) { !ev.Write? && !ev.Notify? }

  /** Every step of the stream makes progress in the lexicographic order of pending notifications and phase. */
  lemma QuietStepProgresses(s: Stream, ev: Event, s': Stream)
    requires Inv(s) && Step(s, ev, s') && Quiet(ev)
    ensures Inv(s') && s'.db == s.db
    ensures Pending(s') < Pending(s) || (Pending(s') == Pending(s) && Phase(s') < Phase(s))
  {
    StepKeepsInv(s, ev, s');
    match ev
    case Poll => if s.pc.next < |s.db| { ReceivingLowersPending(s, s.pc.next); }
    case Wake(t) => ReceivingLowersPending(s, t);
    case Settle => ReceivingLowersPending(s, s.pc.next);
    case _ =>
  }

  /** So no run of the stream goes on for ever without a write or a notification. */
  lemma QuietStepsEnd(run: nat -> Stream, evs: nat -> Event, i: nat)
    requires Inv(run(i)) && forall j :: WellFormed(run(j))
    ensures exists j :: i <= j && !(Quiet(evs(j)) && Step(run(j), evs(j), run(j + 1)))
  {
    var moves := (j: nat) => Quiet(evs(j)) && Step(run(j), evs(j), run(j + 1));
    var first, second := (j: nat) => Pending(run(j)), (j: nat) => Phase(run(j));
    var none: nat -> set<nat> := j => {};
    forall j: nat | Inv(run(j)) && moves(j)
      ensures Inv(run(j + 1)) && Lowers(first, second, none, j)
    {
      QuietStepProgresses(run(j), evs(j), run(j + 1));
    }
    StepsEnd(moves, (j: nat) => Inv(run(j)), first, second, none, i);
  }

  /** A stream that is not at rest with empty channels always has a step to take. */
  lemma NextStep(s: Stream) returns (ev: Event, s': Stream)
    requires Inv(s) && !Settled(s)
    ensures Quiet(ev) && Step(s, ev, s')
  {
    match s.pc {
      case Starting =>
        ev, s' := Emit, s.(last := s.db, pc := Polling(0, false));
      case Resting =>
        var t :| 0 <= t < |s.db| && s.seen[t] != s.sent[t];
        ev, s' := Wake(t), Received(s, t).(pc := Settling(0));
      case Polling(next, changed) =>
        ev := Poll;
        if next == |s.db| {
          s' := s.(pc := if changed then Settling(0) else Resting);
        } else {
          s' := Received(s, next).(pc := Polling(next + 1, changed || s.seen[next] < s.sent[next]));
        }
      case Settling(next) =>
        if next == |s.db| {
          ev, s' := Emit, s.(last := s.db, pc := Polling(0, false));
        } else {
          ev := Settle;
          var again := s.seen[next] < s.sent[next] && !Lagging(s, next);
          s' := Received(s, next).(pc := Settling(if again then next else next + 1));
        }
    }
  }

  ghost predicate Stuck(s: Stream)
    requires WellFormed(s)
  {
    forall ev, s' :: Quiet(ev) ==> !Step(s, ev, s')
  }

  /** Every maximal run without further writes, whatever its schedule, leaves the stream at rest on a result
      computed from the current database. */
  lemma MaximalRunIsFresh(ss: seq<Stream>, evs: seq<Event>)
    requires IsRun(ss, evs) && WellFormed(ss[|evs|]) && Stuck(ss[|evs|])
    ensures ss[|evs|].pc.Resting? && ss[|evs|].last == ss[|evs|].db
  {
    var s := ss[|evs|];
    RunKeepsInv(ss, evs, |evs|);
    if !Settled(s) {
      var ev, s' := NextStep(s);
      assert false;
    }
    assert forall t :: 0 <= t < |s.db| ==> s.db[t] == s.last[t];
  }

  // ---- One round of the stream's loop -----------------------------------------------------------

  /** The stream's receivers and last result, changed in place. */
  class QueryStream {
    var db: seq<Content>
    var sent: seq<nat>
    var seen: seq<nat>
    var last: seq<Content>

    ghost predicate Valid()
      reads this
    {
      Positions(sent, seen) && |db| == |sent|
    }

    /** Before the loop: receivers at the end of their channels, then the first result. */
    constructor (db: seq<Content>, sent: seq<nat>)
      requires |db| == |sent|
      ensures Valid() && this.db == db && this.sent == sent && seen == sent && last == db
    {
      this.db, this.sent, this.seen, this.last := db, sent, sent, db;
    }

    method TryRecv(t: nat) returns (r: Received<()>)
      requires Valid() && t < |sent|
      modifies this`seen
      ensures Valid() && seen == old(seen)[t := NextPos(sent[t], old(seen)[t], CHANNEL_CAPACITY)]
      ensures r.Empty? <==> old(seen)[t] == sent[t]
      ensures r.Lagged? <==> old(seen)[t] + CHANNEL_CAPACITY < sent[t]
    {
      r := if seen[t] == sent[t] then Empty else if seen[t] + CHANNEL_CAPACITY < sent[t] then Lagged else Got(());
      seen := seen[t := NextPos(sent[t], seen[t], CHANNEL_CAPACITY)];
    }

    /** Poll every receiver; if any had something, drain what is left and run the query again. A result
        is emitted exactly when something was pending, it is computed from the current tables and leaves
        nothing pending, and without one nothing is consumed. */
    method Round() returns (emitted: bool)
      requires Valid()
      modifies this`seen, this`last
      ensures Valid() && (emitted <==> exists t :: 0 <= t < |sent| && old(seen)[t] < sent[t])
      ensures emitted ==> last == db && seen == sent
      ensures !emitted ==> last == old(last) && seen == old(seen)
    {
      emitted := false;
      for i := 0 to |sent|
        invariant Valid() && last == old(last)
        invariant forall t :: i <= t < |sent| ==> seen[t] == old(seen)[t]
        invariant forall t :: 0 <= t < i ==> seen[t] + CHANNEL_CAPACITY >= sent[t]
        invariant emitted <==> exists t :: 0 <= t < i && old(seen)[t] < sent[t]
        invariant !emitted ==> seen == old(seen)
      {
        var r := TryRecv(i);
        if !r.Empty? { emitted := true; }
      }
      if !emitted { return; }
      for i := 0 to |sent|
        invariant Valid() && last == old(last)
        invariant forall t :: 0 <= t < |sent| ==> seen[t] + CHANNEL_CAPACITY >= sent[t] && (t < i ==>
            seen[t] == sent[t])
      {
        DrainOne(i);
      }
      last := db;
    }

    /** `while rx.try_recv().is_ok() {}`: stops at an empty channel or at a lag report. */
    method DrainOne(t: nat)
      requires Valid() && t < |sent|
      modifies this`seen
      ensures Valid() && old(seen)[t] <= seen[t] && forall u :: 0 <= u < |sent| && u != t ==> seen[u] == old(seen)[u]
      ensures old(seen)[t] + CHANNEL_CAPACITY >= sent[t] ==> seen[t] == sent[t]
      ensures old(seen)[t] + CHANNEL_CAPACITY < sent[t] ==> seen[t] == sent[t] - CHANNEL_CAPACITY
    {
      var more := true;
      while more
        invariant Valid() && old(seen)[t] <= seen[t]
        invariant forall u :: 0 <= u < |sent| && u != t ==> seen[u] == old(seen)[u]
        invariant old(seen)[t] + CHANNEL_CAPACITY < sent[t] ==>
                    seen[t] == if more then old(seen)[t] else sent[t] - CHANNEL_CAPACITY
        invariant old(seen)[t] + CHANNEL_CAPACITY >= sent[t] && !more ==> seen[t] == sent[t]
        decreases sent[t] - seen[t], more
      {
        var r := TryRecv(t);
        more := r.Got?;
      }
    }
  }

  // ---- The tracker -------------------------------------------------------------------------------

  /** The channels registered so far, each with the number of notifications sent on it. */
  class TableChangeTracker {
    var senders: map<string, nat>

    constructor ()
      ensures senders == map[]
    {
      senders := map[];
    }

    /** A receiver starts at the end of its table's channel; unknown tables get a new one. */
    method Subscribe(table: string) returns (pos: nat)
      modifies this
      ensures table in senders && pos == senders[table]
      ensures forall t :: t in senders <==> t in old(senders) || t == table
      ensures forall t :: t in old(senders) ==> senders[t] == old(senders)[t]
    {
      if table !in senders { senders := senders[table := 0]; }
      pos := senders[table];
    }

    /** Fired by the update hook and by manual notification; tables nobody subscribed to are ignored. */
    method Notify(table: string)
      modifies this
      ensures senders.Keys == old(senders).Keys
      ensures forall t :: t in senders ==> senders[t] == old(senders)[t] + if t == table then 1 else 0
    {
      if table in senders { senders := senders[table := senders[table] + 1]; }
    }
  }
}
