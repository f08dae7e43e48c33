/** Change notification end to end: per-table channels, the debounced aggregation loop, the outbound
    channel and the clients. Both bounded channels overwrite old messages, yet no invalidation is lost. */
module Invalidation {
  import opened Broadcast
  import opened QuietRuns

  /** Tables are numbered by their position in the list of table names. */
  type Table = nat

  const CHANNEL_CAPACITY: nat := 64
  const BROADCAST_CAPACITY: nat := 64

  /** The aggregation loop: waiting for a first change, sleeping through the debounce window, or
      draining the receivers from table `next` on. */
  datatype Loop =
    | Waiting
    | Debouncing(changed: set<Table>)
    | Draining(changed: set<Table>, next: nat)

  /** A subscribed client: its position in the outbound channel, and the tables notified since it
      subscribed that it has not been told of since that notification. */
  datatype Client = Client(pos: nat, stale: set<Table>)

  /** `sent[t]` and `seen[t]`: notifications of table `t` sent, and the loop's receiver position. */
  datatype Pipe = Pipe(sent: seq<nat>, seen: seq<nat>, agg: Loop, out: seq<seq<Table>>, clients: map<nat, Client>)

  datatype Event =
    | Notify(t: Table)
    | First(t: Table)
    | Wake
    | Drain
    | Emit(batch: seq<Table>)
    | Subscribe(c: nat)
    | Deliver(c: nat)

  function Elements(batch: seq<Table>): set<Table> { set t | t in batch }

  predicate NoDuplicates(batch: seq<Table>) { forall i, j :: 0 <= i < j < |batch| ==> batch[i] != batch[j] }

  function AllTables(n: nat): (ts: set<Table>)
    ensures forall t: nat :: t in ts <==> t < n
  {
    if n == 0 then {} else AllTables(n - 1) + {n - 1}
  }

  /** The tables named by the frame a client gets for one receive: all of them when it lagged. */
  function Frame(s: Pipe, pos: nat): set<Table>
    requires pos <= |s.out|
  {
    match Receive(s.out, pos, BROADCAST_CAPACITY)
    case Empty => {}
    case Lagged => AllTables(|s.sent|)
    case Got(batch) => Elements(batch)
  }

  function TableReceived(s: Pipe, t: Table): Pipe
    requires t < |s.seen| == |s.sent| && s.seen[t] <= s.sent[t]
  {
    s.(seen := s.seen[t := NextPos(s.sent[t], s.seen[t], CHANNEL_CAPACITY)])
  }

  ghost predicate Step(s: Pipe, ev: Event, s': Pipe)
    requires WellFormed(s)
  {
    match ev
    case Notify(t) =>
      t < |s.sent| && s' == s.(sent := s.sent[t := s.sent[t] + 1],
                               clients := map c | c in s.clients :: s.clients[c].(stale := s.clients[c].stale + {t}))
    case First(t) =>
      t < |s.sent| && s.agg.Waiting? && s.seen[t] < s.sent[t] && s' == TableReceived(s, t).(agg := Debouncing({t}))
    case Wake =>
      s.agg.Debouncing? && s' == s.(agg := Draining(s.agg.changed, 0))
    case Drain =>
      && s.agg.Draining? && s.agg.next < |s.sent|
      && var t := s.agg.next;
      if s.seen[t] < s.sent[t] then s' == TableReceived(s, t).(agg := Draining(s.agg.changed + {t}, t))
      else s' == s.(agg := Draining(s.agg.changed, t + 1))
    case Emit(batch) =>
      && s.agg.Draining? && s.agg.next == |s.sent|
      && NoDuplicates(batch) && Elements(batch) == s.agg.changed
      && s' == s.(agg := Waiting, out := s.out + [batch])
    case Subscribe(c) =>
      c !in s.clients && s' == s.(clients := s.clients[c := Client(|s.out|, {})])
    case Deliver(c) =>
      && c in s.clients && s.clients[c].pos < |s.out|
      && s' == s.(clients := s.clients[c := Delivered(s, c)])
  }

  function Delivered(s: Pipe, c: nat): Client
    requires c in s.clients && s.clients[c].pos <= |s.out|
  {
    var pos := s.clients[c].pos;
    Client(NextPos(|s.out|, pos, BROADCAST_CAPACITY), s.clients[c].stale - Frame(s, pos))
  }

  // ---- Invariant -----------------------------------------------------------------------

  ghost predicate WellFormed(s: Pipe) {
    && |s.seen| == |s.sent|
    && (forall t :: 0 <= t < |s.sent| ==> s.seen[t] <= s.sent[t])
    && (forall t :: t in Changed(s.agg) ==> t < |s.sent|)
    && (s.agg.Draining? ==> s.agg.next <= |s.sent|)
    && (forall c :: c in s.clients ==> s.clients[c].pos <= |s.out|)
  }

  function Changed(agg: Loop): set<Table> { if agg.Waiting? then {} else agg.changed }

  /** Somewhere between the table and the client there is still a message that will name table `t`. */
  ghost predicate OnItsWay(s: Pipe, pos: nat, t: Table) {
    && t < |s.sent| == |s.seen|
    && (s.seen[t] < s.sent[t] || t in Changed(s.agg) || exists i :: pos <= i < |s.out| && t in s.out[i])
  }

  ghost predicate Inv(s: Pipe) {
    && WellFormed(s)
    && (forall c, t :: c in s.clients && t in s.clients[c].stale ==> OnItsWay(s, s.clients[c].pos, t))
    && (forall b :: b in s.out ==> NoDuplicates(b))
  }

  ghost predicate Init(s: Pipe) {
    |s.seen| == |s.sent| && s.seen == s.sent && s.agg == Waiting && s.out == [] && s.clients == map[]
  }

  lemma StepWellFormed(s: Pipe, ev: Event, s': Pipe)
    requires WellFormed(s) && Step(s, ev, s')
    ensures WellFormed(s')
  {
    forall t | t in Changed(s'.agg)
      ensures t < |s'.sent|
    {
      assert t in Changed(s.agg) || (ev.First? && t == ev.t) || (ev.Drain? && t == s.agg.next);
    }
  }

  lemma StepKeepsInv(s: Pipe, ev: Event, s': Pipe)
    requires Inv(s) && Step(s, ev, s')
    ensures Inv(s')
  {
    StepWellFormed(s, ev, s');
    forall c, t | c in s'.clients && t in s'.clients[c].stale
      ensures OnItsWay(s', s'.clients[c].pos, t)
    {
      StaleOnItsWay(s, ev, s', c, t);
    }
  }

  lemma StaleOnItsWay(s: Pipe, ev: Event, s': Pipe, c: nat, t: Table)
    requires Inv(s) && Step(s, ev, s') && c in s'.clients && t in s'.clients[c].stale
    ensures OnItsWay(s', s'.clients[c].pos, t)
  {
    if !(ev.Notify? && ev.t == t) {
      var pos := s.clients[c].pos;
      assert OnItsWay(s, pos, t);
      if i :| pos <= i < |s.out| && t in s.out[i] {
        assert s'.out[i] == s.out[i];
        if ev.Deliver? && ev.c == c { StillAhead(s, pos, i, t); }
      } else if ev.Emit? && t in Changed(s.agg) {
        assert t in Elements(ev.batch);
        assert s'.out[|s.out|] == ev.batch;
      }
    }
  }

  /** A message naming a table the frame does not name lies after the receive. */
  lemma StillAhead(s: Pipe, pos: nat, i: nat, t: Table)
    requires WellFormed(s) && pos <= i < |s.out| && t in s.out[i] && t < |s.sent|
    requires t !in Frame(s, pos)
    ensures NextPos(|s.out|, pos, BROADCAST_CAPACITY) <= i
  {
  }

  ghost predicate IsRun(ss: seq<Pipe>, evs: seq<Event>) {
    && |ss| == |evs| + 1
    && Init(ss[0])
    && forall i :: 0 <= i < |evs| ==> WellFormed(ss[i]) && Step(ss[i], evs[i], ss[i + 1])
  }

  lemma {:induction false} RunKeepsInv(ss: seq<Pipe>, evs: seq<Event>, i: nat)
    requires IsRun(ss, evs) && i <= |evs|
    ensures Inv(ss[i])
  {
    if i > 0 {
      RunKeepsInv(ss, evs, i - 1);
      StepKeepsInv(ss[i - 1], evs[i - 1], ss[i]);
    }
  }

  /** In every reachable state, a table notified since a client subscribed and not yet reported to it
      is pending in its table channel, in the batch being gathered, or in an outbound batch the client
      can still receive; otherwise the client is so far behind that its next frame names every table. */
  lemma NoInvalidationLost(ss: seq<Pipe>, evs: seq<Event>, i: nat, c: nat, t: Table)
    requires IsRun(ss, evs) && i <= |evs| && c in ss[i].clients && t in ss[i].clients[c].stale
    ensures var s := ss[i];
            var pos := s.clients[c].pos;
            && t < |s.sent| == |s.seen| && pos <= |s.out|
            && (|| s.seen[t] < s.sent[t]
                || t in Changed(s.agg)
                || (exists j :: pos <= j < |s.out| && |s.out| - BROADCAST_CAPACITY <= j && t in s.out[j])
                || (Receive(s.out, pos, BROADCAST_CAPACITY).Lagged? && t in Frame(s, pos)))
  {
    RunKeepsInv(ss, evs, i);
    assert OnItsWay(ss[i], ss[i].clients[c].pos, t);
  }

  lemma BatchesDuplicateFree(ss: seq<Pipe>, evs: seq<Event>, i: nat, b: seq<Table>)
    requires IsRun(ss, evs) && i <= |evs| && b in ss[i].out
    ensures NoDuplicates(b)
  {
    RunKeepsInv(ss, evs, i);
  }

  // ---- What clients are told -----------------------------------------------------------------

  /** Table `t` was notified by event `j`, after client `c` had subscribed, and no frame `c` has received
      since then named it. */
  ghost predicate Untold(ss: seq<Pipe>, evs: seq<Event>, i: nat, c: nat, t: Table, j: nat)
    requires IsRun(ss, evs) && i <= |evs|
  {
    && j < i && evs[j] == Notify(t) && c in ss[j].clients
    && forall m :: j < m < i ==> !TellsAt(ss, evs, m, c, t)
  }

  ghost predicate Unreported(ss: seq<Pipe>, evs: seq<Event>, i: nat, c: nat, t: Table)
    requires IsRun(ss, evs) && i <= |evs|
  {
    exists j :: 0 <= j < i && Untold(ss, evs, i, c, t, j)
  }

  /** Event `m` hands client `c` a frame that names `t`. */
  ghost predicate TellsAt(ss: seq<Pipe>, evs: seq<Event>, m: nat, c: nat, t: Table)
    requires IsRun(ss, evs) && m < |evs|
  {
    evs[m] == Deliver(c) && c in ss[m].clients && t in Frame(ss[m], ss[m].clients[c].pos)
  }

  /** What the state keeps as stale is what the history says: the tables a client has not been told of since
      their last notification. */
  lemma {:induction false} StaleIsHistory(ss: seq<Pipe>, evs: seq<Event>, i: nat, c: nat, t: Table)
    requires IsRun(ss, evs) && i <= |evs| && c in ss[i].clients
    ensures t in ss[i].clients[c].stale <==> Unreported(ss, evs, i, c, t)
  {
    if i > 0 {
      var s, ev, n := ss[i - 1], evs[i - 1], i - 1;
      assert WellFormed(s) && Step(s, ev, ss[i]);
      if c !in s.clients {
        NotYetSubscribed(ss, evs, n, c);
        assert ev == Subscribe(c);
      } else {
        StaleIsHistory(ss, evs, n, c, t);
        StaleStep(ss, evs, i, c, t);
      }
    }
  }

  lemma {:induction false} NotYetSubscribed(ss: seq<Pipe>, evs: seq<Event>, i: nat, c: nat)
    requires IsRun(ss, evs) && i <= |evs| && c !in ss[i].clients
    ensures forall j :: 0 <= j <= i ==> c !in ss[j].clients
  {
    if i > 0 {
      assert WellFormed(ss[i - 1]) && Step(ss[i - 1], evs[i - 1], ss[i]);
      NotYetSubscribed(ss, evs, i - 1, c);
    }
  }

  lemma StaleStep(ss: seq<Pipe>, evs: seq<Event>, i: nat, c: nat, t: Table)
    requires IsRun(ss, evs) && 0 < i <= |evs| && c in ss[i - 1].clients && c in ss[i].clients
    requires t in ss[i - 1].clients[c].stale <==> Unreported(ss, evs, i - 1, c, t)
    ensures t in ss[i].clients[c].stale <==> Unreported(ss, evs, i, c, t)
  {
    var n := i - 1;
    assert WellFormed(ss[n]) && Step(ss[n], evs[n], ss[i]);
    forall j | 0 <= j < n
      ensures Untold(ss, evs, i, c, t, j) <==> Untold(ss, evs, n, c, t, j) && !TellsAt(ss, evs, n, c, t)
    {
    }
    assert Untold(ss, evs, i, c, t, n) <==> evs[n] == Notify(t);
  }

  predicate Notified(evs: seq<Event>, i: nat, t: Table)
    requires i <= |evs|
  {
    exists j :: 0 <= j < i && evs[j] == Notify(t)
  }

  /** Everything on its way anywhere in the pipeline was notified. */
  ghost predicate Sourced(s: Pipe, evs: seq<Event>, i: nat)
    requires WellFormed(s) && i <= |evs|
  {
    && (forall t :: 0 <= t < |s.sent| && s.seen[t] < s.sent[t] ==> Notified(evs, i, t))
    && (forall t :: t in Changed(s.agg) ==> Notified(evs, i, t))
    && (forall b, t :: b in s.out && t in b ==> Notified(evs, i, t))
  }

  lemma {:induction false} RunSourced(ss: seq<Pipe>, evs: seq<Event>, i: nat)
    requires IsRun(ss, evs) && i <= |evs|
    ensures WellFormed(ss[i]) && Sourced(ss[i], evs, i)
  {
    if i > 0 {
      RunSourced(ss, evs, i - 1);
      SourcedStep(ss[i - 1], evs, i, ss[i]);
    }
  }

  lemma SourcedStep(s: Pipe, evs: seq<Event>, i: nat, s': Pipe)
    requires 0 < i <= |evs| && WellFormed(s) && Sourced(s, evs, i - 1) && Step(s, evs[i - 1], s')
    ensures WellFormed(s') && Sourced(s', evs, i)
  {
    var ev := evs[i - 1];
    StepWellFormed(s, ev, s');
    assert forall t: Table :: Notified(evs, i - 1, t) ==> Notified(evs, i, t);
    if ev.Notify? { assert Notified(evs, i, ev.t); }
    if ev.Emit? { assert forall t :: t in ev.batch ==> t in Elements(ev.batch); }
  }

  /** No false alarm: unless a client lagged, a frame names only tables that have been notified. */
  lemma FramesNameNotified(ss: seq<Pipe>, evs: seq<Event>, i: nat, c: nat, t: Table)
    requires IsRun(ss, evs) && i <= |evs| && c in ss[i].clients && ss[i].clients[c].pos <= |ss[i].out|
    requires !Receive(ss[i].out, ss[i].clients[c].pos, BROADCAST_CAPACITY).Lagged?
    requires t in Frame(ss[i], ss[i].clients[c].pos)
    ensures Notified(evs, i, t)
  {
    RunSourced(ss, evs, i);
    assert ss[i].out[ss[i].clients[c].pos] in ss[i].out;
  }

  /** A client lags exactly when it is more than 64 batches behind, and then has the last 64 still to come. */
  lemma LagsIff(s: Pipe, pos: nat)
    requires pos <= |s.out|
    ensures Receive(s.out, pos, BROADCAST_CAPACITY).Lagged? <==> |s.out| - pos > 64
    ensures |s.out| - pos > 64 ==> NextPos(|s.out|, pos, BROADCAST_CAPACITY) == |s.out| - 64
  {
  }

  // ---- The pipeline settles ----------------------------------------------------------------

  /** Notifications the loop has not received yet. */
  function Pending(s: Pipe): nat
    requires WellFormed(s)
  {
    Unread(s.sent, s.seen)
  }

  function Phase(s: Pipe): nat
    requires WellFormed(s)
  {
    match s.agg
    case Waiting => 0
    case Debouncing(_) => |s.sent| + 2
    case Draining(_, next) => |s.sent| + 1 - next
  }

  /** Batches not received yet, each with its client. */
  function Backlog(s: Pipe): set<(nat, nat)> {
    set c, i | c in s.clients && s.clients[c].pos <= i < |s.out| :: (c, i)
  }

  /** A step of the loop or of a client, as opposed to a new notification or a new client. */
  predicate Quiet(ev: Event) { !ev.Notify? && !ev.Subscribe? }

  /** Progress in the lexicographic order of pending notifications, loop phase and backlog. */
  ghost predicate Progress(s: Pipe, s': Pipe)
    requires WellFormed(s) && WellFormed(s')
  {
    || Pending(s') < Pending(s)
    || (Pending(s') == Pending(s) && Phase(s') < Phase(s))
    || (Pending(s') == Pending(s) && Phase(s') == Phase(s) && Backlog(s') < Backlog(s))
  }

  lemma ReceivingLowersPending(s: Pipe, t: Table)
    requires WellFormed(s) && t < |s.sent| && s.seen[t] < s.sent[t]
    ensures WellFormed(TableReceived(s, t)) && Pending(TableReceived(s, t)) < Pending(s)
  {
    ReceiveLowersUnread(s.sent, s.seen, t, NextPos(s.sent[t], s.seen[t], CHANNEL_CAPACITY));
  }

  /** Nothing is left to do for the loop and client `c`. */
  predicate Settled(s: Pipe, c: nat)
    requires WellFormed(s) && c in s.clients
  {
    s.agg.Waiting? && s.clients[c].pos == |s.out| && forall t :: 0 <= t < |s.sent| ==> s.seen[t] == s.sent[t]
  }

  /** A client that is settled is fresh: it has been told of every notified table. */
  lemma SettledIsFresh(s: Pipe, c: nat)
    requires Inv(s) && c in s.clients && Settled(s, c)
    ensures s.clients[c].stale == {}
  {
    assert forall t :: t in s.clients[c].stale ==> OnItsWay(s, s.clients[c].pos, t);
  }

  lemma {:induction false} SeqOfSet(ts: set<Table>) returns (batch: seq<Table>)
    ensures NoDuplicates(batch) && Elements(batch) == ts
    decreases ts
  {
    if ts == {} {
      batch := [];
    } else {
      var t :| t in ts;
      var rest := SeqOfSet(ts - {t});
      assert t !in Elements(rest);
      batch := [t] + rest;
      assert Elements(batch) == Elements(rest) + {t};
    }
  }

  /** Every step of the loop and of every client makes progress. */
  lemma QuietStepProgresses(s: Pipe, ev: Event, s': Pipe)
    requires Inv(s) && Step(s, ev, s') && Quiet(ev)
    ensures Inv(s') && Progress(s, s')
  {
    StepKeepsInv(s, ev, s');
    match ev
    case First(t) => ReceivingLowersPending(s, t);
    case Drain => if s.seen[s.agg.next] < s.sent[s.agg.next] { ReceivingLowersPending(s, s.agg.next); }
    case Deliver(c) => DeliveryShrinksBacklog(s, c, s');
    case _ =>
  }

  lemma DeliveryShrinksBacklog(s: Pipe, c: nat, s': Pipe)
    requires WellFormed(s) && Step(s, Deliver(c), s')
    ensures Backlog(s') < Backlog(s)
  {
    assert (c, s.clients[c].pos) in Backlog(s) && (c, s.clients[c].pos) !in Backlog(s');
    forall x | x in Backlog(s')
      ensures x in Backlog(s)
    {
    }
  }

  /** So no run goes on for ever without a new notification or a new client. */
  lemma QuietStepsEnd(run: nat -> Pipe, evs: nat -> Event, i: nat)
    requires Inv(run(i)) && forall j :: WellFormed(run(j))
    ensures exists j :: i <= j && !(Quiet(evs(j)) && Step(run(j), evs(j), run(j + 1)))
  {
    var moves := (j: nat) => Quiet(evs(j)) && Step(run(j), evs(j), run(j + 1));
    var first, second, left := (j: nat) => Pending(run(j)), (j: nat) => Phase(run(j)), (j: nat) => Backlog(run(j));
    forall j: nat | Inv(run(j)) && moves(j)
      ensures Inv(run(j + 1)) && Lowers(first, second, left, j)
    {
      QuietStepProgresses(run(j), evs(j), run(j + 1));
    }
    StepsEnd(moves, (j: nat) => Inv(run(j)), first, second, left, i);
  }

  /** A client that is behind, or a loop that is not at rest, always has a step to take. */
  lemma NextStep(s: Pipe, c: nat) returns (ev: Event, s': Pipe)
    requires Inv(s) && c in s.clients && !Settled(s, c)
    ensures Quiet(ev) && Step(s, ev, s')
  {
    match s.agg {
      case Debouncing(changed) =>
        ev, s' := Wake, s.(agg := Draining(changed, 0));
      case Draining(changed, next) =>
        if next == |s.sent| {
          var batch := SeqOfSet(changed);
          ev, s' := Emit(batch), s.(agg := Waiting, out := s.out + [batch]);
        } else if s.seen[next] < s.sent[next] {
          ev, s' := Drain, TableReceived(s, next).(agg := Draining(changed + {next}, next));
        } else {
          ev, s' := Drain, s.(agg := Draining(changed, next + 1));
        }
      case Waiting =>
        if t :| 0 <= t < |s.sent| && s.seen[t] < s.sent[t] {
          ev, s' := First(t), TableReceived(s, t).(agg := Debouncing({t}));
        } else {
          ev, s' := Deliver(c), s.(clients := s.clients[c := Delivered(s, c)]);
        }
    }
  }

  /** Nothing can happen any more without a notification or a new client. */
  ghost predicate Stuck(s: Pipe)
    requires WellFormed(s)
  {
    forall ev, s' :: Quiet(ev) ==> !Step(s, ev, s')
  }

  /** Every maximal run without further notifications, whatever its schedule, leaves every client fresh:
      invalidations are not only kept, they arrive. */
  lemma MaximalRunIsFresh(ss: seq<Pipe>, evs: seq<Event>, c: nat)
    requires IsRun(ss, evs) && WellFormed(ss[|evs|]) && Stuck(ss[|evs|]) && c in ss[|evs|].clients
    ensures ss[|evs|].clients[c].stale == {}
  {
    var s := ss[|evs|];
    RunKeepsInv(ss, evs, |evs|);
    if !Settled(s, c) {
      var ev, s' := NextStep(s, c);
      assert false;
    }
    SettledIsFresh(s, c);
  }

  // ---- One round of the aggregation loop ---------------------------------------------------------

  /** The aggregation loop's receivers and outbound channel, changed in place. */
  class Aggregator {
    var sent: seq<nat>
    var seen: seq<nat>
    var out: seq<seq<Table>>

    ghost predicate Valid()
      reads this
    {
      |seen| == |sent| && forall t :: 0 <= t < |sent| ==> seen[t] <= sent[t]
    }

    constructor (tables: nat)
      ensures Valid() && |sent| == tables && seen == sent && out == []
    {
      sent := seq(tables, _ => 0);
      seen := seq(tables, _ => 0);
      out := [];
    }

    /** The tracker's notification of one table. */
    method Notify(t: Table)
      requires Valid() && t < |sent|
      modifies this
      ensures Valid() && seen == old(seen) && out == old(out) && sent == old(sent)[t := old(sent)[t] + 1]
    {
      sent := sent[t := sent[t] + 1];
    }

    /** One receive on the channel of table `t`; true for a message or a lag, false when it is empty. */
    method TryRecv(t: Table) returns (some: bool)
      requires Valid() && t < |sent|
      modifies this
      ensures Valid() && sent == old(sent) && out == old(out) && some == (old(seen)[t] < sent[t])
      ensures seen == old(seen)[t := NextPos(sent[t], old(seen)[t], CHANNEL_CAPACITY)]
    {
      some := seen[t] < sent[t];
      seen := seen[t := NextPos(sent[t], seen[t], CHANNEL_CAPACITY)];
    }

    /** After the debounce window: drain every receiver, then emit one batch. The batch names, once each,
        exactly the first table and the tables that had anything pending, and nothing stays pending. */
    method Flush(first: Table)
      requires Valid() && first < |sent|
      modifies this
      ensures Valid() && sent == old(sent) && seen == sent
      ensures |out| == |old(out)| + 1 && out[..|old(out)|] == old(out)
      ensures NoDuplicates(out[|old(out)|])
      ensures forall t: nat :: t in out[|old(out)|] <==> t == first || (t < |sent| && old(seen)[t] < sent[t])
    {
      var changed: set<Table> := {first};
      for name := 0 to |sent|
        invariant Valid() && sent == old(sent) && out == old(out)
        invariant forall t :: 0 <= t < |sent| ==> seen[t] == if t < name then sent[t] else old(seen)[t]
        invariant forall t: nat :: t in changed <==> t == first || (t < name && old(seen)[t] < sent[t])
      {
        var more := true;
        while more
          invariant Valid() && sent == old(sent) && out == old(out)
          invariant forall t :: 0 <= t < |sent| && t != name ==> seen[t] == if t < name then sent[t] else old(seen)[t]
          invariant old(seen)[name] <= seen[name] && (!more ==> seen[name] == sent[name])
          invariant forall t: nat :: t in changed <==>
                      t == first || (t < name && old(seen)[t] < sent[t]) || (t == name && old(seen)[t] < seen[t])
          decreases sent[name] - seen[name], more
        {
          more := TryRecv(name);
          if more { changed := changed + {name}; }
        }
      }
      var batch := ToVec(changed);
      out := out + [batch];
      assert forall t: nat :: t in batch <==> t in Elements(batch);
    }

    /** `HashSet::into_iter().collect()`: every element once, in some order. */
    method ToVec(changed: set<Table>) returns (batch: seq<Table>)
      ensures NoDuplicates(batch) && Elements(batch) == changed
    {
      var todo := changed;
      batch := [];
      while todo != {}
        invariant todo <= changed && NoDuplicates(batch) && Elements(batch) == changed - todo
        decreases todo
      {
        var t :| t in todo;
        assert t !in Elements(batch);
        assert Elements(batch + [t]) == Elements(batch) + {t};
        batch, todo := batch + [t], todo - {t};
      }
    }
  }
}
