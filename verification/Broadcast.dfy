/** A bounded broadcast channel: the sender never waits, and a receiver that falls more than the
    capacity behind is told once that it lagged and resumes at the oldest retained message. */
module Broadcast {

  datatype Received<+T> = Empty | Lagged | Got(value: T)

  /** Where a receiver at position `pos` is after one receive, with `sent` messages sent so far. */
  function NextPos(sent: nat, pos: nat, capacity: nat): (next: nat)
    requires pos <= sent && capacity > 0
    ensures pos <= next <= sent
    ensures pos < sent ==> pos < next
  {
    if pos == sent then pos
    else if pos + capacity < sent then sent - capacity
    else pos + 1
  }

  function Receive<T>(log: seq<T>, pos: nat, capacity: nat): (r: Received<T>)
    requires pos <= |log| && capacity > 0
    ensures r.Empty? <==> pos == |log|
    ensures r.Got? ==> pos < |log| && r.value == log[pos]
  {
    if pos == |log| then Empty
    else if pos + capacity < |log| then Lagged
    else Got(log[pos])
  }

  /** Positions of one receiver per channel, none ahead of its channel. */
  predicate Positions(sent: seq<nat>, seen: seq<nat>) {
    |sent| == |seen| && forall t :: 0 <= t < |sent| ==> seen[t] <= sent[t]
  }

  /** Messages the receivers have not passed yet, over all channels. */
  function Unread(sent: seq<nat>, seen: seq<nat>): nat
    requires Positions(sent, seen)
  {
    if sent == [] then 0
    else
      assert forall t :: 0 <= t < |sent[1..]| ==> sent[1..][t] == sent[t + 1] && seen[1..][t] == seen[t + 1];
      sent[0] - seen[0] + Unread(sent[1..], seen[1..])
  }

  /** A receive that finds something, message or lag report, lowers what is left to read. */
  lemma {:induction false} ReceiveLowersUnread(sent: seq<nat>, seen: seq<nat>, t: nat, next: nat)
    requires Positions(sent, seen) && t < |sent| && seen[t] < next <= sent[t]
    ensures Positions(sent, seen[t := next]) && Unread(sent, seen[t := next]) < Unread(sent, seen)
  {
    if t > 0 {
      assert seen[t := next][1..] == seen[1..][t - 1 := next];
      assert forall u :: 0 <= u < |sent[1..]| ==> sent[1..][u] == sent[u + 1] && seen[1..][u] == seen[u + 1];
      ReceiveLowersUnread(sent[1..], seen[1..], t - 1, next);
    } else {
      assert seen[0 := next][1..] == seen[1..];
    }
  }
}
