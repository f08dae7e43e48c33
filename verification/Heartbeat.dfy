/** Heartbeat diffing: the callbacks a consumer gets are exactly the changes of the stored instance map. */
module Heartbeat {
  import opened SyncTypes

  type Instances = map<string, string>

  /** A callback: a new or changed instance with its former state, or a gone one with its last state. */
  datatype Callback =
    | Changed(run: string, id: string, before: Option<string>, after: string)
    | Gone(run: string, id: string, last: string)

  function StateOf(m: Instances, id: string): Option<string> { if id in m then Some(m[id]) else None }

  /** What a consumer that keeps its own map of a run does with a callback. */
  function Consume(m: Instances, c: Callback): Instances {
    match c
    case Changed(_, id, _, after) => m[id := after]
    case Gone(_, id, _) => m - {id}
  }

  /** The callback's old state is the consumer's current one, and it reports an actual change. */
  predicate Faithful(m: Instances, c: Callback) {
    match c
    case Changed(_, id, before, after) => before == StateOf(m, id) && before != Some(after)
    case Gone(_, id, last) => Some(last) == StateOf(m, id)
  }

  function ConsumeAll(m: Instances, cs: seq<Callback>): Instances {
    if cs == [] then m else Consume(ConsumeAll(m, cs[..|cs| - 1]), cs[|cs| - 1])
  }

  predicate AllFaithful(m: Instances, cs: seq<Callback>) {
    cs == [] || (AllFaithful(m, cs[..|cs| - 1]) && Faithful(ConsumeAll(m, cs[..|cs| - 1]), cs[|cs| - 1]))
  }

  /** Callbacks `cs` faithfully take a consumer of run `run` from `before` to `after`. */
  ghost predicate Tells(run: string, before: Instances, cs: seq<Callback>, after: Instances) {
    ConsumeAll(before, cs) == after && AllFaithful(before, cs) && forall c :: c in cs ==> c.run == run
  }

  lemma TellsSnoc(run: string, before: Instances, cs: seq<Callback>, mid: Instances, c: Callback)
    requires Tells(run, before, cs, mid) && Faithful(mid, c) && c.run == run
    ensures Tells(run, before, cs + [c], Consume(mid, c))
  {
    assert (cs + [c])[..|cs|] == cs;
  }

  lemma {:induction false} TellsAppend(run: string, a: Instances, cs: seq<Callback>, b: Instances, ds: seq<Callback>,
                                       c: Instances)
    requires Tells(run, a, cs, b) && Tells(run, b, ds, c)
    ensures Tells(run, a, cs + ds, c)
  {
    if ds == [] {
      assert cs + ds == cs;
    } else {
      var front, d := ds[..|ds| - 1], ds[|ds| - 1];
      assert ds == front + [d];
      assert forall x :: x in front ==> x in ds;
      TellsAppend(run, a, cs, b, front, ConsumeAll(b, front));
      assert d in ds;
      TellsSnoc(run, a, cs + front, ConsumeAll(b, front), d);
      assert cs + front + [d] == cs + ds;
    }
  }

  /** What the first loop has reported once it has visited the instances `done`. */
  predicate ReportedChange(run: string, before: Instances, after: Instances, done: set<string>, c: Callback) {
    && c.Changed? && c.run == run && c.id in done && c.id in after
    && c.after == after[c.id] && c.before == StateOf(before, c.id) && c.before != Some(c.after)
  }

  /** And the second. */
  predicate ReportedGone(run: string, before: Instances, after: Instances, done: set<string>, c: Callback) {
    c.Gone? && c.run == run && c.id in done && c.id in before && c.last == before[c.id] && c.id !in after
  }

  predicate DistinctIds(calls: seq<Callback>) { forall i, j :: 0 <= i < j < |calls| ==> calls[i].id != calls[j].id }

  datatype Input = Beat(run: string, instances: Instances) | Report(run: string, id: string, state: string)

  class ConnectionService {
    var states: map<string, Instances>

    constructor ()
      ensures states == map[]
    {
      states := map[];
    }

    ghost function Of(run: string): Instances
      reads this
    {
      if run in states then states[run] else map[]
    }

    /** Diffs a heartbeat against the stored map, in whatever order the maps are iterated: one call for each new
        or changed instance, with its former state, then one for each that is gone; then stores it. */
    method ProcessHeartbeat(run: string, instances: Instances) returns (calls: seq<Callback>)
      modifies this
      ensures states == old(states)[run := instances]
      ensures Tells(run, old(Of(run)), calls, instances)
      ensures forall id, before, after :: Changed(run, id, before, after) in calls
                <==> id in instances && instances[id] == after && before != Some(after)
                     && before == if id in old(Of(run)) then Some(old(Of(run))[id]) else None
      ensures forall id, last :: Gone(run, id, last) in calls
                <==> id in old(Of(run)) && old(Of(run))[id] == last && id !in instances
      ensures DistinctIds(calls)
      ensures forall i, j :: 0 <= i < j < |calls| && calls[j].Changed? ==> calls[i].Changed?
      ensures instances == old(Of(run)) ==> calls == []
    {
      var previous := if run in states then states[run] else map[];
      var changed := ReportChanged(run, previous, instances);
      var gone := ReportGone(run, previous, instances, previous + instances);
      TellsAppend(run, previous, changed, previous + instances, gone, instances);
      calls := changed + gone;
      CallsAreDiff(run, previous, instances, changed, gone);
      states := states[run := instances];
    }

    /** The first loop: new and changed instances. */
    method ReportChanged(run: string, previous: Instances, instances: Instances) returns (calls: seq<Callback>)
      ensures Tells(run, previous, calls, previous + instances)
      ensures forall c :: c in calls <==> ReportedChange(run, previous, instances, instances.Keys, c)
      ensures DistinctIds(calls)
    {
      calls := [];
      ghost var view := previous;
      var todo := instances.Keys;
      while todo != {}
        invariant todo <= instances.Keys && Tells(run, previous, calls, view)
        invariant forall id :: StateOf(view, id) ==
                    if id in instances && id !in todo then Some(instances[id]) else StateOf(previous, id)
        invariant forall c :: c in calls <==> ReportedChange(run, previous, instances, instances.Keys - todo, c)
        invariant DistinctIds(calls)
        decreases todo
      {
        var id :| id in todo;
        todo := todo - {id};
        var before := if id in previous then Some(previous[id]) else None;
        assert StateOf(view, id) == before;
        if before != Some(instances[id]) {
          var c := Changed(run, id, before, instances[id]);
          DistinctSnoc(calls, c);
          TellsSnoc(run, previous, calls, view, c);
          calls, view := calls + [c], Consume(view, c);
        }
      }
      SameStates(view, previous + instances);
    }

    /** The second loop: stored instances the heartbeat no longer lists. */
    method ReportGone(run: string, previous: Instances, instances: Instances, ghost told: Instances)
      returns (calls: seq<Callback>)
      requires forall id :: StateOf(told, id) ==
                 if id in instances then Some(instances[id]) else StateOf(previous, id)
      ensures Tells(run, told, calls, instances)
      ensures forall c :: c in calls <==> ReportedGone(run, previous, instances, previous.Keys, c)
      ensures DistinctIds(calls)
    {
      calls := [];
      ghost var view := told;
      var todo := previous.Keys;
      while todo != {}
        invariant todo <= previous.Keys && Tells(run, told, calls, view)
        invariant forall id :: StateOf(view, id) ==
                    if id in instances then Some(instances[id]) else if id in todo then Some(previous[id]) else None
        invariant forall c :: c in calls <==> ReportedGone(run, previous, instances, previous.Keys - todo, c)
        invariant DistinctIds(calls)
        decreases todo
      {
        var id :| id in todo;
        if id !in instances {
          var c := Gone(run, id, previous[id]);
          assert StateOf(view, id) == Some(previous[id]);
          DistinctSnoc(calls, c);
          TellsSnoc(run, told, calls, view, c);
          calls, view := calls + [c], Consume(view, c);
        }
        todo := todo - {id};
      }
      SameStates(view, instances);
    }

    /** A single instance's report: stored and told only if it differs. */
    method ProcessStateReport(run: string, id: string, state: string) returns (calls: seq<Callback>)
      modifies this
      ensures states == old(states)[run := old(Of(run))[id := state]]
      ensures Tells(run, old(Of(run)), calls, Of(run))
      ensures calls == if id in old(Of(run)) && old(Of(run))[id] == state then []
                       else [Changed(run, id, if id in old(Of(run)) then Some(old(Of(run))[id]) else None, state)]
      ensures calls == [] <==> StateOf(old(Of(run)), id) == Some(state)
    {
      var current := if run in states then states[run] else map[];
      var before := if id in current then Some(current[id]) else None;
      calls := [];
      if before == Some(state) {
        assert current[id := state] == current;
        states := states[run := current];
        return;
      }
      var c := Changed(run, id, before, state);
      TellsSnoc(run, current, [], current, c);
      states, calls := states[run := current[id := state]], [] + [c];
    }

    /** Any run of heartbeats and reports: the calls made for a run's consumer, folded over its initial
        map, give the stored map, each call faithful when it is made. */
    method ProcessAll(inputs: seq<Input>, run: string) returns (calls: seq<Callback>)
      modifies this
      ensures Tells(run, old(Of(run)), calls, Of(run))
    {
      calls := [];
      for i := 0 to |inputs|
        invariant Tells(run, old(Of(run)), calls, Of(run))
      {
        ghost var mid := Of(run);
        var more: seq<Callback>;
        match inputs[i] {
          case Beat(r, instances) => more := ProcessHeartbeat(r, instances);
          case Report(r, id, state) => more := ProcessStateReport(r, id, state);
        }
        if inputs[i].run == run {
          TellsAppend(run, old(Of(run)), calls, mid, more, Of(run));
          calls := calls + more;
        }
      }
    }
  }

  lemma DistinctSnoc(calls: seq<Callback>, c: Callback)
    requires DistinctIds(calls) && forall x :: x in calls ==> x.id != c.id
    ensures DistinctIds(calls + [c])
  {
    assert forall i :: 0 <= i < |calls| ==> calls[i] in calls;
  }

  /** The calls of the two loops, one after the other, are the difference of the two maps. */
  lemma CallsAreDiff(run: string, before: Instances, after: Instances, changed: seq<Callback>, gone: seq<Callback>)
    requires forall c :: c in changed <==> ReportedChange(run, before, after, after.Keys, c)
    requires forall c :: c in gone <==> ReportedGone(run, before, after, before.Keys, c)
    requires DistinctIds(changed) && DistinctIds(gone)
    ensures var calls := changed + gone;
            && (forall id, b, v :: Changed(run, id, b, v) in calls
                  <==> id in after && after[id] == v && b != Some(v)
                       && b == if id in before then Some(before[id]) else None)
            && (forall id, l :: Gone(run, id, l) in calls <==> id in before && before[id] == l && id !in after)
            && DistinctIds(calls)
            && (forall i, j :: 0 <= i < j < |calls| && calls[j].Changed? ==> calls[i].Changed?)
            && (after == before ==> calls == [])
  {
    var calls := changed + gone;
    forall i | 0 <= i < |calls|
      ensures if i < |changed| then calls[i].Changed? && calls[i].id in after
              else calls[i].Gone? && calls[i].id !in after && calls[i].id in before
      ensures after != before
    {
      assert if i < |changed| then calls[i] in changed else calls[i] in gone;
    }
    assert calls != [] ==> calls[0].id in after || calls[0].id in before;
  }

  lemma SameStates(a: Instances, b: Instances)
    requires forall id :: StateOf(a, id) == StateOf(b, id)
    ensures a == b
  {
    forall id
      ensures (id in a <==> id in b) && (id in a && id in b ==> a[id] == b[id])
    {
      assert StateOf(a, id) == StateOf(b, id);
    }
  }
}
