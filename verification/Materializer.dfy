/** The synced tables of one device and the materializer that writes remote changes into them. */
module Materializer {
  import opened SyncTypes

  /** Tables that take part in sync; `preferences` is the only one whose key column is not `id`. */
  const SYNCED_TABLES: seq<TableName> := [
    "api_keys", "preferences", "agent_providers", "agent_templates", "workspace_templates",
    "workspaces", "workspace_runs", "workspace_agents", "agent_messages", "agent_logs",
    "agent_activity_events", "agent_usage_records", "agent_files", "workspace_inquiries",
    "instance_results"]

  predicate Synced(t: TableName) { t in SYNCED_TABLES }

  predicate KeyedById(t: TableName) { Synced(t) && t != "preferences" }

  /** Rows and tombstones of the synced tables. */
  datatype Store = Store(rows: map<Key, Row>, tombs: map<Key, Tombstone>)

  /** A tombstone at least as new as the change hides an insert, update or upsert. */
  predicate Hidden(st: Store, c: Change) {
    !c.op.Delete? && c.RowKey() in st.tombs && st.tombs[c.RowKey()].ts >= c.ts
  }

  /** The stored row wins against the incoming change: newer, or equally new from a greater device. */
  predicate Beats(existing: Row, c: Change) {
    existing.ts > c.ts || (existing.ts == c.ts && Less(c.dev, existing.dev))
  }

  /** The attempt ends in an error, which callers log and ignore. */
  predicate Fails(st: Store, c: Change) {
    if c.op.Delete? then !KeyedById(c.table)
    else
      !Hidden(st, c)
      && (c.data.NotObject? || c.data.EmptyObject?
          || (!Synced(c.table) && !(c.RowKey() in st.rows && Beats(st.rows[c.RowKey()], c))))
  }

  function Materialize(st: Store, c: Change): (r: Store)
    ensures r.tombs == st.tombs
    ensures forall k :: k != c.RowKey() ==> (k in r.rows <==> k in st.rows)
    ensures forall k :: k != c.RowKey() && k in st.rows ==> r.rows[k] == st.rows[k]
  {
    if Hidden(st, c) || Fails(st, c) then st
    else if c.op.Delete? then st.(rows := st.rows - {c.RowKey()})
    else if c.RowKey() in st.rows && Beats(st.rows[c.RowKey()], c) then st
    else if c.data.KeyOnly? then st  // nothing to set, and a row of required columns cannot be inserted
    else st.(rows := st.rows[c.RowKey() := c.data.full])
  }

  /** Materializing a sequence of changes, oldest position first. */
  function MaterializeAll(st: Store, cs: seq<Change>): Store {
    if cs == [] then st
    else Materialize(MaterializeAll(st, cs[..|cs| - 1]), cs[|cs| - 1])
  }

  /** The tables that take part, by name. */
  lemma SyncedTables(t: TableName)
    ensures Synced(t) <==>
            t in {"api_keys", "preferences", "agent_providers", "agent_templates", "workspace_templates", "workspaces",
                  "workspace_runs", "workspace_agents", "agent_messages", "agent_logs", "agent_activity_events",
                  "agent_usage_records", "agent_files", "workspace_inquiries", "instance_results"}
  {
    assert SYNCED_TABLES[0] == "api_keys" && SYNCED_TABLES[1] == "preferences";
    assert SYNCED_TABLES[2] == "agent_providers" && SYNCED_TABLES[3] == "agent_templates";
    assert SYNCED_TABLES[4] == "workspace_templates" && SYNCED_TABLES[5] == "workspaces";
    assert SYNCED_TABLES[6] == "workspace_runs" && SYNCED_TABLES[7] == "workspace_agents";
    assert SYNCED_TABLES[8] == "agent_messages" && SYNCED_TABLES[9] == "agent_logs";
    assert SYNCED_TABLES[10] == "agent_activity_events" && SYNCED_TABLES[11] == "agent_usage_records";
    assert SYNCED_TABLES[12] == "agent_files" && SYNCED_TABLES[13] == "workspace_inquiries";
    assert SYNCED_TABLES[14] == "instance_results";
  }

  // ---- The materializer alone is a join -----------------------------------------------

  /** An upsert of a synced table whose record carries the change's own stamp. */
  predicate StampedUpsert(c: Change) {
    !c.op.Delete? && Synced(c.table) && c.data.Record?
    && c.data.full.ts == c.ts && c.data.full.dev == c.dev
  }

  /** Rows are identified by their stamp: (timestamp, device) pairs are never reused for a row. */
  ghost predicate UniqueStamps(st: Store, cs: seq<Change>) {
    && (forall c, d :: c in cs && d in cs && c.RowKey() == d.RowKey() && c.ts == d.ts && c.dev == d.dev
          ==> c.data == d.data)
    && (forall c :: c in cs && c.RowKey() in st.rows
          && st.rows[c.RowKey()].ts == c.ts && st.rows[c.RowKey()].dev == c.dev
          ==> c.data == Record(st.rows[c.RowKey()]))
  }

  /** `r` is the greatest, by stamp, of the initial row of `k` and the changes to `k`. */
  ghost predicate IsJoin(st: Store, cs: seq<Change>, k: Key, r: Row) {
    && ((k in st.rows && st.rows[k] == r) || exists c :: c in cs && c.RowKey() == k && c.data == Record(r))
    && (k in st.rows ==> StampLe(st.rows[k].ts, st.rows[k].dev, r.ts, r.dev))
    && (forall c :: c in cs && c.RowKey() == k ==> StampLe(c.ts, c.dev, r.ts, r.dev))
  }

  lemma IsJoinExtend(st: Store, cs: seq<Change>, d: Change, k: Key, r: Row)
    requires IsJoin(st, cs, k, r)
    requires d.RowKey() == k ==> StampLe(d.ts, d.dev, r.ts, r.dev)
    ensures IsJoin(st, cs + [d], k, r)
  {
    if !(k in st.rows && st.rows[k] == r) {
      var c :| c in cs && c.RowKey() == k && c.data == Record(r);
      assert c in cs + [d];
    }
  }

  /** In any order and with any duplication, each touched row ends as the greatest by
      (timestamp, device) of its initial value and the changes, ties across devices included;
      a row is absent only if it was absent and no change names it. */
  lemma {:induction false} MaterializeIsJoin(st: Store, cs: seq<Change>, k: Key)
    requires forall c :: c in cs ==> StampedUpsert(c) && !Hidden(st, c)
    ensures var rows := MaterializeAll(st, cs).rows;
            if k in rows then IsJoin(st, cs, k, rows[k])
            else k !in st.rows && forall c :: c in cs ==> c.RowKey() != k
    ensures MaterializeAll(st, cs).tombs == st.tombs
  {
    if cs == [] {
      LessIrreflexive(if k in st.rows then st.rows[k].dev else "");
    } else {
      var init, d := cs[..|cs| - 1], cs[|cs| - 1];
      assert cs == init + [d];
      assert forall c :: c in init ==> c in cs;
      MaterializeIsJoin(st, init, k);
      JoinStep(st, init, d, k);
    }
  }

  lemma JoinStep(st: Store, init: seq<Change>, d: Change, k: Key)
    requires forall c :: c in init ==> StampedUpsert(c)
    requires StampedUpsert(d) && !Hidden(st, d)
    requires var mid := MaterializeAll(st, init);
             mid.tombs == st.tombs
             && if k in mid.rows then IsJoin(st, init, k, mid.rows[k])
                else k !in st.rows && forall c :: c in init ==> c.RowKey() != k
    ensures var rows := Materialize(MaterializeAll(st, init), d).rows;
            if k in rows then IsJoin(st, init + [d], k, rows[k])
            else k !in st.rows && forall c :: c in init + [d] ==> c.RowKey() != k
  {
    var mid := MaterializeAll(st, init);
    var out := Materialize(mid, d);
    LessIrreflexive(d.dev);
    if d.RowKey() != k {
      if k in mid.rows { IsJoinExtend(st, init, d, k, mid.rows[k]); }
    } else if k in mid.rows && Beats(mid.rows[k], d) {
      LessTotal(d.dev, mid.rows[k].dev);
      LessAsymmetric(d.dev, mid.rows[k].dev);
      IsJoinExtend(st, init, d, k, mid.rows[k]);
    } else {
      assert out.rows[k] == d.data.full;
      assert d in init + [d];
      if k in mid.rows { NewRowIsJoin(st, init, d, k, mid.rows[k]); }
    }
  }

  lemma LessAsymmetric(a: DeviceId, b: DeviceId)
    ensures !(Less(a, b) && Less(b, a))
  {
    if Less(a, b) && Less(b, a) {
      LessTransitive(a, b, a);
      LessIrreflexive(a);
    }
  }

  /** A change the stored row does not beat is at least as new as everything joined so far. */
  lemma NewRowIsJoin(st: Store, init: seq<Change>, d: Change, k: Key, old_: Row)
    requires forall c :: c in init ==> StampedUpsert(c)
    requires StampedUpsert(d) && d.RowKey() == k
    requires IsJoin(st, init, k, old_) && !Beats(old_, d)
    ensures IsJoin(st, init + [d], k, d.data.full)
  {
    assert StampLe(old_.ts, old_.dev, d.ts, d.dev);
    LessIrreflexive(d.dev);
    forall c | c in init + [d] && c.RowKey() == k
      ensures StampLe(c.ts, c.dev, d.ts, d.dev)
    {
      if c in init { StampLeTransitive(c.ts, c.dev, old_.ts, old_.dev, d.ts, d.dev); }
    }
    if k in st.rows {
      StampLeTransitive(st.rows[k].ts, st.rows[k].dev, old_.ts, old_.dev, d.ts, d.dev);
    }
    assert d in init + [d];
  }

  /** Order, batching and duplication do not matter: equal change sets give equal tables. */
  lemma MaterializeOrderIrrelevant(st: Store, cs: seq<Change>, ds: seq<Change>)
    requires forall c :: c in cs <==> c in ds
    requires forall c :: c in cs ==> StampedUpsert(c) && !Hidden(st, c)
    requires UniqueStamps(st, cs)
    ensures MaterializeAll(st, cs) == MaterializeAll(st, ds)
  {
    var a, b := MaterializeAll(st, cs), MaterializeAll(st, ds);
    forall k
      ensures k in a.rows <==> k in b.rows
      ensures k in a.rows && k in b.rows ==> a.rows[k] == b.rows[k]
    {
      MaterializeIsJoin(st, cs, k);
      MaterializeIsJoin(st, ds, k);
      if k in a.rows && k in b.rows { JoinUnique(st, cs, ds, k, a.rows[k], b.rows[k]); }
    }
    assert a.rows == b.rows;
    MaterializeIsJoin(st, cs, Key("", ""));
    MaterializeIsJoin(st, ds, Key("", ""));
  }

  lemma JoinUnique(st: Store, cs: seq<Change>, ds: seq<Change>, k: Key, r: Row, s: Row)
    requires forall c :: c in cs <==> c in ds
    requires forall c :: c in cs ==> StampedUpsert(c)
    requires UniqueStamps(st, cs)
    requires IsJoin(st, cs, k, r) && IsJoin(st, ds, k, s)
    ensures r == s
  {
    assert StampLe(r.ts, r.dev, s.ts, s.dev);
    assert StampLe(s.ts, s.dev, r.ts, r.dev);
    StampLeAntisymmetric(r.ts, r.dev, s.ts, s.dev);
  }

  // ---- No resurrection ------------------------------------------------------------------

  /** Once a row is absent with a tombstone at `t`, changes stamped at most `t` to that row,
      mixed with any changes to other rows, never bring it back. */
  lemma {:induction false} NoResurrection(st: Store, cs: seq<Change>, k: Key)
    requires k !in st.rows && k in st.tombs
    requires forall c :: c in cs && c.RowKey() == k ==> c.ts <= st.tombs[k].ts
    ensures k !in MaterializeAll(st, cs).rows
    ensures MaterializeAll(st, cs).tombs == st.tombs
  {
    if cs != [] {
      var init := cs[..|cs| - 1];
      assert forall c :: c in init ==> c in cs;
      NoResurrection(st, init, k);
      assert cs[|cs| - 1] in cs;
    }
  }

  /** The guard is exact: an absent row comes back through one change precisely when that change
      is a well-formed upsert of a synced table and no tombstone at least as new is stored. */
  lemma ResurrectionIff(st: Store, c: Change)
    requires c.RowKey() !in st.rows
    ensures c.RowKey() in Materialize(st, c).rows
            <==> !c.op.Delete? && c.data.Record? && Synced(c.table)
                 && !(c.RowKey() in st.tombs && st.tombs[c.RowKey()].ts >= c.ts)
  {
  }

  /** A delete removes its row in every synced table but `preferences`: the statement names a column that
      table does not have. */
  lemma DeleteTakesEffectIff(st: Store, c: Change)
    requires c.op.Delete? && c.RowKey() in st.rows
    ensures c.RowKey() !in Materialize(st, c).rows <==> c.table in SYNCED_TABLES && c.table != "preferences"
  {
  }
}
