/** Creation of per-database keys: any number of threads run the unlocked read, the lock, the second
    read and the write in any interleaving, over a secret store that may fail. */
module KeyManager {
  import opened SyncTypes

  const ANONYMOUS_KEY_NAME := "dspatch_db_key"

  function StorageKey(usernameHash: Option<string>): string {
    match usernameHash
    case Some(hash) => ANONYMOUS_KEY_NAME + ":" + hash
    case None => ANONYMOUS_KEY_NAME
  }

  /** The names keys are stored under: the application's own name, and for a user that name, a colon and the
      hash. */
  lemma StorageKeyReads(usernameHash: Option<string>)
    ensures StorageKey(usernameHash)[..14] == "dspatch_db_key"
    ensures StorageKey(usernameHash)[14..] == if usernameHash.None? then "" else ":" + usernameHash.value
  {
    assert |ANONYMOUS_KEY_NAME| == 14;
  }

  /** Different users, and the anonymous user, never share a storage key. */
  lemma StorageKeyInjective(a: Option<string>, b: Option<string>)
    requires StorageKey(a) == StorageKey(b)
    ensures a == b
  {
    var n := |ANONYMOUS_KEY_NAME| + 1;
    if a.Some? && b.Some? {
      assert StorageKey(a)[n..] == a.value;
      assert StorageKey(b)[n..] == b.value;
    }
    assert a.Some? ==> |StorageKey(a)| >= n;
    assert b.Some? ==> |StorageKey(b)| >= n;
  }

  /** The sequential specification: one atomic lookup-or-create. */
  function GetOrCreate(store: map<string, string>, key: string, random: string): (map<string, string>, string) {
    if key in store then (store, store[key]) else (store[key := random], random)
  }

  /** A key is created once: a later lookup-or-create, whatever it would draw, returns the value of the first and
      leaves the store alone. */
  lemma SecondLookupSame(store: map<string, string>, key: string, random: string, other: string)
    ensures var (first, value) := GetOrCreate(store, key, random);
            && GetOrCreate(first, key, other) == (first, value)
            && (if key in store then first == store && value == store[key] else value == random)
            && forall k :: k in store ==> k in first && first[k] == store[k]
  {
  }

  // ---- Concurrent callers ---------------------------------------------------------------

  datatype Pc = Called | WantsLock | Locked | Absent | Done(value: string) | Failed

  datatype Thread = Thread(key: string, pc: Pc)

  /** `writes` is history: how often each key has been written. */
  datatype System = System(store: map<string, string>, holder: Option<nat>, threads: map<nat, Thread>,
                           writes: map<string, nat>)

  datatype Event =
    | Call(t: nat, key: string)
    | ReadUnlocked(t: nat)
    | Acquire(t: nat)
    | ReadLocked(t: nat)
    | WriteKey(t: nat, random: string)
    | StoreError(t: nat)

  function Move(s: System, t: nat, pc: Pc): System
    requires t in s.threads
  {
    s.(threads := s.threads[t := s.threads[t].(pc := pc)])
  }

  function Writes(s: System, key: string): nat { if key in s.writes then s.writes[key] else 0 }

  ghost predicate Step(s: System, ev: Event, s': System) {
    match ev
    case Call(t, key) =>
      t !in s.threads && s' == s.(threads := s.threads[t := Thread(key, Called)])
    case ReadUnlocked(t) =>
      && t in s.threads && s.threads[t].pc.Called?
      && s' == Move(s, t, if s.threads[t].key in s.store then Done(s.store[s.threads[t].key]) else WantsLock)
    case Acquire(t) =>
      t in s.threads && s.threads[t].pc.WantsLock? && s.holder == None && s' == Move(s, t, Locked).(holder := Some(t))
    case ReadLocked(t) =>
      && t in s.threads && s.threads[t].pc.Locked?
      && s' == if s.threads[t].key in s.store then Move(s, t, Done(s.store[s.threads[t].key])).(holder := None)
               else Move(s, t, Absent)
    case WriteKey(t, random) =>
      && t in s.threads && s.threads[t].pc.Absent?
      && var key := s.threads[t].key;
      s' == Move(s, t, Done(random)).(holder := None, store := s.store[key := random],
                                     writes := s.writes[key := Writes(s, key) + 1])
    case StoreError(t) =>  // a failed read or write leaves the store alone and drops the guard
      && t in s.threads && (s.threads[t].pc.Called? || s.threads[t].pc.Locked? || s.threads[t].pc.Absent?)
      && s' == Move(s, t, Failed).(holder := if s.threads[t].pc.Called? then s.holder else None)
  }

  predicate HoldsLock(th: Thread) { th.pc.Locked? || th.pc.Absent? }

  /** Keys present at the start are never written, the others at most once, by the write that stored them. */
  predicate WrittenOnce(init: map<string, string>, s: System) {
    && (forall k :: k in init ==> k in s.store && s.store[k] == init[k] && Writes(s, k) == 0)
    && (forall k :: k in s.store && k !in init ==> Writes(s, k) == 1)
    && (forall k :: k in s.writes ==> k in s.store)
  }

  /** The lock excludes, and a thread that found its key absent under the lock is still right. */
  predicate LockOk(s: System) {
    forall t :: t in s.threads && HoldsLock(s.threads[t]) ==>
      s.holder == Some(t) && (s.threads[t].pc.Absent? ==> s.threads[t].key !in s.store)
  }

  /** Whoever is done has the stored value. */
  predicate ReturnsOk(s: System) {
    forall t :: t in s.threads && s.threads[t].pc.Done? ==>
      s.threads[t].key in s.store && s.store[s.threads[t].key] == s.threads[t].pc.value
  }

  predicate Inv(init: map<string, string>, s: System) {
    WrittenOnce(init, s) && LockOk(s) && ReturnsOk(s)
  }

  lemma StoreGrows(s: System, ev: Event, s': System)
    requires LockOk(s) && Step(s, ev, s')
    ensures forall k :: k in s.store ==> k in s'.store && s'.store[k] == s.store[k]
  {
  }

  lemma LockStep(s: System, ev: Event, s': System)
    requires LockOk(s) && Step(s, ev, s')
    ensures LockOk(s')
  {
    forall t | t in s'.threads && HoldsLock(s'.threads[t])
      ensures s'.holder == Some(t) && (s'.threads[t].pc.Absent? ==> s'.threads[t].key !in s'.store)
    {
      if !ev.Call? && ev.t != t { assert s'.threads[t] == s.threads[t]; }
    }
  }

  lemma WrittenStep(init: map<string, string>, s: System, ev: Event, s': System)
    requires WrittenOnce(init, s) && LockOk(s) && Step(s, ev, s')
    ensures WrittenOnce(init, s')
  {
    if ev.WriteKey? {
      assert s.threads[ev.t].key !in s.store;
    }
  }

  lemma ReturnStep(s: System, ev: Event, s': System)
    requires ReturnsOk(s) && LockOk(s) && Step(s, ev, s')
    ensures ReturnsOk(s')
  {
    StoreGrows(s, ev, s');
  }

  lemma StepKeepsInv(init: map<string, string>, s: System, ev: Event, s': System)
    requires Inv(init, s) && Step(s, ev, s')
    ensures Inv(init, s')
  {
    LockStep(s, ev, s');
    WrittenStep(init, s, ev, s');
    ReturnStep(s, ev, s');
  }

  ghost predicate IsRun(ss: seq<System>, evs: seq<Event>) {
    && |ss| == |evs| + 1
    && ss[0].holder == None && ss[0].threads == map[] && ss[0].writes == map[]
    && forall i :: 0 <= i < |evs| ==> Step(ss[i], evs[i], ss[i + 1])
  }

  lemma {:induction false} RunKeepsInv(ss: seq<System>, evs: seq<Event>, i: nat)
    requires IsRun(ss, evs) && i <= |evs|
    ensures Inv(ss[0].store, ss[i])
  {
    if i > 0 {
      RunKeepsInv(ss, evs, i - 1);
      StepKeepsInv(ss[0].store, ss[i - 1], evs[i - 1], ss[i]);
    }
  }

  /** A stored value never changes again. */
  lemma {:induction false} StoredValueIsFinal(ss: seq<System>, evs: seq<Event>, i: nat, j: nat, key: string)
    requires IsRun(ss, evs) && i <= j <= |evs| && key in ss[i].store
    ensures key in ss[j].store && ss[j].store[key] == ss[i].store[key]
    decreases j
  {
    if i < j {
      StoredValueIsFinal(ss, evs, i, j - 1, key);
      RunKeepsInv(ss, evs, j - 1);
      StoreGrows(ss[j - 1], evs[j - 1], ss[j]);
    }
  }

  /** A key is written at most once, never if it existed, and any two calls for it that have returned,
      at any two points of the run, returned the same value. */
  lemma CreatedOnceSeenByAll(ss: seq<System>, evs: seq<Event>, i: nat, j: nat, t: nat, u: nat, key: string)
    requires IsRun(ss, evs) && i <= j <= |evs|
    ensures Writes(ss[j], key) <= 1 && (key in ss[0].store ==> Writes(ss[j], key) == 0)
    ensures t in ss[i].threads && u in ss[j].threads && ss[i].threads[t].pc.Done? && ss[j].threads[u].pc.Done?
              && ss[i].threads[t].key == key == ss[j].threads[u].key
            ==> ss[i].threads[t].pc.value == ss[j].threads[u].pc.value
  {
    RunKeepsInv(ss, evs, i);
    RunKeepsInv(ss, evs, j);
    if key in ss[i].store { StoredValueIsFinal(ss, evs, i, j, key); }
  }

  /** Linearizability: each step that lets a call return is one atomic `GetOrCreate` on the store with
      the returned value, and every other step leaves the store alone. */
  lemma LinearizationPoint(ss: seq<System>, evs: seq<Event>, i: nat)
    requires IsRun(ss, evs) && i < |evs|
    ensures var s, s' := ss[i], ss[i + 1];
            if t :| t in s'.threads && s'.threads[t].pc.Done? && !(t in s.threads && s.threads[t].pc.Done?)
            then GetOrCreate(s.store, s'.threads[t].key, s'.threads[t].pc.value) == (s'.store, s'.threads[t].pc.value)
            else s'.store == s.store
  {
    RunKeepsInv(ss, evs, i);
    assert Step(ss[i], evs[i], ss[i + 1]);
    var s, s' := ss[i], ss[i + 1];
    forall t | t in s'.threads && s'.threads[t].pc.Done? && !(t in s.threads && s.threads[t].pc.Done?)
      ensures GetOrCreate(s.store, s'.threads[t].key, s'.threads[t].pc.value) == (s'.store, s'.threads[t].pc.value)
    {
    }
    if evs[i].WriteKey? {
      assert s'.threads[evs[i].t].pc.Done?;
    }
  }

  // ---- One caller ---------------------------------------------------------------------------

  /** The manager over an in-memory secret store, for a single caller. */
  class DatabaseKeyManager {
    var store: map<string, string>

    constructor ()
      ensures store == map[]
    {
      store := map[];
    }

    /** `random` stands for 32 random bytes in base64. */
    method GetOrCreateKey(usernameHash: Option<string>, random: string) returns (value: string)
      modifies this
      ensures (store, value) == GetOrCreate(old(store), StorageKey(usernameHash), random)
      ensures StorageKey(usernameHash) in old(store) ==> store == old(store) && value == store[StorageKey(usernameHash)]
      ensures StorageKey(usernameHash) !in old(store) ==>
                value == random && store == old(store)[StorageKey(usernameHash) := random]
    {
      var key := StorageKey(usernameHash);
      if key in store { return store[key]; }
      store := store[key := random];
      value := random;
    }
  }
}
