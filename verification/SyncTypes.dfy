/** Values exchanged by the peer-to-peer sync engine: changes, row stamps, messages,
    and the byte-wise order on device ids that breaks timestamp ties. */
module SyncTypes {

  type TableName = string
  type RowId = string
  type ChangeId = string
  type DeviceId = string

  datatype Option<+T> = None | Some(value: T)

  datatype SyncOp = Insert | Update | Delete | Upsert

  /** A row of a synced table: its payload columns, opaque here, and its two stamp columns. */
  datatype Row = Row(cols: string, ts: int, dev: DeviceId)

  /** The JSON value carried by a change: not an object, an object with no keys, one with the key
      column alone, or a full record. */
  datatype Payload = NotObject | EmptyObject | KeyOnly | Record(full: Row)

  datatype Key = Key(table: TableName, row: RowId)

  datatype Tombstone = Tombstone(ts: int, dev: DeviceId)

  datatype Change = Change(id: ChangeId, table: TableName, row: RowId, op: SyncOp,
                           data: Payload, ts: int, dev: DeviceId)
  {
    function RowKey(): Key { Key(table, row) }
  }

  /** Primary key of the cursor table: a device and a table name. */
  datatype CursorKey = CursorKey(dev: DeviceId, table: TableName)

  // ---- Order on device ids -------------------------------------------------------

  /** Lexicographic `a < b`, the order of Rust strings (code points and UTF-8 bytes agree). */
  predicate Less(a: DeviceId, b: DeviceId) {
    b != "" && (a == "" || a[0] < b[0] || (a[0] == b[0] && Less(a[1..], b[1..])))
  }

  /** At the first difference `a` has ended, or has the smaller character. */
  predicate DiffersAt(a: DeviceId, b: DeviceId, i: nat) {
    i < |b| && i <= |a| && a[..i] == b[..i] && (i == |a| || a[i] < b[i])
  }

  lemma SameStart(a: DeviceId, b: DeviceId, i: nat)
    requires 0 < i < |b| && DiffersAt(a, b, i)
    ensures a != "" && a[0] == b[0]
  {
    assert a[..i][0] == b[..i][0];
  }

  /** The order is lexicographic: `a` is before `b` exactly when it is so at their first difference. */
  lemma {:induction false} LessIsLexicographic(a: DeviceId, b: DeviceId)
    ensures Less(a, b) <==> exists i :: 0 <= i < |b| && DiffersAt(a, b, i)
  {
    if b == "" {
    } else if a == "" || a[0] != b[0] {
      assert Less(a, b) ==> DiffersAt(a, b, 0);
      forall i | 0 <= i < |b|
        ensures DiffersAt(a, b, i) ==> i == 0
      {
        if i > 0 && DiffersAt(a, b, i) { SameStart(a, b, i); }
      }
    } else {
      LessIsLexicographic(a[1..], b[1..]);
      forall i | 0 <= i < |b| - 1
        ensures DiffersAt(a[1..], b[1..], i) <==> DiffersAt(a, b, i + 1)
      {
        if i < |a| {
          assert a[..i + 1] == [a[0]] + a[1..][..i] && b[..i + 1] == [b[0]] + b[1..][..i];
          assert a[..i + 1] == b[..i + 1] ==> a[..i + 1][1..] == b[..i + 1][1..];
        }
      }
      assert !DiffersAt(a, b, 0);
      if i :| 0 <= i < |b| && DiffersAt(a, b, i) { assert DiffersAt(a[1..], b[1..], i - 1); }
    }
  }

  lemma {:induction false} LessIrreflexive(a: DeviceId)
    ensures !Less(a, a)
  {
    if a != "" { LessIrreflexive(a[1..]); }
  }

  lemma {:induction false} LessTransitive(a: DeviceId, b: DeviceId, c: DeviceId)
    requires Less(a, b) && Less(b, c)
    ensures Less(a, c)
  {
    if a != "" && a[0] == b[0] == c[0] { LessTransitive(a[1..], b[1..], c[1..]); }
  }

  lemma {:induction false} LessTotal(a: DeviceId, b: DeviceId)
    ensures a == b || Less(a, b) || Less(b, a)
  {
    if a != "" && b != "" && a[0] == b[0] {
      LessTotal(a[1..], b[1..]);
      assert a == [a[0]] + a[1..] && b == [b[0]] + b[1..];
    }
  }

  // ---- Stamps ---------------------------------------------------------------------

  /** Stamp `(ts1, d1)` is at most `(ts2, d2)` in the documented last-writer-wins order. */
  predicate StampLe(ts1: int, d1: DeviceId, ts2: int, d2: DeviceId) {
    ts1 < ts2 || (ts1 == ts2 && !Less(d2, d1))
  }

  lemma StampLeTransitive(t1: int, d1: DeviceId, t2: int, d2: DeviceId, t3: int, d3: DeviceId)
    requires StampLe(t1, d1, t2, d2) && StampLe(t2, d2, t3, d3)
    ensures StampLe(t1, d1, t3, d3)
  {
    if t1 == t2 == t3 && Less(d3, d1) {
      LessTotal(d1, d2);
      if d1 == d2 {
      } else {
        LessTransitive(d3, d1, d2);
      }
    }
  }

  lemma StampLeAntisymmetric(t1: int, d1: DeviceId, t2: int, d2: DeviceId)
    requires StampLe(t1, d1, t2, d2) && StampLe(t2, d2, t1, d1)
    ensures t1 == t2 && d1 == d2
  {
    LessTotal(d1, d2);
  }

  // ---- Chunking --------------------------------------------------------------------

  /** `slice::chunks(n)`: consecutive pieces of `n` elements, the last one possibly shorter. */
  function Chunks<T>(s: seq<T>, n: nat): (cs: seq<seq<T>>)
    requires n > 0
    decreases |s|
  {
    if |s| == 0 then []
    else if |s| <= n then [s]
    else [s[..n]] + Chunks(s[n..], n)
  }

  function Flatten<T>(ss: seq<seq<T>>): (s: seq<T>) {
    if ss == [] then [] else ss[0] + Flatten(ss[1..])
  }

  /** Chunk `i` holds exactly the elements at positions `i*n .. min((i+1)*n, |s|)`. */
  lemma {:induction false} ChunkAt<T>(s: seq<T>, n: nat, i: nat)
    requires n > 0 && i < |Chunks(s, n)|
    ensures 0 <= i * n < |s|
    ensures Chunks(s, n)[i] == s[i * n..if i * n + n <= |s| then i * n + n else |s|]
    decreases i
  {
    if i > 0 {
      assert |s| > n;
      ChunkAt(s[n..], n, i - 1);
      assert (i - 1) * n == i * n - n;
    }
  }

  lemma QuotientBetween(x: int, n: int, k: int)
    requires n > 0 && k * n <= x < k * n + n
    ensures x / n == k
  {
    var q := x / n;
    assert x == q * n + x % n;
    assert q + 1 <= k ==> (q + 1) * n <= k * n;
    assert k + 1 <= q ==> (k + 1) * n <= q * n;
  }

  lemma {:induction false} ChunkCountBounds<T>(s: seq<T>, n: nat)
    requires n > 0
    ensures |Chunks(s, n)| * n - n < |s| <= |Chunks(s, n)| * n
    decreases |s|
  {
    if |s| > n {
      ChunkCountBounds(s[n..], n);
      var c := |Chunks(s[n..], n)|;
      assert |Chunks(s, n)| * n == c * n + n;
    }
  }

  /** The number of chunks is the quotient rounded up, the `total_chunks` the source computes. */
  lemma ChunkCount<T>(s: seq<T>, n: nat)
    requires n > 0
    ensures |Chunks(s, n)| == (|s| + n - 1) / n
  {
    ChunkCountBounds(s, n);
    QuotientBetween(|s| + n - 1, n, |Chunks(s, n)|);
  }

  lemma {:induction false} ChunksFlatten<T>(s: seq<T>, n: nat)
    requires n > 0
    ensures Flatten(Chunks(s, n)) == s
    decreases |s|
  {
    if |s| > n {
      ChunksFlatten(s[n..], n);
      assert s == s[..n] + s[n..];
      assert Chunks(s, n)[1..] == Chunks(s[n..], n);
    } else if |s| > 0 {
      assert Chunks(s, n)[1..] == [];
      assert s + [] == s;
    }
  }

  /** Chunks hold 1 to `n` elements, all but the last one `n`. */
  lemma ChunkSizes<T>(s: seq<T>, n: nat, i: nat)
    requires n > 0 && i < |Chunks(s, n)|
    ensures 1 <= |Chunks(s, n)[i]| <= n && (i < |Chunks(s, n)| - 1 ==> |Chunks(s, n)[i]| == n)
  {
    ChunkAt(s, n, i);
    if i < |Chunks(s, n)| - 1 {
      ChunkAt(s, n, i + 1);
      assert (i + 1) * n == i * n + n;
    }
  }

  /** Position `j` lies in some chunk, no later than the chunk of any later position. */
  lemma {:induction false} PositionInChunk<T>(all: seq<T>, n: nat, j: nat) returns (i: nat)
    requires n > 0 && j < |all|
    ensures i < |Chunks(all, n)| && i * n <= j && all[j] in Chunks(all, n)[i]
    decreases |all|
  {
    if j < n {
      i := 0;
      assert |all| > n ==> all[..n][j] == all[j];
    } else {
      var i' := PositionInChunk(all[n..], n, j - n);
      i := i' + 1;
      assert i * n == i' * n + n;
    }
  }
}
