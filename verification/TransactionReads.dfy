/** The read side of a transaction: its write buffer laid over storage, and the reads it records. */
module TransactionReads {
  import opened Values
  import opened Indexes
  import opened Ordered

  datatype Isolation = ReadUncommitted | ReadCommitted | RepeatableRead | SnapshotIsolation

  type Interval = (DbKey, DbKey)

  function At<V>(m: map<string, V>, name: string, none: V): V
  {
    if name in m then m[name] else none
  }

  class Transaction {
    const level: Isolation
    var buffer: map<string, Changes>
    var readSet: map<string, set<DbKey>>
    var scanRanges: map<string, seq<Interval>>

    constructor (level: Isolation)
      ensures this.level == level && buffer == map[] && readSet == map[] && scanRanges == map[]
    {
      this.level := level;
      buffer, readSet, scanRanges := map[], map[], map[];
    }

    function Buffered(table: string): Changes
      reads this
    {
      At(buffer, table, map[])
    }

    /** What the transaction sees of a table: storage with its own writes on top. */
    function View(table: string, stored: Table): Table
      reads this
    {
      Patch(stored, Buffered(table))
    }

    function ReadsOf(table: string): set<DbKey>
      reads this
    {
      At(readSet, table, {})
    }

    function RangesOf(space: string): seq<Interval>
      reads this
    {
      At(scanRanges, space, [])
    }

    /** Puts a row into the buffer; whatever else is buffered stays. */
    method Put(table: string, k: DbKey, row: Row)
      modifies this`buffer
      ensures buffer == old(buffer)[table := old(Buffered(table))[k := Some(row)]]
      ensures forall t, x :: Lookup(Buffered(t), x) == if t == table && x == k then Some(Some(row)) else old(Lookup(Buffered(t), x))
    {
      buffer := buffer[table := Buffered(table)[k := Some(row)]];
    }

    /** Puts a tombstone into the buffer. */
    method Delete(table: string, k: DbKey)
      modifies this`buffer
      ensures buffer == old(buffer)[table := old(Buffered(table))[k := None]]
      ensures forall t, x :: Lookup(Buffered(t), x) == if t == table && x == k then Some(None) else old(Lookup(Buffered(t), x))
    {
      buffer := buffer[table := Buffered(table)[k := None]];
    }

    method Rollback()
      modifies this`buffer
      ensures buffer == map[] && forall t :: Buffered(t) == map[]
    {
      buffer := map[];
    }

    method TrackReads(table: string, keys: set<DbKey>)
      modifies this`readSet
      ensures readSet == if level == SnapshotIsolation || level == RepeatableRead then old(readSet)[table := old(ReadsOf(table)) + keys] else old(readSet)
    {
      if level == SnapshotIsolation || level == RepeatableRead {
        readSet := readSet[table := ReadsOf(table) + keys];
      }
    }

    method TrackRange(space: string, lo: DbKey, hi: DbKey)
      modifies this`scanRanges
      ensures scanRanges == if level == SnapshotIsolation then old(scanRanges)[space := old(RangesOf(space)) + [(lo, hi)]] else old(scanRanges)
    {
      if level == SnapshotIsolation {
        scanRanges := scanRanges[space := RangesOf(space) + [(lo, hi)]];
      }
    }

    /** Point reads: the buffer first, then storage. Every key that goes to storage is recorded. */
    method MultiGet(table: string, stored: Table, keys: seq<DbKey>) returns (rows: seq<Option<Row>>)
      modifies this`readSet
      ensures |rows| == |keys| && forall i :: 0 <= i < |keys| ==> rows[i] == Lookup(View(table, stored), keys[i])
      ensures level == SnapshotIsolation || level == RepeatableRead ==> forall k :: k in keys && k !in Buffered(table) ==> k in ReadsOf(table)
      ensures forall t :: old(ReadsOf(t)) <= ReadsOf(t)
    {
      rows := [];
      var toStorage: set<DbKey> := {};
      for n := 0 to |keys|
        invariant |rows| == n && forall i :: 0 <= i < n ==> rows[i] == Lookup(View(table, stored), keys[i])
        invariant forall i :: 0 <= i < n ==> keys[i] in Buffered(table) || keys[i] in toStorage
      {
        var k := keys[n];
        if k in Buffered(table) {
          rows := rows + [Buffered(table)[k]];
        } else {
          toStorage := toStorage + {k};
          rows := rows + [Lookup(stored, k)];
        }
      }
      if toStorage != {} {
        TrackReads(table, toStorage);
      }
    }

    /** A range scan that merges buffer and storage in a map sorted by key. */
    method RangeScan(table: string, stored: Table, lo: DbKey, hi: DbKey, filter: Row -> bool)
      returns (rows: seq<(DbKey, Row)>)
      modifies this`readSet, this`scanRanges
      ensures rows == Listing(Matching(Within(View(table, stored), lo, hi), filter))
      ensures level == SnapshotIsolation ==> (lo, hi) in RangesOf(table)
      ensures level == SnapshotIsolation || level == RepeatableRead ==> Within(stored, lo, hi).Keys <= ReadsOf(table)
    {
      TrackRange(table, lo, hi);
      var merged, seen := BufferedRows(Buffered(table), lo, hi);
      var entries := FilteredScan(stored, lo, hi);
      ListingFacts(Within(stored, lo, hi));
      TrackReads(table, Within(stored, lo, hi).Keys);
      ghost var start := merged;
      merged := AddUnseen(entries, merged, seen);
      MergedIsView(Buffered(table), stored, lo, hi, start, seen, merged);
      rows := ListMatching(merged, lo, hi, filter);
    }
  }

  /** The rows of a table that pass a filter. */
  function Matching(m: Table, filter: Row -> bool): Table
  {
    map k | k in m && filter(m[k]) :: m[k]
  }

  /** The buffered keys in range, and the rows among them. */
  method BufferedRows(buf: Changes, lo: DbKey, hi: DbKey) returns (merged: Table, seen: set<DbKey>)
    ensures forall k :: k in seen <==> k in buf && InRange(k, lo, hi)
    ensures forall k :: Lookup(merged, k) == if k in buf && InRange(k, lo, hi) then buf[k] else None
  {
    merged, seen := map[], {};
    var todo := buf.Keys;
    while todo != {}
      invariant todo <= buf.Keys
      invariant forall k :: k in seen <==> k in buf.Keys - todo && InRange(k, lo, hi)
      invariant forall k :: Lookup(merged, k) == if k in buf.Keys - todo && InRange(k, lo, hi) then buf[k] else None
      decreases todo
    {
      var k :| k in todo;
      if Leq(lo, k) && Leq(k, hi) {
        seen := seen + {k};
        if buf[k].Some? {
          merged := merged[k := buf[k].value];
        }
      }
      todo := todo - {k};
    }
  }

  /** Adds the storage rows that the buffer does not override. */
  method AddUnseen(entries: seq<(DbKey, Row)>, start: Table, seen: set<DbKey>) returns (merged: Table)
    requires Ascending(KeysOf(entries))
    ensures forall k :: k in seen ==> Lookup(merged, k) == Lookup(start, k)
    ensures forall k, v :: k !in seen && (k, v) in entries ==> Lookup(merged, k) == Some(v)
    ensures forall k :: k !in seen && k !in KeysOf(entries) ==> Lookup(merged, k) == Lookup(start, k)
  {
    merged := start;
    for n := 0 to |entries|
      invariant forall k :: k in seen ==> Lookup(merged, k) == Lookup(start, k)
      invariant forall i :: 0 <= i < n && entries[i].0 !in seen ==> Lookup(merged, entries[i].0) == Some(entries[i].1)
      invariant forall k :: k !in seen && k !in KeysOf(entries)[..n] ==> Lookup(merged, k) == Lookup(start, k)
    {
      var (k, row) := entries[n];
      forall i | 0 <= i < n ensures entries[i].0 != k {
        assert Less(KeysOf(entries)[i], KeysOf(entries)[n]);
      }
      assert KeysOf(entries)[..n + 1] == KeysOf(entries)[..n] + [k];
      if k !in seen {
        merged := merged[k := row];
      }
    }
  }

  /** Buffered rows in range, with the unseen storage rows added, are the rows of the patched table in range. */
  lemma MergedIsView(buf: Changes, stored: Table, lo: DbKey, hi: DbKey, start: Table, seen: set<DbKey>, merged: Table)
    requires forall k :: k in seen <==> k in buf && InRange(k, lo, hi)
    requires forall k :: Lookup(start, k) == if k in buf && InRange(k, lo, hi) then buf[k] else None
    requires forall k :: k in seen ==> Lookup(merged, k) == Lookup(start, k)
    requires forall k, v :: k !in seen && (k, v) in Listing(Within(stored, lo, hi)) ==> Lookup(merged, k) == Some(v)
    requires forall k :: k !in seen && k !in KeysOf(Listing(Within(stored, lo, hi))) ==> Lookup(merged, k) == Lookup(start, k)
    ensures merged == Within(Patch(stored, buf), lo, hi)
  {
    var view := Within(Patch(stored, buf), lo, hi);
    forall k ensures Lookup(merged, k) == Lookup(view, k) {
      hide Listing, InRange, Patch;
      UnseenListed(stored, lo, hi, k);
      MergedAt(buf, stored, lo, hi, Lookup(merged, k), k);
    }
    MapsEqual(merged, view);
  }

  lemma MergedAt(buf: Changes, stored: Table, lo: DbKey, hi: DbKey, row: Option<Row>, k: DbKey)
    requires k in buf && InRange(k, lo, hi) ==> row == buf[k]
    requires !(k in buf && InRange(k, lo, hi)) ==> row == Lookup(Within(stored, lo, hi), k)
    ensures row == Lookup(Within(Patch(stored, buf), lo, hi), k)
  {
  }

  lemma UnseenListed(stored: Table, lo: DbKey, hi: DbKey, k: DbKey)
    ensures k in Within(stored, lo, hi) ==> (k, stored[k]) in Listing(Within(stored, lo, hi))
    ensures k !in Within(stored, lo, hi) ==> k !in KeysOf(Listing(Within(stored, lo, hi)))
  {
    ListingFacts(Within(stored, lo, hi));
    if k in KeysOf(Listing(Within(stored, lo, hi))) {
      ListedKey(Within(stored, lo, hi), k);
    }
  }

  lemma ListedKey(m: Table, k: DbKey)
    requires k in KeysOf(Listing(m))
    ensures k in m
  {
    ListingFacts(m);
    var i :| 0 <= i < |KeysOf(Listing(m))| && KeysOf(Listing(m))[i] == k;
    assert Listing(m)[i] == (k, Listing(m)[i].1);
  }

  /** The matching rows of a sorted map, in key order. */
  method ListMatching(m: Table, lo: DbKey, hi: DbKey, filter: Row -> bool) returns (rows: seq<(DbKey, Row)>)
    requires forall k :: k in m ==> InRange(k, lo, hi)
    ensures rows == Listing(Matching(m, filter))
  {
    assert Within(Matching(m, filter), lo, hi) == Matching(m, filter);
    rows := FilteredScan(Matching(m, filter), lo, hi);
  }
}
