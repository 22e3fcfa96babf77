/** The streaming scan of a transaction: a merge of sorted buffered writes with a storage cursor. */
module ScanIterator {
  import opened Values
  import opened Indexes
  import opened Ordered
  import opened Cursors
  import opened TransactionReads

  /** What a merge still has to yield: storage rows not yet overridden, under the remaining writes. */
  function Merged(storage: Table, writes: Changes, passed: set<DbKey>): Table
  {
    Patch(storage - passed, writes)
  }

  lemma TakeWrite(storage: Table, writes: Changes, passed: set<DbKey>, k: DbKey)
    requires k in writes
    ensures Merged(storage, writes - {k}, passed + {k}) == Merged(storage, writes, passed) - {k}
    ensures writes[k].None? ==> k !in Merged(storage, writes, passed)
    ensures writes[k].Some? ==> Lookup(Merged(storage, writes, passed), k) == writes[k]
  {
    MapsEqual(Merged(storage, writes - {k}, passed + {k}), Merged(storage, writes, passed) - {k});
  }

  lemma TakeStorage(storage: Table, writes: Changes, passed: set<DbKey>, k: DbKey)
    requires k in storage && k !in writes
    ensures Merged(storage - {k}, writes, passed) == Merged(storage, writes, passed) - {k}
    ensures k in passed ==> k !in Merged(storage, writes, passed)
    ensures k !in passed ==> Lookup(Merged(storage, writes, passed), k) == Some(storage[k])
  {
    MapsEqual(Merged(storage - {k}, writes, passed), Merged(storage, writes, passed) - {k});
  }

  /** A key below everything that remains is the least key to yield. */
  lemma LeastOfMerge(storage: Table, writes: Changes, passed: set<DbKey>, k: DbKey)
    requires k in Merged(storage, writes, passed)
    requires forall x :: x in storage || x in writes ==> Leq(k, x)
    ensures IsLeast(k, Merged(storage, writes, passed).Keys)
  {
  }

  class Iterator {
    const writes: seq<(DbKey, Option<Row>)>
    const dedup: bool
    const trackReadKeys: bool
    var writeIdx: nat
    var storage: seq<(DbKey, Row)>
    var seen: set<DbKey>
    var published: set<DbKey>

    constructor (storage: seq<(DbKey, Row)>, writes: seq<(DbKey, Option<Row>)>, level: Isolation)
      requires Ascending(KeysOf(storage)) && Ascending(KeysOf(writes))
      ensures Valid() && Pending() == Patch(AsMap(storage), AsMap(writes))
      ensures trackReadKeys == (level == RepeatableRead) && this.storage == storage && published == {}
    {
      this.storage, this.writes := storage, writes;
      dedup := writes != [];
      trackReadKeys := level == RepeatableRead;
      writeIdx, seen, published := 0, {}, {};
      new;
      assert writes[..0] == [] && writes[0..] == writes;
    }

    ghost function Passed(): set<DbKey>
      reads this
      requires writeIdx <= |writes|
    {
      set i | 0 <= i < writeIdx :: writes[i].0
    }

    ghost predicate Valid()
      reads this
    {
      && writeIdx <= |writes| && (dedup <==> writes != [])
      && Ascending(KeysOf(writes)) && Ascending(KeysOf(storage))
      && (dedup ==> forall j :: 0 <= j < |storage| ==> (storage[j].0 in seen <==> storage[j].0 in Passed()))
      && (forall i :: writeIdx <= i < |writes| ==> writes[i].0 !in seen)
      && (trackReadKeys ==> seen <= published)
    }

    /** The rows still to come. */
    ghost function Pending(): Table
      reads this
      requires Valid()
    {
      Merged(AsMap(storage), AsMap(writes[writeIdx..]), Passed())
    }

    method PublishReadKey(k: DbKey)
      modifies this`published
      ensures published == old(published) + {k}
    {
      published := published + {k};
    }

    /** Chooses the smaller head; on equal keys the write. */
    method ChooseWrite() returns (write: bool)
      requires Valid() && (writeIdx < |writes| || storage != [])
      ensures write ==> writeIdx < |writes| && (storage != [] ==> Leq(writes[writeIdx].0, storage[0].0))
      ensures !write ==> storage != [] && (writeIdx < |writes| ==> Less(storage[0].0, writes[writeIdx].0))
    {
      if writeIdx < |writes| && storage != [] {
        LeqTotal(writes[writeIdx].0, storage[0].0);
        LeqRefl(writes[writeIdx].0);
        write := Leq(writes[writeIdx].0, storage[0].0);
      } else {
        write := writeIdx < |writes|;
      }
    }

    method StepWrite() returns (r: Option<(DbKey, Row)>)
      requires Valid() && writeIdx < |writes| && (storage != [] ==> Leq(writes[writeIdx].0, storage[0].0))
      modifies this
      ensures Valid() && writeIdx == old(writeIdx) + 1 && storage == old(storage) && old(published) <= published
      ensures r.None? ==> Pending() == old(Pending())
      ensures r.Some? ==> Yielded(old(Pending()), Pending(), r.value)
      ensures r.Some? && trackReadKeys ==> r.value.0 in published
    {
      hide AsMap, Merged;
      ghost var s, w, p := AsMap(storage), AsMap(writes[writeIdx..]), Passed();
      var (k, v) := writes[writeIdx];
      SuffixAscending(writes, writeIdx);
      AsMapHead(writes[writeIdx..]);
      TakeWrite(s, w, p, k);
      HeadBelow(storage, writes[writeIdx..], k);
      writeIdx := writeIdx + 1;
      assert writes[old(writeIdx)..][1..] == writes[writeIdx..];
      assert Passed() == p + {k};
      seen := seen + {k};
      KeysDiffer(writes, old(writeIdx));
      if trackReadKeys {
        PublishReadKey(k);
      }
      if v.Some? {
        LeastOfMerge(s, w, p, k);
        return Some((k, v.value));
      }
      r := None;
    }

    method StepStorage() returns (r: Option<(DbKey, Row)>)
      requires Valid() && storage != [] && (writeIdx < |writes| ==> Less(storage[0].0, writes[writeIdx].0))
      modifies this
      ensures Valid() && writeIdx == old(writeIdx) && storage == old(storage)[1..] && old(published) <= published
      ensures r.None? ==> Pending() == old(Pending())
      ensures r.Some? ==> Yielded(old(Pending()), Pending(), r.value)
      ensures trackReadKeys ==> old(storage)[0].0 in published
      ensures r.Some? ==> r.value.0 == old(storage)[0].0
    {
      hide AsMap, Merged;
      ghost var s, w, p := AsMap(storage), AsMap(writes[writeIdx..]), Passed();
      var (k, row) := storage[0];
      SuffixAscending(writes, writeIdx);
      AsMapHead(storage);
      HeadBelow(storage, writes[writeIdx..], k);
      TakeStorage(s, w, p, k);
      KeysDiffer(storage, 0);
      KeysAfter(writes, writeIdx, k);
      storage := storage[1..];
      if !dedup || k !in seen {
        if dedup {
          seen := seen + {k};
        }
        if trackReadKeys {
          PublishReadKey(k);
        }
        LeastOfMerge(s, w, p, k);
        return Some((k, row));
      }
      r := None;
    }

    /** Yields the row with the least pending key, or None when nothing is pending. */
    method Next() returns (r: Option<(DbKey, Row)>)
      requires Valid()
      modifies this
      ensures Valid() && old(published) <= published
      ensures r.None? ==> old(Pending()) == map[] && storage == []
      ensures r.Some? ==> Yielded(old(Pending()), Pending(), r.value)
      ensures r.Some? && trackReadKeys ==> r.value.0 in published
      ensures trackReadKeys ==> forall k :: k in old(KeysOf(storage)) ==> k in KeysOf(storage) || k in published
      ensures |storage| + |writes| - writeIdx < old(|storage| + |writes| - writeIdx) || r.None?
    {
      hide Valid, Passed, Merged, AsMap, Yielded;
      r := None;
      while writeIdx < |writes| || storage != []
        invariant r.None? && Valid() && Pending() == old(Pending()) && old(published) <= published
        invariant |storage| + |writes| - writeIdx <= old(|storage| + |writes| - writeIdx)
        invariant trackReadKeys ==> forall k :: k in old(KeysOf(storage)) ==> k in KeysOf(storage) || k in published
        decreases |storage| + |writes| - writeIdx
      {
        IndexBound();
        var write := ChooseWrite();
        if write {
          r := StepWrite();
        } else {
          KeysTail(storage);
          r := StepStorage();
        }
        if r.Some? {
          return;
        }
      }
      Exhausted();
    }

    lemma IndexBound()
      requires Valid()
      ensures writeIdx <= |writes|
    {
    }

    lemma Exhausted()
      requires Valid() && writeIdx >= |writes| && storage == []
      ensures Pending() == map[]
    {
    }
  }

  ghost predicate Yielded(before: Table, after: Table, r: (DbKey, Row))
  {
    IsLeast(r.0, before.Keys) && before[r.0] == r.1 && after == before - {r.0}
  }

  lemma KeysDiffer<V>(s: seq<(DbKey, V)>, n: nat)
    requires Ascending(KeysOf(s)) && n < |s|
    ensures forall i :: n < i < |s| ==> s[i].0 != s[n].0
  {
    forall i | n < i < |s| ensures s[i].0 != s[n].0 {
      assert Less(KeysOf(s)[n], KeysOf(s)[i]);
    }
  }

  lemma KeysAfter<V>(s: seq<(DbKey, V)>, n: nat, k: DbKey)
    requires Ascending(KeysOf(s)) && n <= |s| && (n < |s| ==> Less(k, s[n].0))
    ensures forall i :: n <= i < |s| ==> s[i].0 != k
  {
    forall i | n <= i < |s| ensures s[i].0 != k {
      if n < i {
        assert Less(KeysOf(s)[n], KeysOf(s)[i]);
        LessTrans(k, s[n].0, s[i].0);
      }
    }
  }

  /** A key at or below both heads is at or below every remaining key, and a key below the writes is none of them. */
  lemma HeadBelow(storage: seq<(DbKey, Row)>, writes: seq<(DbKey, Option<Row>)>, k: DbKey)
    requires Ascending(KeysOf(storage)) && Ascending(KeysOf(writes))
    requires (storage != [] ==> Leq(k, storage[0].0)) && (writes != [] ==> Leq(k, writes[0].0))
    ensures forall x :: x in AsMap(storage) || x in AsMap(writes) ==> Leq(k, x)
    ensures (writes != [] ==> Less(k, writes[0].0)) ==> k !in AsMap(writes)
  {
    if storage != [] { AsMapHead(storage); }
    if writes != [] { AsMapHead(writes); LeqTotal(k, writes[0].0); }
    forall x | x in AsMap(storage) || x in AsMap(writes) ensures Leq(k, x) {
      if x in AsMap(storage) {
        LeqTrans(k, storage[0].0, x);
      } else {
        LeqTrans(k, writes[0].0, x);
      }
    }
  }

  /** Draining yields every pending row once, in key order. */
  method Drain(it: Iterator) returns (rows: seq<(DbKey, Row)>)
    requires it.Valid()
    modifies it
    ensures it.Valid() && rows == Listing(old(it.Pending()))
    ensures it.trackReadKeys ==> forall k :: k in old(KeysOf(it.storage)) || k in KeysOf(rows) ==> k in it.published
  {
    hide Listing, Merged, AsMap;
    rows := [];
    ghost var all := it.Pending();
    while true
      invariant it.Valid() && Listing(all) == rows + Listing(it.Pending())
      invariant it.trackReadKeys ==> forall k :: k in KeysOf(rows) ==> k in it.published
      invariant it.trackReadKeys ==> forall k :: k in old(KeysOf(it.storage)) ==> k in KeysOf(it.storage) || k in it.published
      decreases |it.storage| + |it.writes| - it.writeIdx
    {
      ghost var before := it.Pending();
      var r := it.Next();
      if r.None? {
        EmptyListing<Row>();
        return;
      }
      ListingHead(before, r.value.0);
      assert KeysOf(rows + [r.value]) == KeysOf(rows) + [r.value.0];
      rows := rows + [r.value];
    }
  }

  /**
   The streaming scan gives the same rows in the same order as the scan that merges through a
   sorted map, and every key it yields or reads from storage is recorded: by the range under
   snapshot isolation, in the read set under repeatable read.
   */
  method StreamScan(tx: Transaction, table: string, stored: Table, lo: DbKey, hi: DbKey)
    returns (rows: seq<(DbKey, Row)>)
    modifies tx
    ensures rows == Listing(Matching(Within(old(tx.View(table, stored)), lo, hi), _ => true))
    ensures tx.buffer == old(tx.buffer)
    ensures tx.level == SnapshotIsolation ==>
      (lo, hi) in tx.RangesOf(table) && forall k :: k in KeysOf(rows) ==> InRange(k, lo, hi)
    ensures tx.level == RepeatableRead ==>
      Within(stored, lo, hi).Keys <= tx.ReadsOf(table) && forall k :: k in KeysOf(rows) ==> k in tx.ReadsOf(table)
  {
    tx.TrackRange(table, lo, hi);
    var writes := FilteredScan(tx.Buffered(table), lo, hi);
    var entries := FilteredScan(stored, lo, hi);
    ListingAsMap(Within(stored, lo, hi), entries);
    ListingAsMap(Within(tx.Buffered(table), lo, hi), writes);
    var it := new Iterator(entries, writes, tx.level);
    rows := Drain(it);
    if it.trackReadKeys {
      tx.TrackReads(table, it.published);
    }
    OverlayWithin(stored, tx.Buffered(table), lo, hi);
    RowsWithin(old(tx.View(table, stored)), lo, hi, rows);
    KeysListed(Within(stored, lo, hi));
  }

  lemma OverlayWithin(stored: Table, buf: Changes, lo: DbKey, hi: DbKey)
    ensures Patch(Within(stored, lo, hi), Within(buf, lo, hi)) == Within(Patch(stored, buf), lo, hi)
    ensures Matching(Within(Patch(stored, buf), lo, hi), _ => true) == Within(Patch(stored, buf), lo, hi)
  {
    var a, b := Patch(Within(stored, lo, hi), Within(buf, lo, hi)), Within(Patch(stored, buf), lo, hi);
    forall k ensures Lookup(a, k) == Lookup(b, k) {
      WithinAt(stored, lo, hi, k);
      WithinAt(buf, lo, hi, k);
      WithinAt(Patch(stored, buf), lo, hi, k);
    }
    MatchingAll(b);
    hide *;
    MapsEqual(a, b);
  }

  lemma WithinAt<V>(m: map<DbKey, V>, lo: DbKey, hi: DbKey, k: DbKey)
    ensures Lookup(Within(m, lo, hi), k) == if InRange(k, lo, hi) then Lookup(m, k) else None
  {
  }

  lemma MatchingAll(m: Table)
    ensures Matching(m, _ => true) == m
  {
  }

  lemma RowsWithin(m: Table, lo: DbKey, hi: DbKey, rows: seq<(DbKey, Row)>)
    requires rows == Listing(Within(m, lo, hi))
    ensures forall k :: k in KeysOf(rows) ==> InRange(k, lo, hi)
  {
    ListingFacts(Within(m, lo, hi));
    forall k | k in KeysOf(rows) ensures InRange(k, lo, hi) {
      var i :| 0 <= i < |rows| && KeysOf(rows)[i] == k;
      assert rows[i] in rows;
    }
  }

  lemma KeysListed<V>(m: map<DbKey, V>)
    ensures forall k :: k in m ==> k in KeysOf(Listing(m))
  {
    assert KeysOf(Listing(m)) == Sorted(m.Keys);
  }
}
