/** Creating an index on a table that already has rows. */
module Backfill {
  import opened Values
  import opened Indexes
  import opened Ordered
  import opened TableWrites

  /** A value that may be in a B-tree column but cannot be a key. */
  predicate Unindexable(v: DbValue)
  {
    v.Float? || v.Bytes?
  }

  predicate Refused(def: IndexDef, row: Row)
  {
    def.BTree? && exists i :: 0 <= i < |def.columns| && Unindexable(ValueAt(row, def.columns[i]))
  }

  /** The keys of the non-null index columns; None when one of them cannot be a key. */
  method IndexKeyParts(columns: seq<nat>, row: Row) returns (ks: Option<seq<DbKey>>)
    ensures ks.None? <==> Refused(BTree(columns), row)
    ensures ks.Some? ==> ks.value == KeyParts(columns, row)
  {
    var parts := [];
    for n := 0 to |columns|
      invariant parts == KeyParts(columns[..n], row)
      invariant forall i :: 0 <= i < n ==> !Unindexable(ValueAt(row, columns[i]))
    {
      assert columns[..n + 1][..n] == columns[..n];
      var v := ValueAt(row, columns[n]);
      if v != Null {
        var k := ValueToKey(v);
        if k.None? {
          return None;
        }
        parts := parts + [k.value];
      }
    }
    assert columns[..|columns|] == columns;
    ks := Some(parts);
  }

  /** The index entries of one existing row; None when the row cannot be indexed. */
  method BackfillRow(def: IndexDef, pk: DbKey, row: Row) returns (batch: Option<seq<Mutation>>)
    ensures batch.None? <==> Refused(def, row)
    ensures batch.Some? ==> Effect(batch.value) == EntryDelta(def, pk, Some(row), None)
  {
    match def
    case BTree(columns) =>
      var ks := IndexKeyParts(columns, row);
      if ks.None? {
        return None;
      }
      if |ks.value| == |columns| {
        var put := Put(KComposite(ks.value + [pk]), Unit);
        EffectPush([], put);
        assert [] + [put] == [put];
        batch := Some([put]);
      } else {
        batch := Some([]);
      }
    case FullText(_, _) =>
      var puts := PutEntries(def, pk, row);
      batch := Some(puts);
  }

  /** Rows seen as insertions. */
  function AsInserts(rows: seq<(DbKey, Row)>): Changes
  {
    if rows == [] then map[]
    else
      var n := |rows| - 1;
      AsInserts(rows[..n])[rows[n].0 := Some(rows[n].1)]
  }

  lemma {:induction false} AsInsertsKeys(rows: seq<(DbKey, Row)>)
    ensures forall k :: k in AsInserts(rows) <==> k in KeysOf(rows)
  {
    if rows != [] {
      var n := |rows| - 1;
      AsInsertsKeys(rows[..n]);
      assert KeysOf(rows) == KeysOf(rows[..n]) + [rows[n].0];
    }
  }

  lemma {:induction false} AsInsertsAt(rows: seq<(DbKey, Row)>, i: nat)
    requires Ascending(KeysOf(rows)) && i < |rows|
    ensures Lookup(AsInserts(rows), rows[i].0) == Some(Some(rows[i].1))
  {
    var n := |rows| - 1;
    if i < n {
      assert KeysOf(rows[..n]) == KeysOf(rows)[..n];
      AsInsertsAt(rows[..n], i);
      assert Less(KeysOf(rows)[i], KeysOf(rows)[n]);
    }
  }

  lemma RowAdded(def: IndexDef, rows: seq<(DbKey, Row)>, n: nat, out: seq<Mutation>, more: seq<Mutation>)
    requires Ascending(KeysOf(rows)) && n < |rows|
    requires Effect(out) == IndexDelta(def, AsInserts(rows[..n]), map[])
    requires Effect(more) == EntryDelta(def, rows[n].0, Some(rows[n].1), None)
    ensures Effect(out + more) == IndexDelta(def, AsInserts(rows[..n + 1]), map[])
  {
    var none: Table := map[];
    assert Lookup(none, rows[n].0) == None;
    hide *;
    EffectAppend(out, more);
    FreshInsert(rows, n);
    IndexDeltaPush(def, AsInserts(rows[..n]), none, rows[n].0, Some(rows[n].1));
  }

  /** Collects the entries of rows in key order; None when some row cannot be indexed. */
  method BackfillRows(def: IndexDef, rows: seq<(DbKey, Row)>) returns (batch: Option<seq<Mutation>>)
    requires Ascending(KeysOf(rows))
    ensures batch.None? <==> exists i :: 0 <= i < |rows| && Refused(def, rows[i].1)
    ensures batch.Some? ==> Effect(batch.value) == IndexDelta(def, AsInserts(rows), map[])
  {
    hide *;
    var out := [];
    EmptyEffect(def);
    assert rows[..0] == [];
    for n := 0 to |rows|
      invariant Effect(out) == IndexDelta(def, AsInserts(rows[..n]), map[])
      invariant forall i :: 0 <= i < n ==> !Refused(def, rows[i].1)
    {
      var more := BackfillRow(def, rows[n].0, rows[n].1);
      if more.None? {
        return None;
      }
      RowAdded(def, rows, n, out, more.value);
      out := out + more.value;
    }
    assert rows[..|rows|] == rows;
    batch := Some(out);
  }

  /**
   Fills a new index from the rows within the primary key bounds. It fails exactly when a present
   value has no key, and otherwise leaves precisely the index of the scanned rows.
   */
  method CreateIndex(def: IndexDef, rows: Table, lo: DbKey, hi: DbKey) returns (engine: Option<Engine>)
    ensures engine.None? <==> exists pk :: pk in Within(rows, lo, hi) && Refused(def, Within(rows, lo, hi)[pk])
    ensures engine.Some? ==> engine.value == Image(def, Within(rows, lo, hi))
  {
    hide IndexDelta, Image, Effect, Refused, AsInserts, Listing, Within, Patch, Ascending, KeysOf;
    var scanned := FilteredScan(rows, lo, hi);
    ListingFacts(Within(rows, lo, hi));
    var batch := BackfillRows(def, scanned);
    if batch.None? {
      return None;
    }
    engine := Some(Patch(map[], Effect(batch.value)));
    InsertsBuild(def, Within(rows, lo, hi), scanned);
    forall pk | pk in Within(rows, lo, hi) ensures !Refused(def, Within(rows, lo, hi)[pk]) {
      assert (pk, Within(rows, lo, hi)[pk]) in scanned;
      var i :| 0 <= i < |scanned| && scanned[i] == (pk, Within(rows, lo, hi)[pk]);
    }
  }

  lemma EmptyEffect(def: IndexDef)
    ensures Effect([]) == IndexDelta(def, AsInserts([]), map[])
  {
  }

  lemma FreshInsert(rows: seq<(DbKey, Row)>, n: nat)
    requires Ascending(KeysOf(rows)) && n < |rows|
    ensures rows[n].0 !in AsInserts(rows[..n])
    ensures AsInserts(rows[..n + 1]) == AsInserts(rows[..n])[rows[n].0 := Some(rows[n].1)]
  {
    AsInsertsKeys(rows[..n]);
    assert rows[..n + 1][..n] == rows[..n];
    assert KeysOf(rows[..n]) == KeysOf(rows)[..n];
    forall i | 0 <= i < n ensures KeysOf(rows)[i] != rows[n].0 {
      assert Less(KeysOf(rows)[i], KeysOf(rows)[n]);
    }
  }

  lemma InsertsBuild(def: IndexDef, m: Table, rows: seq<(DbKey, Row)>)
    requires rows == Listing(m)
    ensures Patch(map[], IndexDelta(def, AsInserts(rows), map[])) == Image(def, m)
  {
    hide Image, IndexDelta, Listing, AsInserts;
    var none: Table := map[];
    var ch := AsInserts(rows);
    InsertsAll(m, rows);
    EmptyImage(def);
    assert Preimages(none, ch) == none;
    IndexStep(def, none, ch, none);
  }

  lemma EmptyImage(def: IndexDef)
    ensures Image(def, map[]) == map[]
  {
  }

  lemma InsertsAll(m: Table, rows: seq<(DbKey, Row)>)
    requires rows == Listing(m)
    ensures Patch(map[], AsInserts(rows)) == m
  {
    hide Listing, AsInserts, Ascending, Patch;
    var ch := AsInserts(rows);
    ListingFacts(m);
    AsInsertsKeys(rows);
    forall k ensures Lookup(Patch(map[], ch), k) == Lookup(m, k) {
      if k in m {
        assert (k, m[k]) in rows;
        var i :| 0 <= i < |rows| && rows[i] == (k, m[k]);
        AsInsertsAt(rows, i);
      }
    }
    MapsEqual(Patch(map[], ch), m);
  }

  /** The new index is the index of the whole table exactly when no row outside the bounds has an entry. */
  lemma BackfillComplete(def: IndexDef, rows: Table, lo: DbKey, hi: DbKey)
    ensures Image(def, Within(rows, lo, hi)) == Image(def, rows) <==>
            forall pk :: pk in rows && !InRange(pk, lo, hi) ==> Entries(def, pk, rows[pk]) == map[]
  {
    hide Image, Entries, InRange, PkOf;
    var part := Within(rows, lo, hi);
    if Image(def, part) == Image(def, rows) {
      forall pk | pk in rows && !InRange(pk, lo, hi) ensures Entries(def, pk, rows[pk]) == map[] {
        forall x ensures x !in Entries(def, pk, rows[pk]) {
          EntryPk(def, pk, rows[pk]);
          assert Lookup(Image(def, part), x) == EntryAt(def, Lookup(part, PkOf(x)), x);
          assert Lookup(Image(def, rows), x) == EntryAt(def, Lookup(rows, PkOf(x)), x);
        }
      }
    }
    if forall pk :: pk in rows && !InRange(pk, lo, hi) ==> Entries(def, pk, rows[pk]) == map[] {
      forall x ensures Lookup(Image(def, part), x) == Lookup(Image(def, rows), x) {
        assert Lookup(Image(def, part), x) == EntryAt(def, Lookup(part, PkOf(x)), x);
        assert Lookup(Image(def, rows), x) == EntryAt(def, Lookup(rows, PkOf(x)), x);
      }
      MapsEqual(Image(def, part), Image(def, rows));
    }
  }
}
