/** Index range scans and full-text scans under a transaction's write buffer. */
module IndexScans {
  import opened Values
  import opened Indexes
  import opened Ordered
  import opened TransactionReads

  predicate NoDuplicates(ks: seq<DbKey>)
  {
    forall i, j :: 0 <= i < j < |ks| ==> ks[i] != ks[j]
  }

  function Elements(ks: seq<DbKey>): set<DbKey>
  {
    set k | k in ks
  }

  /** The rows an index-driven scan returns: those the index points to, as the transaction sees
      them, and buffered rows that pass the row test. */
  ghost predicate Gathered(view: Table, buf: Changes, hits: set<DbKey>, want: Row -> bool, pk: DbKey, row: Row)
  {
    Lookup(view, pk) == Some(row) && (pk in hits || (pk in buf && want(row)))
  }

  ghost predicate IsGathering(view: Table, buf: Changes, hits: set<DbKey>, want: Row -> bool, rows: seq<(DbKey, Row)>)
  {
    NoDuplicates(KeysOf(rows)) && forall pk, row :: (pk, row) in rows <==> Gathered(view, buf, hits, want, pk, row)
  }

  /** The first n rows are those under the given keys, in ascending order. */
  ghost predicate LeadUpTo(pks: seq<DbKey>, rows: seq<(DbKey, Row)>, n: nat)
  {
    && n <= |rows| && Ascending(KeysOf(rows[..n]))
    && (forall i :: 0 <= i < n ==> rows[i].0 in pks) && (forall i :: n <= i < |rows| ==> rows[i].0 !in pks)
  }

  /** Fetches the hits through the transaction, then adds the unresolved buffered rows. */
  method Gather(tx: Transaction, table: string, stored: Table, pks: seq<DbKey>, want: Row -> bool)
    returns (rows: seq<(DbKey, Row)>)
    requires NoDuplicates(pks)
    modifies tx`readSet
    ensures IsGathering(tx.View(table, stored), tx.Buffered(table), Elements(pks), want, rows)
    ensures tx.level == SnapshotIsolation || tx.level == RepeatableRead ==> forall k :: k in pks && k !in tx.Buffered(table) ==> k in tx.ReadsOf(table)
    ensures Ascending(pks) ==> exists n: nat :: LeadUpTo(pks, rows, n)
  {
    var fetched := tx.MultiGet(table, stored, pks);
    var hits := FoundRows(tx.View(table, stored), pks, fetched);
    var extra := BufferedExtras(tx.Buffered(table), Elements(pks), want);
    rows := hits + extra;
    GatheringParts(tx.View(table, stored), tx.Buffered(table), pks, want, hits, extra);
    if Ascending(pks) {
      HitsLead(tx.View(table, stored), tx.Buffered(table), pks, want, hits, extra);
    }
  }

  lemma HitsLead(view: Table, buf: Changes, pks: seq<DbKey>, want: Row -> bool, hits: seq<(DbKey, Row)>,
      extra: seq<(DbKey, Row)>)
    requires AreFound(view, pks, hits) && AreExtras(buf, Elements(pks), want, extra) && Ascending(KeysOf(hits))
    ensures LeadUpTo(pks, hits + extra, |hits|)
  {
    hide Ascending;
    var rows := hits + extra;
    assert rows[..|hits|] == hits;
    forall i | 0 <= i < |hits| ensures rows[i].0 in pks {
      assert (hits[i].0, hits[i].1) in hits;
    }
    forall i | |hits| <= i < |rows| ensures rows[i].0 !in pks {
      var r := extra[i - |hits|];
      assert (r.0, r.1) in extra;
    }
  }

  ghost predicate AreFound(view: Table, pks: seq<DbKey>, rows: seq<(DbKey, Row)>)
  {
    NoDuplicates(KeysOf(rows)) && forall pk, row :: (pk, row) in rows <==> pk in pks && Lookup(view, pk) == Some(row)
  }

  ghost predicate AreExtras(buf: Changes, resolved: set<DbKey>, want: Row -> bool, rows: seq<(DbKey, Row)>)
  {
    NoDuplicates(KeysOf(rows)) &&
    forall pk, row :: (pk, row) in rows <==> pk in buf && pk !in resolved && buf[pk] == Some(row) && want(row)
  }

  method FoundRows(view: Table, pks: seq<DbKey>, fetched: seq<Option<Row>>) returns (rows: seq<(DbKey, Row)>)
    requires NoDuplicates(pks) && |fetched| == |pks|
    requires forall i :: 0 <= i < |pks| ==> fetched[i] == Lookup(view, pks[i])
    ensures AreFound(view, pks, rows) && (Ascending(pks) ==> Ascending(KeysOf(rows)))
  {
    rows := [];
    for n := 0 to |pks|
      invariant NoDuplicates(KeysOf(rows)) && (Ascending(pks) ==> Ascending(KeysOf(rows)))
      invariant forall i :: 0 <= i < |rows| ==> rows[i].0 in pks[..n] && Lookup(view, rows[i].0) == Some(rows[i].1)
      invariant forall i :: 0 <= i < n && fetched[i].Some? ==> (pks[i], fetched[i].value) in rows
    {
      if fetched[n].Some? {
        assert pks[n] !in pks[..n];
        assert KeysOf(rows + [(pks[n], fetched[n].value)]) == KeysOf(rows) + [pks[n]];
        rows := rows + [(pks[n], fetched[n].value)];
      }
      assert pks[..n + 1] == pks[..n] + [pks[n]];
    }
    assert pks[..|pks|] == pks;
    forall pk, row ensures (pk, row) in rows <==> pk in pks && Lookup(view, pk) == Some(row) {
      if pk in pks && Lookup(view, pk) == Some(row) {
        var i :| 0 <= i < |pks| && pks[i] == pk;
      }
    }
  }

  method BufferedExtras(buf: Changes, resolved: set<DbKey>, want: Row -> bool) returns (rows: seq<(DbKey, Row)>)
    ensures AreExtras(buf, resolved, want, rows)
  {
    rows := [];
    var todo := buf.Keys;
    while todo != {}
      invariant todo <= buf.Keys
      invariant NoDuplicates(KeysOf(rows))
      invariant forall pk, row :: (pk, row) in rows <==> pk in buf.Keys - todo && pk !in resolved && buf[pk] == Some(row) && want(row)
      decreases todo
    {
      var pk :| pk in todo;
      if pk !in resolved && buf[pk].Some? && want(buf[pk].value) {
        forall i | 0 <= i < |rows| ensures KeysOf(rows)[i] != pk {
          assert (rows[i].0, rows[i].1) in rows;
        }
        assert KeysOf(rows + [(pk, buf[pk].value)]) == KeysOf(rows) + [pk];
        rows := rows + [(pk, buf[pk].value)];
      }
      todo := todo - {pk};
    }
  }

  lemma GatheringParts(view: Table, buf: Changes, pks: seq<DbKey>, want: Row -> bool, hits: seq<(DbKey, Row)>,
      extra: seq<(DbKey, Row)>)
    requires AreFound(view, pks, hits) && AreExtras(buf, Elements(pks), want, extra)
    requires forall k :: k in buf ==> Lookup(view, k) == buf[k]
    ensures IsGathering(view, buf, Elements(pks), want, hits + extra)
  {
    var rows := hits + extra;
    assert KeysOf(rows) == KeysOf(hits) + KeysOf(extra);
    forall i, j | 0 <= i < |hits| && 0 <= j < |extra| ensures hits[i].0 != extra[j].0 {
      assert (hits[i].0, hits[i].1) in hits && (extra[j].0, extra[j].1) in extra;
    }
    assert NoDuplicates(KeysOf(rows));
    forall pk, row ensures (pk, row) in rows <==> Gathered(view, buf, Elements(pks), want, pk, row) {
      assert (pk, row) in rows <==> (pk, row) in hits || (pk, row) in extra;
    }
  }
}
