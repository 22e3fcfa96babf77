/** A database's engines as one object: the table write path, index backfill, and the recovery loop. */
module TableStore {
  import opened Values
  import opened Schemas
  import opened Indexes
  import opened Stores
  import opened RedoLog
  import opened Replay
  import opened TableWrites

  lemma OneMore(entries: seq<(DbKey, Option<Row>)>, k: DbKey, v: Option<Row>)
    requires DistinctKeys(entries) && k !in ChangesOf(entries)
    ensures ChangesOf(entries + [(k, v)]) == ChangesOf(entries)[k := v] && DistinctKeys(entries + [(k, v)])
  {
    assert (entries + [(k, v)])[..|entries|] == entries;
  }

  /** Lists a set of changes in some order. */
  method Enumerate(ch: Changes) returns (entries: seq<(DbKey, Option<Row>)>)
    ensures ChangesOf(entries) == ch && DistinctKeys(entries)
  {
    hide ChangesOf, DistinctKeys;
    entries := [];
    Nothing();
    var todo := ch.Keys;
    while todo != {}
      invariant todo <= ch.Keys && DistinctKeys(entries)
      invariant ChangesOf(entries).Keys == ch.Keys - todo
      invariant forall k :: k in ChangesOf(entries) ==> ChangesOf(entries)[k] == ch[k]
      decreases todo
    {
      var k :| k in todo;
      OneMore(entries, k, ch[k]);
      entries := entries + [(k, ch[k])];
      todo := todo - {k};
    }
  }

  lemma Nothing()
    ensures ChangesOf([]) == map[] && DistinctKeys([])
  {
  }

  class Store {
    const cat: Catalog
    var engines: map<EngineId, Engine>

    constructor (cat: Catalog, engines: map<EngineId, Engine>)
      requires CatalogOk(cat) && forall e :: e in engines <==> IsEngine(cat, e)
      ensures this.cat == cat && this.engines == engines && Valid()
    {
      this.cat := cat;
      this.engines := engines;
    }

    ghost predicate Valid()
      reads this
    {
      CatalogOk(cat) && forall e :: e in engines <==> IsEngine(cat, e)
    }

    /** Rows by primary key, each merged from the groups that have a sub-row. */
    method MultiGet(t: string, keys: set<DbKey>) returns (rows: Table)
      requires Valid() && t in cat
      ensures rows == map k | k in keys && FetchedRow(cat, engines, t, k).Some? :: FetchedRow(cat, engines, t, k).value
    {
      hide FetchedRow;
      rows := map[];
      var todo := keys;
      while todo != {}
        invariant todo <= keys
        invariant rows == map k | k in keys - todo && FetchedRow(cat, engines, t, k).Some? :: FetchedRow(cat, engines, t, k).value
        decreases todo
      {
        var k :| k in todo;
        var row := FetchedRow(cat, engines, t, k);
        if row.Some? {
          rows := rows[k := row.value];
        }
        assert keys - (todo - {k}) == (keys - todo) + {k};
        todo := todo - {k};
      }
      assert keys - todo == keys;
    }

    /** Writes one table: every engine of the table takes its batch, groups before indexes. */
    method WriteBatch(t: string, entries: seq<(DbKey, Option<Row>)>, preset: Option<Table>)
      requires Valid() && t in cat && DistinctKeys(entries) && RowsFit(cat[t].columns, ChangesOf(entries))
      modifies this
      ensures Valid() && engines.Keys == old(engines.Keys)
      ensures var ch := ChangesOf(entries);
              var prior := if preset.Some? then preset.value else FetchedTable(cat, old(engines), t, ch);
              forall e :: e in engines ==>
                engines[e] == if e.table == t then Patch(old(engines[e]), TableBatch(cat, e, ch, prior)) else old(engines[e])
    {
      hide FetchedRow, GroupDelta, IndexDelta, Groups, DistinctNames;
      var prior: Table;
      if preset.Some? {
        prior := preset.value;
      } else {
        prior := MultiGet(t, ChangesOf(entries).Keys);
        assert prior == FetchedTable(cat, engines, t, ChangesOf(entries));
      }
      var groups, indexes := BuildBatches(cat[t], entries, prior);
      ApplyGroups(t, groups);
      ApplyIndexes(t, indexes);
    }

    method ApplyGroups(t: string, batches: map<string, seq<Mutation>>)
      requires Valid() && t in cat && batches.Keys == Groups(cat[t].columns)
      modifies this
      ensures Valid() && engines.Keys == old(engines.Keys)
      ensures forall e :: e in engines ==>
                engines[e] == if e.Group? && e.table == t then Patch(old(engines[e]), Effect(batches[e.group])) else old(engines[e])
    {
      hide Groups, Effect, DistinctNames;
      var todo := batches.Keys;
      while todo != {}
        invariant Valid() && todo <= batches.Keys && engines.Keys == old(engines.Keys)
        invariant forall e :: e in engines ==>
                    engines[e] == if e.Group? && e.table == t && e.group !in todo then Patch(old(engines[e]), Effect(batches[e.group])) else old(engines[e])
        decreases todo
      {
        var g :| g in todo;
        var e := Group(t, g);
        assert IsEngine(cat, e);
        engines := engines[e := Patch(engines[e], Effect(batches[g]))];
        todo := todo - {g};
      }
    }

    method ApplyIndexes(t: string, batches: map<string, seq<Mutation>>)
      requires Valid() && t in cat && batches.Keys == cat[t].indexes.Keys
      modifies this
      ensures Valid() && engines.Keys == old(engines.Keys)
      ensures forall e :: e in engines ==>
                engines[e] == if e.Index? && e.table == t then Patch(old(engines[e]), Effect(batches[e.index])) else old(engines[e])
    {
      hide Groups, Effect, DistinctNames;
      var todo := batches.Keys;
      while todo != {}
        invariant Valid() && todo <= batches.Keys && engines.Keys == old(engines.Keys)
        invariant forall e :: e in engines ==>
                    engines[e] == if e.Index? && e.table == t && e.index !in todo then Patch(old(engines[e]), Effect(batches[e.index])) else old(engines[e])
        decreases todo
      {
        var i :| i in todo;
        var e := Index(t, i);
        assert IsEngine(cat, e);
        engines := engines[e := Patch(engines[e], Effect(batches[i]))];
        todo := todo - {i};
      }
    }

    /** Replays a recovered log, record by record and table by table. */
    method RecoverTransactions(log: seq<Record>)
      requires Valid() && LogFits(cat, log)
      modifies this
      ensures Valid() && engines == Replayed(cat, log, |log|, old(engines))
    {
      hide ReplayOne, Groups, DistinctNames, BufferOk;
      for n := 0 to |log|
        invariant Valid() && engines == Replayed(cat, log, n, old(engines))
      {
        ReplayRecord(log[n]);
      }
    }

    method ReplayRecord(r: Record)
      requires Valid() && BufferOk(cat, r.changes)
      modifies this
      ensures Valid() && engines == ReplayOne(cat, r, old(engines))
    {
      hide Groups, DistinctNames, RedoBatch, PriorsFor;
      var todo := r.changes.Keys;
      while todo != {}
        invariant Valid() && engines.Keys == old(engines.Keys) && todo <= r.changes.Keys
        invariant forall e :: e in engines ==>
          engines[e] == if e.table in r.changes.Keys - todo then ReplayOne(cat, r, old(engines))[e] else old(engines[e])
        decreases todo
      {
        var t :| t in todo;
        ghost var before := engines;
        ReplayTable(r, t);
        SamePriors(cat, r, t, before, old(engines));
        todo := todo - {t};
      }
    }

    method ReplayTable(r: Record, t: string)
      requires Valid() && BufferOk(cat, r.changes) && t in r.changes
      modifies this
      ensures Valid() && engines.Keys == old(engines.Keys)
      ensures forall e :: e in engines ==>
        engines[e] == if e.table == t then Patch(old(engines[e]), RedoBatch(cat, r, e, PriorsFor(cat, r, t, old(engines)))) else old(engines[e])
    {
      hide Groups, DistinctNames, TableBatch, FetchedTable;
      var entries := Enumerate(r.changes[t]);
      var preset := if r.prior.Some? && t in r.prior.value then Some(r.prior.value[t]) else None;
      WriteBatch(t, entries, preset);
    }
  }

  /** The live old rows of a table depend on its own groups only. */
  lemma SamePriors(cat: Catalog, r: Record, t: string, a: Engines, b: Engines)
    requires t in cat && t in r.changes && a.Keys == b.Keys && forall e :: e in a && e.table == t ==> a[e] == b[e]
    ensures PriorsFor(cat, r, t, a) == PriorsFor(cat, r, t, b)
  {
    forall k ensures FetchedParts(cat, a, t, k) == FetchedParts(cat, b, t, k) {
    }
  }
}
