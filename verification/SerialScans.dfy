/**
 Serializability of whole scans. A committed transaction's table scans, index scans and full-text
 scans, each with its own buffered writes laid over, return what they would return on the tables of
 the serial state it committed in, though groups, indexes and rows were read at different moments.
 */
module SerialScans {
  import opened Values
  import opened Schemas
  import opened Indexes
  import opened Ordered
  import Bounds
  import opened Cursors
  import opened Stores
  import opened Transactions
  import opened Queries
  import opened IndexScans
  import opened SerialQueries
  import GroupScan
  import TextScan

  // ---------- Table scans ----------

  /** The groups of a table as a transaction read them, each over the whole range. */
  ghost predicate SawGroups(seen: seq<Observation>, t: string, gs: seq<string>, lo: DbKey, hi: DbKey,
      engines: map<string, Engine>)
  {
    forall g :: g in gs ==> g in engines && SawRange(seen, Group(t, g), lo, hi, engines[g])
  }

  lemma SameWithin(a: Engine, b: Engine, lo: DbKey, hi: DbKey)
    requires forall k :: InRange(k, lo, hi) ==> Lookup(a, k) == Lookup(b, k)
    ensures Within(a, lo, hi) == Within(b, lo, hi)
  {
    hide InRange;
    forall k ensures Lookup(Within(a, lo, hi), k) == Lookup(Within(b, lo, hi), k) {
    }
    MapsEqual(Within(a, lo, hi), Within(b, lo, hi));
  }

  lemma GroupIsSerial(cat: Catalog, base: Tables, steps: seq<Step>, i: nat, c: Commit, ts: Tables, t: string, g: string,
      lo: DbKey, hi: DbKey, e: Engine)
    requires CommittedAfter(cat, base, steps, i, c, ts) && IsEngine(cat, Group(t, g))
    requires SawRange(c.seen, Group(t, g), lo, hi, e)
    ensures TablesOk(cat, ts) && Within(e, lo, hi) == Within(Contents(cat, ts, Group(t, g)), lo, hi)
  {
    TablesFit(cat, base, steps, i, c, ts);
    hide CommittedAfter, Contents, InRange, Saw, TablesOk;
    forall k | InRange(k, lo, hi) ensures Lookup(e, k) == Lookup(Contents(cat, ts, Group(t, g)), k) {
      SawSerial(cat, base, steps, i, c, ts, Group(t, g), k, Lookup(e, k));
    }
    SameWithin(e, Contents(cat, ts, Group(t, g)), lo, hi);
  }

  ghost function SerialGroups(cat: Catalog, ts: Tables, t: string, gs: seq<string>): map<string, Engine>
    requires TablesOk(cat, ts) && forall g :: g in gs ==> IsEngine(cat, Group(t, g))
  {
    map g | g in gs :: Contents(cat, ts, Group(t, g))
  }

  lemma SameOpened(gs: seq<string>, a: map<string, Engine>, b: map<string, Engine>, lo: DbKey, hi: DbKey)
    requires GroupScan.EnginesOk(gs, a) && GroupScan.EnginesOk(gs, b)
    requires forall g :: g in gs ==> Within(a[g], lo, hi) == Within(b[g], lo, hi)
    ensures GroupScan.Opened(gs, a, lo, hi) == GroupScan.Opened(gs, b, lo, hi)
  {
    hide Listing, GroupScan.RowsOf, Within, GroupScan.AllRows;
    forall n | 0 <= n < |gs| ensures GroupScan.Opened(gs, a, lo, hi)[n] == GroupScan.Opened(gs, b, lo, hi)[n] {
      assert gs[n] in gs;
    }
  }

  /** A scan over groups read at different moments, while commits were half applied, lists the rows of
      the serial table. */
  lemma CommittedTableScanIsSerial(cat: Catalog, base: Tables, steps: seq<Step>, i: nat, c: Commit, ts: Tables,
      t: string, gs: seq<string>,
      lo: DbKey, hi: DbKey, engines: map<string, Engine>)
    requires CommittedAfter(cat, base, steps, i, c, ts) && t in cat && GroupScan.TableOk(cat[t].columns, gs)
    requires GroupScan.EnginesOk(gs, engines) && SawGroups(c.seen, t, gs, lo, hi, engines)
    ensures t in ts
    ensures Listing(GroupScan.Pending(cat[t].columns, gs, GroupScan.Opened(gs, engines, lo, hi))) == Listing(Within(ts[t], lo, hi))
  {
    TablesFit(cat, base, steps, i, c, ts);
    GroupScan.EveryStateScansAsTable(cat, ts, t, gs, lo, hi);
    var serial := SerialGroups(cat, ts, t, gs);
    hide CommittedAfter, Contents, Listing, GroupScan.Pending, GroupScan.Opened, Within, GroupScan.TableOk, SawRange, IsEngine;
    forall g | g in gs ensures Within(engines[g], lo, hi) == Within(serial[g], lo, hi) {
      GroupIsSerial(cat, base, steps, i, c, ts, t, g, lo, hi, engines[g]);
    }
    SameOpened(gs, engines, serial, lo, hi);
  }

  /** The same with the transaction's own writes laid over the scanned rows. */
  lemma CommittedOverlayScanIsSerial(cat: Catalog, base: Tables, steps: seq<Step>, i: nat, c: Commit, ts: Tables,
      t: string, gs: seq<string>,
      lo: DbKey, hi: DbKey, engines: map<string, Engine>, buf: Changes)
    requires CommittedAfter(cat, base, steps, i, c, ts) && t in cat && GroupScan.TableOk(cat[t].columns, gs)
    requires GroupScan.EnginesOk(gs, engines) && SawGroups(c.seen, t, gs, lo, hi, engines)
    ensures t in ts
    ensures var scanned := AsMap(Listing(GroupScan.Pending(cat[t].columns, gs, GroupScan.Opened(gs, engines, lo, hi))));
            Listing(Within(Patch(scanned, buf), lo, hi)) == Listing(Within(Patch(ts[t], buf), lo, hi))
  {
    CommittedTableScanIsSerial(cat, base, steps, i, c, ts, t, gs, lo, hi, engines);
    hide CommittedAfter, Listing, GroupScan.Pending, GroupScan.Opened, GroupScan.TableOk, SawGroups, AsMap;
    ListingAsMap(Within(ts[t], lo, hi), Listing(Within(ts[t], lo, hi)));
    OverlaySame(ts[t], buf, lo, hi);
  }

  lemma WithinAt(m: Table, lo: DbKey, hi: DbKey, k: DbKey)
    ensures Lookup(Within(m, lo, hi), k) == if InRange(k, lo, hi) then Lookup(m, k) else None
  {
    hide InRange;
  }

  lemma OverlayAt(table: Table, buf: Changes, lo: DbKey, hi: DbKey, k: DbKey)
    ensures Lookup(Within(Patch(Within(table, lo, hi), buf), lo, hi), k) == Lookup(Within(Patch(table, buf), lo, hi), k)
  {
    hide InRange, Within, Patch;
    WithinAt(table, lo, hi, k);
    WithinAt(Patch(Within(table, lo, hi), buf), lo, hi, k);
    WithinAt(Patch(table, buf), lo, hi, k);
  }

  lemma OverlaySame(table: Table, buf: Changes, lo: DbKey, hi: DbKey)
    ensures Within(Patch(Within(table, lo, hi), buf), lo, hi) == Within(Patch(table, buf), lo, hi)
  {
    hide *;
    var a, b := Within(Patch(Within(table, lo, hi), buf), lo, hi), Within(Patch(table, buf), lo, hi);
    forall k ensures Lookup(a, k) == Lookup(b, k) {
      OverlayAt(table, buf, lo, hi, k);
    }
    MapsEqual(a, b);
  }

  // ---------- Index and full-text scans ----------

  /** The rows fetched for the hits that are not buffered, each merged from groups the transaction read. */
  ghost predicate Fetched(cat: Catalog, seen: seq<Observation>, t: string, hits: set<DbKey>, buf: Changes, live: Table,
      fetch: Fetch)
    requires t in cat
  {
    forall pk :: pk in hits && pk !in buf ==> FetchedHit(cat, seen, t, live, fetch, pk)
  }

  ghost predicate FetchedHit(cat: Catalog, seen: seq<Observation>, t: string, live: Table, fetch: Fetch, pk: DbKey)
    requires t in cat
  {
    && Lookup(live, pk) == FetchedRow(cat, fetch, t, pk)
    && forall g :: g in Groups(cat[t].columns) ==>
         Group(t, g) in fetch && Saw(seen, Group(t, g), pk, Lookup(fetch[Group(t, g)], pk))
  }

  lemma HitsAreSerial(cat: Catalog, base: Tables, steps: seq<Step>, i: nat, c: Commit, ts: Tables, t: string,
      hits: set<DbKey>, buf: Changes, live: Table, fetch: Fetch)
    requires CommittedAfter(cat, base, steps, i, c, ts) && t in cat && Fetched(cat, c.seen, t, hits, buf, live, fetch)
    ensures TablesOk(cat, ts) && forall pk :: pk in hits && pk !in buf ==> Lookup(live, pk) == Lookup(ts[t], pk)
  {
    TablesFit(cat, base, steps, i, c, ts);
    hide CommittedAfter, FetchedRow, Groups, Saw;
    forall pk | pk in hits && pk !in buf ensures Lookup(live, pk) == Lookup(ts[t], pk) {
      assert FetchedHit(cat, c.seen, t, live, fetch, pk);
      CommittedRowIsSerial(cat, base, steps, i, c, ts, t, pk, fetch);
    }
  }

  lemma SameGathering(live: Table, table: Table, buf: Changes, hits: set<DbKey>, want: Row -> bool, pk: DbKey, row: Row)
    requires forall k :: k in hits && k !in buf ==> Lookup(live, k) == Lookup(table, k)
    ensures Gathered(Patch(live, buf), buf, hits, want, pk, row) <==> Gathered(Patch(table, buf), buf, hits, want, pk, row)
  {
    assert Lookup(Patch(live, buf), pk) == if pk in buf then buf[pk] else Lookup(live, pk);
    assert Lookup(Patch(table, buf), pk) == if pk in buf then buf[pk] else Lookup(table, pk);
  }

  /** The rows a committed transaction gathered from an index range and its own buffer are those of the
      same scan of the serial table. */
  lemma CommittedIndexRowsAreSerial(cat: Catalog, base: Tables, steps: seq<Step>, i: nat, c: Commit, ts: Tables,
      t: string, index: string,
      start: DbKey, end: DbKey, lo: DbKey, hi: DbKey, e: Engine, buf: Changes, live: Table, fetch: Fetch, pk: DbKey, row: Row)
    requires CommittedAfter(cat, base, steps, i, c, ts) && IsEngine(cat, Index(t, index)) && cat[t].indexes[index].BTree?
    requires BTreeScan.ColumnsExist(cat[t].columns, cat[t].indexes[index].columns)
    requires var cols, columns := cat[t].columns, cat[t].indexes[index].columns;
             var from, to := BTreeScan.Padded(start, Bounds.Mins(cols, columns), lo), BTreeScan.Padded(end, Bounds.Maxs(cols, columns), hi);
             SawRange(c.seen, Index(t, index), from, to, e) && Fetched(cat, c.seen, t, BTreeScan.Hits(e, from, to), buf, live, fetch)
    ensures t in ts
    ensures var cols, columns := cat[t].columns, cat[t].indexes[index].columns;
            var from, to := BTreeScan.Padded(start, Bounds.Mins(cols, columns), lo), BTreeScan.Padded(end, Bounds.Maxs(cols, columns), hi);
            Gathered(Patch(live, buf), buf, BTreeScan.Hits(e, from, to), BTreeScan.RowTest(columns, start, end), pk, row) <==>
            BTreeScan.Returned(cols, columns, ts[t], buf, start, end, lo, hi, pk, row)
  {
    var cols, columns := cat[t].columns, cat[t].indexes[index].columns;
    var from, to := BTreeScan.Padded(start, Bounds.Mins(cols, columns), lo), BTreeScan.Padded(end, Bounds.Maxs(cols, columns), hi);
    var hits := BTreeScan.Hits(e, from, to);
    hide CommittedAfter, SawRange, Fetched, Gathered, BTreeScan.Hits, BTreeScan.Padded, Bounds.Mins, Bounds.Maxs, BTreeScan.RowTest, Image, Patch;
    CommittedIndexScanIsSerial(cat, base, steps, i, c, ts, t, index, from, to, e);
    HitsAreSerial(cat, base, steps, i, c, ts, t, hits, buf, live, fetch);
    SameGathering(live, ts[t], buf, hits, BTreeScan.RowTest(columns, start, end), pk, row);
    assert cat[t].indexes[index] == BTree(columns);
  }

  /** The rows a committed transaction gathered for a full-text query and from its own buffer are those
      of the same query on the serial table. */
  lemma CommittedTextRowsAreSerial(cat: Catalog, base: Tables, steps: seq<Step>, i: nat, c: Commit, ts: Tables,
      t: string, index: string,
      q: Query, lo: DbKey, hi: DbKey, e: Engine, hits: set<DbKey>, buf: Changes, live: Table, fetch: Fetch, pk: DbKey, row: Row)
    requires CommittedAfter(cat, base, steps, i, c, ts) && IsEngine(cat, Index(t, index))
    requires cat[t].indexes[index].FullText? && NonEmptyPhrases(q)
    requires forall r :: r in FullText.ScannedRanges(q, lo, hi) ==> SawRange(c.seen, Index(t, index), r.0, r.1, e)
    requires forall k :: k in hits <==> FullText.IndexSatisfies(e, q, k, lo, hi)
    requires Fetched(cat, c.seen, t, hits, buf, live, fetch)
    ensures t in ts
    ensures Gathered(Patch(live, buf), buf, hits, TextScan.RowTest(cat[t].indexes[index], q), pk, row) <==>
            TextScan.Returned(cat[t].indexes[index], ts[t], buf, q, lo, hi, pk, row)
  {
    hide CommittedAfter, SawRange, Fetched, FullText.IndexSatisfies, FullText.ScannedRanges, Image, RowSatisfies, Patch;
    var def := cat[t].indexes[index];
    HitsAreSerial(cat, base, steps, i, c, ts, t, hits, buf, live, fetch);
    SameGathering(live, ts[t], buf, hits, TextScan.RowTest(def, q), pk, row);
    CommittedTextQueryIsSerial(cat, base, steps, i, c, ts, t, index, q, lo, hi, e, pk);
    FullText.IndexAgrees(def, ts[t], q, pk, lo, hi);
  }
}
