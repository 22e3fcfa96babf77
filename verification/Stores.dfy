/** The physical engines of a database as the image of its logical tables, and what a commit does to both. */
module Stores {
  import opened Values
  import opened Schemas
  import opened Indexes

  datatype TableDef = TableDef(columns: Columns, indexes: map<string, IndexDef>)

  type Catalog = map<string, TableDef>

  /** One storage engine per locality group and one per index. */
  datatype EngineId = Group(table: string, group: string) | Index(table: string, index: string)

  type Tables = map<string, Table>
  type Buffer = map<string, Changes>
  type KeySets = map<string, set<DbKey>>

  predicate IsEngine(cat: Catalog, e: EngineId)
  {
    e.table in cat &&
    match e
    case Group(t, g) => g in Groups(cat[t].columns)
    case Index(t, i) => i in cat[t].indexes
  }

  predicate CatalogOk(cat: Catalog)
  {
    forall t :: t in cat ==> DistinctNames(cat[t].columns)
  }

  predicate TablesOk(cat: Catalog, ts: Tables)
  {
    && ts.Keys == cat.Keys
    && forall t, k :: t in ts && k in ts[t] ==> |ts[t][k]| == |cat[t].columns|
  }

  predicate BufferOk(cat: Catalog, buf: Buffer)
  {
    && buf.Keys <= cat.Keys
    && forall t, k :: t in buf && k in buf[t] && buf[t][k].Some? ==> |buf[t][k].value| == |cat[t].columns|
  }

  /** The name under which an engine's keys are tracked for conflicts. */
  function SpaceOf(e: EngineId): string
  {
    match e
    case Group(t, _) => t
    case Index(t, i) => t + ".index." + i
  }

  // ---------- Contents of an engine ----------

  function GroupImage(cols: Columns, g: string, t: Table): (e: Engine)
    requires forall k :: k in t ==> |t[k]| == |cols|
  {
    map k | k in t :: SubRow(Split(cols, t[k], g))
  }

  /** What engine e holds when the logical tables are ts. */
  function Contents(cat: Catalog, ts: Tables, e: EngineId): Engine
    requires TablesOk(cat, ts) && IsEngine(cat, e)
  {
    match e
    case Group(t, g) => GroupImage(cat[t].columns, g, ts[t])
    case Index(t, i) => Image(cat[t].indexes[i], ts[t])
  }

  // ---------- Applying a transaction's buffer ----------

  function ApplyBuffer(ts: Tables, buf: Buffer): Tables
  {
    map t | t in ts :: if t in buf then Patch(ts[t], buf[t]) else ts[t]
  }

  lemma ApplyBufferOk(cat: Catalog, ts: Tables, buf: Buffer)
    requires TablesOk(cat, ts) && BufferOk(cat, buf)
    ensures TablesOk(cat, ApplyBuffer(ts, buf))
  {
    var ts' := ApplyBuffer(ts, buf);
    forall t, k | t in ts' && k in ts'[t]
      ensures |ts'[t][k]| == |cat[t].columns|
    {
      if t in buf {
        assert Lookup(ts'[t], k) == if k in buf[t] then buf[t][k] else Lookup(ts[t], k);
      }
    }
  }

  function AllPreimages(ts: Tables, buf: Buffer): Tables
  {
    map t | t in buf && t in ts :: Preimages(ts[t], buf[t])
  }

  function GroupDelta(cols: Columns, g: string, ch: Changes): Delta
    requires forall k :: k in ch && ch[k].Some? ==> |ch[k].value| == |cols|
  {
    map k | k in ch :: if ch[k].Some? then Some(SubRow(Split(cols, ch[k].value, g))) else None
  }

  /** The batch a commit sends to engine e, given the old rows it fetched. */
  function EngineDelta(cat: Catalog, buf: Buffer, prior: Tables, e: EngineId): Delta
    requires BufferOk(cat, buf) && IsEngine(cat, e) && buf.Keys <= prior.Keys
  {
    if e.table !in buf then map[]
    else match e
      case Group(t, g) => GroupDelta(cat[t].columns, g, buf[t])
      case Index(t, i) => IndexDelta(cat[t].indexes[i], buf[t], prior[t])
  }

  /** The same batch for arbitrary arguments; outside the catalog there is nothing to send. */
  function Batch(cat: Catalog, buf: Buffer, prior: Tables, e: EngineId): Delta
  {
    if BufferOk(cat, buf) && IsEngine(cat, e) && buf.Keys <= prior.Keys
    then EngineDelta(cat, buf, prior, e) else map[]
  }

  /** With true pre-images, every engine's batch moves it to its contents for the changed tables. */
  lemma StoreStep(cat: Catalog, ts: Tables, buf: Buffer, prior: Tables, e: EngineId)
    requires TablesOk(cat, ts) && BufferOk(cat, buf) && IsEngine(cat, e)
    requires prior == AllPreimages(ts, buf)
    ensures TablesOk(cat, ApplyBuffer(ts, buf))
    ensures Patch(Contents(cat, ts, e), EngineDelta(cat, buf, prior, e)) == Contents(cat, ApplyBuffer(ts, buf), e)
  {
    ApplyBufferOk(cat, ts, buf);
    if e.table !in buf {
      MapsEqual(Patch(Contents(cat, ts, e), map[]), Contents(cat, ts, e));
    } else {
      match e
      case Group(t, g) => GroupStep(cat[t].columns, g, ts[t], buf[t]);
      case Index(t, i) => IndexStep(cat[t].indexes[i], ts[t], buf[t], prior[t]);
    }
  }

  lemma GroupStep(cols: Columns, g: string, t: Table, ch: Changes)
    requires forall k :: k in t ==> |t[k]| == |cols|
    requires forall k :: k in ch && ch[k].Some? ==> |ch[k].value| == |cols|
    requires forall k :: k in Patch(t, ch) ==> |Patch(t, ch)[k]| == |cols|
    ensures Patch(GroupImage(cols, g, t), GroupDelta(cols, g, ch)) == GroupImage(cols, g, Patch(t, ch))
  {
    var a, b := Patch(GroupImage(cols, g, t), GroupDelta(cols, g, ch)), GroupImage(cols, g, Patch(t, ch));
    forall k ensures Lookup(a, k) == Lookup(b, k) {
      assert Lookup(Patch(t, ch), k) == if k in ch then ch[k] else Lookup(t, k);
    }
    MapsEqual(a, b);
  }

  // ---------- The keys a commit declares ----------

  predicate Touches(keys: KeySets, space: string, k: DbKey)
  {
    space in keys && k in keys[space]
  }

  function IndexKeysIn(cat: Catalog, buf: Buffer, prior: Tables, space: string): set<DbKey>
    requires buf.Keys <= cat.Keys && buf.Keys <= prior.Keys
  {
    set t, i, x | t in buf && i in cat[t].indexes && SpaceOf(Index(t, i)) == space &&
                  x in Touched(cat[t].indexes[i], buf[t], prior[t]) :: x
  }

  function WriteSpaces(cat: Catalog, buf: Buffer): set<string>
    requires buf.Keys <= cat.Keys
  {
    buf.Keys + (set t, i | t in buf && i in cat[t].indexes :: SpaceOf(Index(t, i)))
  }

  /** Primary keys under the table's name, and old and new index keys under the index's synthetic name. */
  function WriteKeys(cat: Catalog, buf: Buffer, prior: Tables): KeySets
    requires buf.Keys <= cat.Keys && buf.Keys <= prior.Keys
  {
    map sp | sp in WriteSpaces(cat, buf) ::
      (if sp in buf then buf[sp].Keys else {}) + IndexKeysIn(cat, buf, prior, sp)
  }

  /** A changed row has an entry at x in index i before or after the change. */
  predicate EntryChanges(cat: Catalog, buf: Buffer, prior: Tables, t: string, i: string, space: string, x: DbKey)
    requires buf.Keys <= cat.Keys && buf.Keys <= prior.Keys
  {
    && t in buf && i in cat[t].indexes && SpaceOf(Index(t, i)) == space && PkOf(x) in buf[t]
    && (EntryAt(cat[t].indexes[i], Lookup(prior[t], PkOf(x)), x).Some? || EntryAt(cat[t].indexes[i], buf[t][PkOf(x)], x).Some?)
  }

  ghost predicate IndexKeyChanges(cat: Catalog, buf: Buffer, prior: Tables, space: string, x: DbKey)
    requires buf.Keys <= cat.Keys && buf.Keys <= prior.Keys
  {
    exists t, i :: EntryChanges(cat, buf, prior, t, i, space, x)
  }

  lemma IndexKeysExactly(cat: Catalog, buf: Buffer, prior: Tables, space: string, x: DbKey)
    requires buf.Keys <= cat.Keys && buf.Keys <= prior.Keys
    ensures x in IndexKeysIn(cat, buf, prior, space) <==> IndexKeyChanges(cat, buf, prior, space, x)
    ensures IndexKeyChanges(cat, buf, prior, space, x) ==> space in WriteSpaces(cat, buf)
  {
    hide EntryAt;
    if t, i :| t in buf && i in cat[t].indexes && SpaceOf(Index(t, i)) == space && x in Touched(cat[t].indexes[i], buf[t], prior[t]) {
      assert EntryChanges(cat, buf, prior, t, i, space, x);
    }
    if t, i :| EntryChanges(cat, buf, prior, t, i, space, x) {
      assert x in Touched(cat[t].indexes[i], buf[t], prior[t]);
    }
  }

  /** What a commit declares: the primary keys it writes, and these index keys, and nothing else. */
  lemma WriteKeysExactly(cat: Catalog, buf: Buffer, prior: Tables, space: string, x: DbKey)
    requires buf.Keys <= cat.Keys && buf.Keys <= prior.Keys
    ensures Touches(WriteKeys(cat, buf, prior), space, x) <==>
            (space in buf && x in buf[space]) || IndexKeyChanges(cat, buf, prior, space, x)
  {
    hide IndexKeysIn, IndexKeyChanges;
    IndexKeysExactly(cat, buf, prior, space, x);
  }

  /** No engine batch reaches a key that the commit did not declare. */
  lemma WriteKeysCover(cat: Catalog, buf: Buffer, prior: Tables, e: EngineId, x: DbKey)
    requires BufferOk(cat, buf) && IsEngine(cat, e) && buf.Keys <= prior.Keys
    requires x in EngineDelta(cat, buf, prior, e)
    ensures Touches(WriteKeys(cat, buf, prior), SpaceOf(e), x)
  {
    assert SpaceOf(e) in WriteSpaces(cat, buf);
    if e.Index? {
      assert x in IndexKeysIn(cat, buf, prior, SpaceOf(e));
    }
  }

  // ---------- Old rows, fetched group by group ----------

  type Fetch = map<EngineId, Engine>

  function FetchedParts(cat: Catalog, fetch: Fetch, t: string, k: DbKey): map<string, Option<Row>>
    requires t in cat
  {
    map g | g in Groups(cat[t].columns) ::
      if Group(t, g) in fetch && k in fetch[Group(t, g)] && fetch[Group(t, g)][k].SubRow?
      then Some(fetch[Group(t, g)][k].row) else None
  }

  /** A row exists when any group found a sub-row; missing groups fall back to defaults. */
  function FetchedRow(cat: Catalog, fetch: Fetch, t: string, k: DbKey): Option<Row>
    requires t in cat
  {
    var parts := FetchedParts(cat, fetch, t, k);
    if exists g :: g in parts && parts[g].Some? then Some(Merge(cat[t].columns, parts)) else None
  }

  function FetchedRows(cat: Catalog, buf: Buffer, fetch: Fetch): Tables
    requires buf.Keys <= cat.Keys
  {
    map t | t in buf :: FetchedTable(cat, fetch, t, buf[t])
  }

  function FetchedTable(cat: Catalog, fetch: Fetch, t: string, ch: Changes): Table
    requires t in cat
  {
    map k | k in ch && FetchedRow(cat, fetch, t, k).Some? :: FetchedRow(cat, fetch, t, k).value
  }

  predicate FetchComplete(cat: Catalog, buf: Buffer, fetch: Fetch)
    requires buf.Keys <= cat.Keys
  {
    forall t, g :: t in buf && g in Groups(cat[t].columns) ==> Group(t, g) in fetch
  }

  lemma GroupsNonempty(cols: Columns)
    ensures exists g :: g in Groups(cols)
  {
    if cols == [] {
      assert "" in Groups(cols);
    } else {
      assert cols[0] in cols;
      assert cols[0].group in Groups(cols);
    }
  }

  /** If every fetched cell is the one of the tables ts, the merged old rows are exactly the pre-images. */
  lemma FetchedArePreimages(cat: Catalog, ts: Tables, buf: Buffer, fetch: Fetch)
    requires CatalogOk(cat) && TablesOk(cat, ts) && BufferOk(cat, buf) && FetchComplete(cat, buf, fetch)
    requires forall t, g, k :: t in buf && g in Groups(cat[t].columns) && k in buf[t] ==>
      Lookup(fetch[Group(t, g)], k) == Lookup(Contents(cat, ts, Group(t, g)), k)
    ensures FetchedRows(cat, buf, fetch) == AllPreimages(ts, buf)
  {
    hide Contents, FetchedRow, Groups;
    forall t | t in buf ensures FetchedTable(cat, fetch, t, buf[t]) == Preimages(ts[t], buf[t]) {
      forall k | k in buf[t] ensures FetchedRow(cat, fetch, t, k) == Lookup(ts[t], k) {
        FetchedOne(cat, ts, fetch, t, k);
      }
      FetchedTableIs(cat, fetch, t, buf[t], ts[t]);
    }
  }

  lemma FetchedTableIs(cat: Catalog, fetch: Fetch, t: string, ch: Changes, table: Table)
    requires t in cat && forall k :: k in ch ==> FetchedRow(cat, fetch, t, k) == Lookup(table, k)
    ensures FetchedTable(cat, fetch, t, ch) == Preimages(table, ch)
  {
    hide FetchedRow;
  }

  lemma FetchedOne(cat: Catalog, ts: Tables, fetch: Fetch, t: string, k: DbKey)
    requires CatalogOk(cat) && TablesOk(cat, ts) && t in cat
    requires forall g :: g in Groups(cat[t].columns) ==>
      Group(t, g) in fetch && Lookup(fetch[Group(t, g)], k) == Lookup(Contents(cat, ts, Group(t, g)), k)
    ensures FetchedRow(cat, fetch, t, k) == Lookup(ts[t], k)
  {
    var cols := cat[t].columns;
    var parts := FetchedParts(cat, fetch, t, k);
    if k in ts[t] {
      forall g | g in Groups(cols) ensures parts[g] == Some(Split(cols, ts[t][k], g)) {
        assert Lookup(fetch[Group(t, g)], k) == Some(SubRow(Split(cols, ts[t][k], g)));
      }
      assert parts == SplitAll(cols, ts[t][k]);
      GroupsNonempty(cols);
      MergeSplit(cols, ts[t][k]);
    } else {
      forall g | g in parts ensures parts[g].None? {
        assert Lookup(fetch[Group(t, g)], k) == None;
      }
    }
  }
}
