/** Serializability as clients see it: the rows, index scans and full-text answers of committed transactions. */
module SerialQueries {
  import opened Values
  import opened Schemas
  import opened Indexes
  import opened Stores
  import opened Transactions
  import opened SerialRuns
  import opened Queries
  import FullText
  import BTreeScan

  /** The cell a transaction saw under key k of engine e, in one of its recorded reads. */
  ghost predicate Saw(seen: seq<Observation>, e: EngineId, k: DbKey, v: Option<Stored>)
  {
    exists j :: 0 <= j < |seen| && seen[j].engine == e && Selects(seen[j].sel, k) && v == Lookup(seen[j].seen, k)
  }

  ghost predicate RunCommits(cat: Catalog, base: Tables, steps: seq<Step>, i: nat, c: Commit, ts: Tables, s: State, s': State)
  {
    && Initial(cat, base, s) && Runs(cat, s, steps, s') && Careful(cat, s, steps)
    && i < |s'.commits| && s'.commits[i] == c && ts == Logical(base, s'.commits[..i])
  }

  /** Some careful run of these steps commits c as number i, with ts the tables after the commits before it. */
  ghost predicate CommittedAfter(cat: Catalog, base: Tables, steps: seq<Step>, i: nat, c: Commit, ts: Tables)
  {
    exists s, s' :: RunCommits(cat, base, steps, i, c, ts, s, s')
  }

  /** Whatever cell a committed transaction saw is the cell of the serial state it committed in. */
  lemma SawSerial(cat: Catalog, base: Tables, steps: seq<Step>, i: nat, c: Commit, ts: Tables, e: EngineId, k: DbKey,
      v: Option<Stored>)
    requires CommittedAfter(cat, base, steps, i, c, ts) && IsEngine(cat, e) && Saw(c.seen, e, k, v)
    ensures CatalogOk(cat) && TablesOk(cat, ts) && v == Lookup(Contents(cat, ts, e), k)
  {
    hide Contents, CommitTrue, Runs;
    var s, s' :| RunCommits(cat, base, steps, i, c, ts, s, s');
    InitialInv(cat, base, s);
    RunKeeps(cat, base, s, steps, s');
    LogicalOk(cat, base, s'.commits, i);
    assert SeenAt(cat, base, s'.commits, i, c.seen);
    var j :| 0 <= j < |c.seen| && c.seen[j].engine == e && Selects(c.seen[j].sel, k) && v == Lookup(c.seen[j].seen, k);
    assert c.seen[j].seen == Restrict(Serial(cat, base, s'.commits, i, e), c.seen[j].sel);
  }

  /**
   A row that a committed transaction put together from the groups it read, each possibly at another
   moment and while other commits were half applied, is the row of the serial state.
   */
  lemma CommittedRowIsSerial(cat: Catalog, base: Tables, steps: seq<Step>, i: nat, c: Commit, ts: Tables, t: string,
      k: DbKey, fetch: Fetch)
    requires CommittedAfter(cat, base, steps, i, c, ts) && t in cat
    requires forall g :: g in Groups(cat[t].columns) ==>
      Group(t, g) in fetch && Saw(c.seen, Group(t, g), k, Lookup(fetch[Group(t, g)], k))
    ensures t in ts && FetchedRow(cat, fetch, t, k) == Lookup(ts[t], k)
  {
    hide FetchedRow, Contents, CommittedAfter, Saw, Groups;
    GroupsNonempty(cat[t].columns);
    forall g | g in Groups(cat[t].columns)
      ensures CatalogOk(cat) && TablesOk(cat, ts) && Lookup(fetch[Group(t, g)], k) == Lookup(Contents(cat, ts, Group(t, g)), k)
    {
      SawSerial(cat, base, steps, i, c, ts, Group(t, g), k, Lookup(fetch[Group(t, g)], k));
    }
    FetchedOne(cat, ts, fetch, t, k);
  }

  /** A transaction saw every cell of a range of an engine, as e holds them. */
  ghost predicate SawRange(seen: seq<Observation>, id: EngineId, from: DbKey, to: DbKey, e: Engine)
  {
    forall x :: InRange(x, from, to) ==> Saw(seen, id, x, Lookup(e, x))
  }

  lemma RangeIsSerial(cat: Catalog, base: Tables, steps: seq<Step>, i: nat, c: Commit, ts: Tables, t: string,
      index: string,
      from: DbKey, to: DbKey, e: Engine, x: DbKey)
    requires CommittedAfter(cat, base, steps, i, c, ts) && IsEngine(cat, Index(t, index))
    requires SawRange(c.seen, Index(t, index), from, to, e) && InRange(x, from, to)
    ensures t in ts && Lookup(e, x) == Lookup(Image(cat[t].indexes[index], ts[t]), x)
  {
    hide Image, CommittedAfter, Saw;
    SawSerial(cat, base, steps, i, c, ts, Index(t, index), x, Lookup(e, x));
  }

  /** The primary keys a committed transaction took from an index range are those of the serial state's rows. */
  lemma CommittedIndexScanIsSerial(cat: Catalog, base: Tables, steps: seq<Step>, i: nat, c: Commit, ts: Tables,
      t: string, index: string,
      from: DbKey, to: DbKey, e: Engine)
    requires CommittedAfter(cat, base, steps, i, c, ts) && IsEngine(cat, Index(t, index))
    requires SawRange(c.seen, Index(t, index), from, to, e)
    ensures t in cat && TablesOk(cat, ts)
    ensures BTreeScan.Hits(e, from, to) == BTreeScan.Hits(Image(cat[t].indexes[index], ts[t]), from, to)
  {
    hide CommittedAfter, SawRange, Contents;
    TablesFit(cat, base, steps, i, c, ts);
    var image := Image(cat[t].indexes[index], ts[t]);
    forall x | InRange(x, from, to) ensures Lookup(e, x) == Lookup(image, x) {
      RangeIsSerial(cat, base, steps, i, c, ts, t, index, from, to, e, x);
    }
    hide Image, InRange;
    SameHits(e, image, from, to);
  }

  lemma SameHits(a: Engine, b: Engine, from: DbKey, to: DbKey)
    requires forall x :: InRange(x, from, to) ==> Lookup(a, x) == Lookup(b, x)
    ensures BTreeScan.Hits(a, from, to) == BTreeScan.Hits(b, from, to)
  {
    hide InRange, PkOf;
    assert forall x :: InRange(x, from, to) ==> (x in a <==> x in b) by {
      forall x | InRange(x, from, to) ensures x in a <==> x in b {
        assert Lookup(a, x) == Lookup(b, x);
      }
    }
  }

  lemma TablesFit(cat: Catalog, base: Tables, steps: seq<Step>, i: nat, c: Commit, ts: Tables)
    requires CommittedAfter(cat, base, steps, i, c, ts)
    ensures CatalogOk(cat) && TablesOk(cat, ts)
  {
    hide CommitTrue, Runs;
    var s, s' :| RunCommits(cat, base, steps, i, c, ts, s, s');
    InitialInv(cat, base, s);
    RunKeeps(cat, base, s, steps, s');
    LogicalOk(cat, base, s'.commits, i);
  }

  /**
   A full-text query that a committed transaction evaluated, token range by token range on the live
   index, found exactly the rows of the serial state whose own tokens satisfy it.
   */
  lemma CommittedTextQueryIsSerial(cat: Catalog, base: Tables, steps: seq<Step>, i: nat, c: Commit, ts: Tables,
      t: string, index: string,
      q: Query, lo: DbKey, hi: DbKey, e: Engine, pk: DbKey)
    requires CommittedAfter(cat, base, steps, i, c, ts) && IsEngine(cat, Index(t, index))
    requires cat[t].indexes[index].FullText? && NonEmptyPhrases(q)
    requires forall r :: r in FullText.ScannedRanges(q, lo, hi) ==> SawRange(c.seen, Index(t, index), r.0, r.1, e)
    ensures t in ts
    ensures FullText.IndexSatisfies(e, q, pk, lo, hi) <==>
            InRange(pk, lo, hi) && pk in ts[t] && RowSatisfies(cat[t].indexes[index], q, ts[t][pk])
  {
    hide Image, CommittedAfter, SawRange, FullText.IndexSatisfies, RowSatisfies, FullText.ScannedRanges, InRange;
    TablesFit(cat, base, steps, i, c, ts);
    var def := cat[t].indexes[index];
    forall r, x | r in FullText.ScannedRanges(q, lo, hi) && InRange(x, r.0, r.1) ensures Lookup(e, x) == Lookup(Image(def, ts[t]), x) {
      RangeIsSerial(cat, base, steps, i, c, ts, t, index, r.0, r.1, e, x);
    }
    assert FullText.Agree(e, Image(def, ts[t]), FullText.ScannedRanges(q, lo, hi));
    FullText.RangesDecide(e, Image(def, ts[t]), q, pk, lo, hi);
    FullText.IndexAgrees(def, ts[t], q, pk, lo, hi);
  }
}
