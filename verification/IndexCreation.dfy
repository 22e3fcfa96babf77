/**
 An index created on a live database, from its backfill on: it starts as the index of the stored
 rows exactly when the backfill was complete, and then every run keeps it so.
 */
module IndexCreation {
  import opened Values
  import opened Indexes
  import opened Ordered
  import opened Stores
  import opened Transactions
  import opened SerialRuns
  import Backfill

  function WithIndex(cat: Catalog, t: string, name: string, def: IndexDef): Catalog
    requires t in cat
  {
    cat[t := cat[t].(indexes := cat[t].indexes[name := def])]
  }

  /** The database with one more engine and nobody registered; versions count from the creation on. */
  function Extended(s: State, t: string, name: string, engine: Engine): State
  {
    State(0, [], s.engines[Index(t, name) := engine], None, map[], map[], [], [])
  }

  lemma ExtendedEngines(cat: Catalog, t: string, name: string, def: IndexDef, e: EngineId)
    requires t in cat
    ensures IsEngine(WithIndex(cat, t, name, def), e) <==> IsEngine(cat, e) || e == Index(t, name)
  {
  }

  lemma ExtendedTables(cat: Catalog, t: string, name: string, def: IndexDef, ts: Tables)
    requires t in cat && CatalogOk(cat) && TablesOk(cat, ts)
    ensures CatalogOk(WithIndex(cat, t, name, def)) && TablesOk(WithIndex(cat, t, name, def), ts)
  {
  }

  lemma SameContents(cat: Catalog, t: string, name: string, def: IndexDef, ts: Tables, e: EngineId)
    requires t in cat && TablesOk(cat, ts) && TablesOk(WithIndex(cat, t, name, def), ts) && IsEngine(cat, e) && e != Index(t, name)
    requires IsEngine(WithIndex(cat, t, name, def), e)
    ensures Contents(WithIndex(cat, t, name, def), ts, e) == Contents(cat, ts, e)
  {
    hide GroupImage, Image;
  }

  /** Engines in step with the tables, and an index engine for them. */
  lemma ExtendedInitial(cat: Catalog, ts: Tables, s: State, t: string, name: string, def: IndexDef, engine: Engine)
    requires t in cat && CatalogOk(cat) && TablesOk(cat, ts) && name !in cat[t].indexes
    requires forall e :: e in s.engines <==> IsEngine(cat, e)
    requires forall e :: e in s.engines ==> s.engines[e] == Contents(cat, ts, e)
    ensures Initial(WithIndex(cat, t, name, def), ts, Extended(s, t, name, engine)) <==> engine == Image(def, ts[t])
  {
    hide Contents, TablesOk, CatalogOk, IsEngine, Image;
    var cat', s' := WithIndex(cat, t, name, def), Extended(s, t, name, engine);
    ExtendedTables(cat, t, name, def, ts);
    forall e ensures e in s'.engines <==> IsEngine(cat', e) {
      ExtendedEngines(cat, t, name, def, e);
    }
    NotYet(cat, t, name);
    forall e | e in s.engines ensures e != Index(t, name) && IsEngine(cat', e) && s'.engines[e] == Contents(cat', ts, e) {
      ExtendedEngines(cat, t, name, def, e);
      SameContents(cat, t, name, def, ts, e);
    }
    NewContents(cat, t, name, def, ts);
  }

  lemma NotYet(cat: Catalog, t: string, name: string)
    requires t in cat && name !in cat[t].indexes
    ensures !IsEngine(cat, Index(t, name))
  {
  }

  lemma NewContents(cat: Catalog, t: string, name: string, def: IndexDef, ts: Tables)
    requires t in cat && TablesOk(WithIndex(cat, t, name, def), ts)
    ensures IsEngine(WithIndex(cat, t, name, def), Index(t, name)) && t in ts
    ensures Contents(WithIndex(cat, t, name, def), ts, Index(t, name)) == Image(def, ts[t])
  {
  }

  /** What creating an index on a running database leaves: a state from which all theorems about runs
      hold for the new index too, exactly when no row outside the primary key bounds has an entry. */
  lemma CreatedIndexStarts(cat: Catalog, base: Tables, s: State, steps: seq<Step>, s': State, t: string, name: string,
      def: IndexDef, lo: DbKey, hi: DbKey)
    requires Initial(cat, base, s) && Runs(cat, s, steps, s') && Careful(cat, s, steps) && s'.writer.None?
    requires t in cat && name !in cat[t].indexes
    ensures var ts := Logical(base, s'.commits);
            && TablesOk(cat, ts)
            && (Initial(WithIndex(cat, t, name, def), ts, Extended(s', t, name, Image(def, Within(ts[t], lo, hi)))) <==>
                forall pk :: pk in ts[t] && !InRange(pk, lo, hi) ==> Entries(def, pk, ts[t][pk]) == map[])
  {
    var ts := Logical(base, s'.commits);
    assert CatalogOk(cat);
    hide Runs, Careful, Contents, Image, Entries, Logical, InRange, CatalogOk;
    RunTables(cat, base, s, steps, s');
    ExtendedInitial(cat, ts, s', t, name, def, Image(def, Within(ts[t], lo, hi)));
    Backfill.BackfillComplete(def, ts[t], lo, hi);
  }

  lemma RunTables(cat: Catalog, base: Tables, s: State, steps: seq<Step>, s': State)
    requires Initial(cat, base, s) && Runs(cat, s, steps, s') && Careful(cat, s, steps) && s'.writer.None?
    ensures TablesOk(cat, Logical(base, s'.commits))
    ensures forall e :: e in s'.engines <==> IsEngine(cat, e)
    ensures forall e :: e in s'.engines ==> s'.engines[e] == Contents(cat, Logical(base, s'.commits), e)
  {
    InitialInv(cat, base, s);
    RunKeeps(cat, base, s, steps, s');
    LogicalOk(cat, base, s'.commits, |s'.commits|);
    assert s'.commits[..|s'.commits|] == s'.commits;
    hide Initial, Runs, Careful, Contents, Logical, TablesOk;
    forall e | e in s'.engines ensures s'.engines[e] == Contents(cat, Logical(base, s'.commits), e) {
      EveryRunKeepsEnginesInStep(cat, base, s, steps, s', e);
    }
  }

  /** After a complete backfill and any number of later commits the index is the index of the live rows. */
  lemma CreatedIndexFollows(cat: Catalog, base: Tables, s: State, steps: seq<Step>, s': State, t: string, name: string,
      def: IndexDef, lo: DbKey, hi: DbKey, later: seq<Step>, s'': State)
    requires Initial(cat, base, s) && Runs(cat, s, steps, s') && Careful(cat, s, steps) && s'.writer.None?
    requires t in cat && name !in cat[t].indexes && t in Logical(base, s'.commits)
    requires var ts := Logical(base, s'.commits);
             var cat', start := WithIndex(cat, t, name, def), Extended(s', t, name, Image(def, Within(ts[t], lo, hi)));
             && (forall pk :: pk in ts[t] && !InRange(pk, lo, hi) ==> Entries(def, pk, ts[t][pk]) == map[])
             && Runs(cat', start, later, s'') && Careful(cat', start, later) && s''.writer.None?
    ensures var now := Logical(Logical(base, s'.commits), s''.commits);
            && t in now && Index(t, name) in s''.engines && s''.engines[Index(t, name)] == Image(def, now[t])
  {
    hide Runs, Careful, Contents, Image, Entries, Logical, InRange, Initial;
    var ts := Logical(base, s'.commits);
    var cat', start := WithIndex(cat, t, name, def), Extended(s', t, name, Image(def, Within(ts[t], lo, hi)));
    CreatedIndexStarts(cat, base, s, steps, s', t, name, def, lo, hi);
    ExtendedEngines(cat, t, name, def, Index(t, name));
    EveryRunKeepsEnginesInStep(cat', ts, start, later, s'', Index(t, name));
    NewContents(cat, t, name, def, Logical(ts, s''.commits));
  }
}
