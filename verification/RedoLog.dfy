/** The redo log: what a surviving engine may look like, and why replaying the log repairs it. */
module RedoLog {
  import opened Values
  import opened Schemas
  import opened Indexes
  import opened Stores

  /** A durable commit: its row changes and the old rows of the tables in which it found any. */
  datatype Record = Prepared(changes: Buffer, prior: Option<Tables>)

  /** The logical tables after the first n records. */
  function TablesAt(base: Tables, log: seq<Record>, n: nat): Tables
    requires n <= |log|
  {
    if n == 0 then base else ApplyBuffer(TablesAt(base, log, n - 1), log[n - 1].changes)
  }

  function RowAt(base: Tables, log: seq<Record>, n: nat, t: string, k: DbKey): Option<Row>
    requires n <= |log|
  {
    var ts := TablesAt(base, log, n);
    if t in ts then Lookup(ts[t], k) else None
  }

  /** The old rows a commit logs; a table without old rows has no entry at all. */
  function LoggedPriors(ts: Tables, buf: Buffer): Tables
  {
    map t | t in buf && t in ts && Preimages(ts[t], buf[t]) != map[] :: Preimages(ts[t], buf[t])
  }

  /** Records as a commit writes them, or without any old rows. */
  ghost predicate LogWritten(cat: Catalog, base: Tables, log: seq<Record>)
  {
    && CatalogOk(cat) && TablesOk(cat, base)
    && forall i :: 0 <= i < |log| ==>
         BufferOk(cat, log[i].changes) &&
         (log[i].prior.Some? ==> log[i].prior.value == LoggedPriors(TablesAt(base, log, i), log[i].changes))
  }

  ghost predicate PriorsLogged(log: seq<Record>)
  {
    forall i :: 0 <= i < |log| ==> log[i].prior.Some?
  }

  lemma {:induction false} TablesAtOk(cat: Catalog, base: Tables, log: seq<Record>, n: nat)
    requires LogWritten(cat, base, log) && n <= |log|
    ensures TablesOk(cat, TablesAt(base, log, n))
  {
    if n > 0 {
      TablesAtOk(cat, base, log, n - 1);
      ApplyBufferOk(cat, TablesAt(base, log, n - 1), log[n - 1].changes);
    }
  }

  lemma {:induction false} TablesAtPrefix(base: Tables, log: seq<Record>, more: seq<Record>, n: nat)
    requires n <= |log|
    ensures TablesAt(base, log + more, n) == TablesAt(base, log, n)
  {
    if n > 0 {
      TablesAtPrefix(base, log, more, n - 1);
    }
  }

  // ---------- Cells ----------

  /** The primary key a cell of engine e belongs to. */
  function PkIn(e: EngineId, x: DbKey): DbKey
  {
    if e.Group? then x else PkOf(x)
  }

  /** What engine e stores at x when the cell's row is the given one. */
  function CellAt(cat: Catalog, e: EngineId, row: Option<Row>, x: DbKey): Option<Stored>
    requires IsEngine(cat, e)
  {
    match e
    case Group(t, g) =>
      if row.Some? && |row.value| == |cat[t].columns| then Some(SubRow(Split(cat[t].columns, row.value, g))) else None
    case Index(t, i) => EntryAt(cat[t].indexes[i], row, x)
  }

  lemma ContentsAt(cat: Catalog, ts: Tables, e: EngineId, x: DbKey)
    requires TablesOk(cat, ts) && IsEngine(cat, e)
    ensures Lookup(Contents(cat, ts, e), x) == CellAt(cat, e, Lookup(ts[e.table], PkIn(e, x)), x)
  {
  }

  ghost predicate TouchedIn(log: seq<Record>, from: nat, to: nat, t: string, k: DbKey)
    requires from <= to <= |log|
  {
    exists m :: from <= m < to && t in log[m].changes && k in log[m].changes[t]
  }

  /** Some version of the row, from record n on, has an entry at x. */
  ghost predicate Possible(cat: Catalog, base: Tables, log: seq<Record>, n: nat, e: EngineId, x: DbKey)
    requires n <= |log| && IsEngine(cat, e)
  {
    exists j :: n <= j <= |log| && CellAt(cat, e, RowAt(base, log, j, e.table, PkIn(e, x)), x).Some?
  }

  /**
   One cell of a surviving or half-repaired engine after records 0..n-1 were replayed: it is stale
   only with respect to later versions, exact where a replayed record wrote, and exact where no
   record ever wrote.
   */
  ghost predicate CellProgress(cat: Catalog, base: Tables, log: seq<Record>, n: nat, e: EngineId, x: DbKey,
      v: Option<Stored>)
    requires n <= |log| && IsEngine(cat, e)
  {
    var k := PkIn(e, x);
    var now := CellAt(cat, e, RowAt(base, log, n, e.table, k), x);
    && (v.Some? ==> Possible(cat, base, log, n, e, x))
    && (TouchedIn(log, 0, n, e.table, k) && now.Some? ==> v == now)
    && (!TouchedIn(log, 0, |log|, e.table, k) ==> v == now)
  }

  ghost predicate Progress(cat: Catalog, base: Tables, log: seq<Record>, n: nat, e: EngineId, m: Engine)
    requires n <= |log| && IsEngine(cat, e)
  {
    forall x {:trigger CellProgress(cat, base, log, n, e, x, Lookup(m, x))} ::
      CellProgress(cat, base, log, n, e, x, Lookup(m, x))
  }

  // ---------- What a batch of record n does, whichever old rows it was built from ----------

  ghost predicate CellRedone(cat: Catalog, base: Tables, log: seq<Record>, n: nat, e: EngineId, d: Delta, x: DbKey)
    requires n < |log| && IsEngine(cat, e)
  {
    var k := PkIn(e, x);
    var before := CellAt(cat, e, RowAt(base, log, n, e.table, k), x);
    var after := CellAt(cat, e, RowAt(base, log, n + 1, e.table, k), x);
    && (x in d ==> TouchedIn(log, n, n + 1, e.table, k) && d[x] == after)
    && (TouchedIn(log, n, n + 1, e.table, k) && after.Some? ==> x in d)
    && (TouchedIn(log, n, n + 1, e.table, k) && before.Some? && !Possible(cat, base, log, n + 1, e, x) ==> x in d)
  }

  /** The batch writes the new version's cells and drops every cell of the version before that no later
      version has again. */
  ghost predicate Redoes(cat: Catalog, base: Tables, log: seq<Record>, n: nat, e: EngineId, d: Delta)
    requires n < |log| && IsEngine(cat, e)
  {
    forall x {:trigger CellRedone(cat, base, log, n, e, d, x)} :: CellRedone(cat, base, log, n, e, d, x)
  }

  lemma RowStep(base: Tables, log: seq<Record>, n: nat, t: string, k: DbKey)
    requires n < |log| && t in TablesAt(base, log, n)
    ensures var ch := log[n].changes;
            RowAt(base, log, n + 1, t, k) ==
            if t in ch && k in ch[t] then ch[t][k] else RowAt(base, log, n, t, k)
  {
  }

  lemma TouchStep(log: seq<Record>, n: nat, t: string, k: DbKey)
    requires n < |log|
    ensures TouchedIn(log, n, n + 1, t, k) <==> t in log[n].changes && k in log[n].changes[t]
    ensures TouchedIn(log, 0, n + 1, t, k) <==> TouchedIn(log, 0, n, t, k) || TouchedIn(log, n, n + 1, t, k)
  {
    if t in log[n].changes && k in log[n].changes[t] {
      assert n <= n < n + 1;
    }
  }

  /** Replaying record n over a repaired-up-to-n engine repairs it up to n + 1. */
  lemma ProgressStep(cat: Catalog, base: Tables, log: seq<Record>, n: nat, e: EngineId, m: Engine, d: Delta)
    requires LogWritten(cat, base, log) && n < |log| && IsEngine(cat, e)
    requires Progress(cat, base, log, n, e, m) && Redoes(cat, base, log, n, e, d)
    ensures Progress(cat, base, log, n + 1, e, Patch(m, d))
  {
    forall x ensures CellProgress(cat, base, log, n + 1, e, x, Lookup(Patch(m, d), x)) {
      CellStep(cat, base, log, n, e, m, d, x);
    }
  }

  lemma PossibleStep(cat: Catalog, base: Tables, log: seq<Record>, n: nat, e: EngineId, x: DbKey)
    requires n < |log| && IsEngine(cat, e)
    ensures Possible(cat, base, log, n, e, x) <==>
            CellAt(cat, e, RowAt(base, log, n, e.table, PkIn(e, x)), x).Some? || Possible(cat, base, log, n + 1, e, x)
  {
    hide CellAt, RowAt;
    if Possible(cat, base, log, n, e, x) {
      var j :| n <= j <= |log| && CellAt(cat, e, RowAt(base, log, j, e.table, PkIn(e, x)), x).Some?;
    }
  }

  lemma PossibleNow(cat: Catalog, base: Tables, log: seq<Record>, n: nat, e: EngineId, x: DbKey)
    requires n <= |log| && IsEngine(cat, e) && CellAt(cat, e, RowAt(base, log, n, e.table, PkIn(e, x)), x).Some?
    ensures Possible(cat, base, log, n, e, x)
  {
  }

  lemma TouchedWithin(log: seq<Record>, n: nat, t: string, k: DbKey)
    requires n < |log| && TouchedIn(log, n, n + 1, t, k)
    ensures TouchedIn(log, 0, |log|, t, k)
  {
    assert t in log[n].changes && k in log[n].changes[t];
  }

  /** The value a replayed batch leaves in one cell. */
  lemma CellMoves(cat: Catalog, base: Tables, log: seq<Record>, n: nat, e: EngineId, d: Delta, x: DbKey,
      v: Option<Stored>)
    requires LogWritten(cat, base, log) && n < |log| && IsEngine(cat, e)
    requires CellProgress(cat, base, log, n, e, x, v) && CellRedone(cat, base, log, n, e, d, x)
    ensures CellProgress(cat, base, log, n + 1, e, x, if x in d then d[x] else v)
  {
    hide Possible, CellAt, RowAt, TablesAt, LogWritten, TouchedIn;
    var k := PkIn(e, x);
    SameCell(cat, base, log, n, e, x);
    TouchStep(log, n, e.table, k);
    PossibleStep(cat, base, log, n, e, x);
    if CellAt(cat, e, RowAt(base, log, n + 1, e.table, k), x).Some? {
      PossibleNow(cat, base, log, n + 1, e, x);
    }
    if TouchedIn(log, n, n + 1, e.table, k) {
      TouchedWithin(log, n, e.table, k);
    }
  }

  lemma SameCell(cat: Catalog, base: Tables, log: seq<Record>, n: nat, e: EngineId, x: DbKey)
    requires LogWritten(cat, base, log) && n < |log| && IsEngine(cat, e)
    ensures !TouchedIn(log, n, n + 1, e.table, PkIn(e, x)) ==>
            RowAt(base, log, n + 1, e.table, PkIn(e, x)) == RowAt(base, log, n, e.table, PkIn(e, x))
  {
    TablesAtOk(cat, base, log, n);
    RowStep(base, log, n, e.table, PkIn(e, x));
    TouchStep(log, n, e.table, PkIn(e, x));
  }

  lemma CellStep(cat: Catalog, base: Tables, log: seq<Record>, n: nat, e: EngineId, m: Engine, d: Delta, x: DbKey)
    requires LogWritten(cat, base, log) && n < |log| && IsEngine(cat, e)
    requires Progress(cat, base, log, n, e, m) && Redoes(cat, base, log, n, e, d)
    ensures CellProgress(cat, base, log, n + 1, e, x, Lookup(Patch(m, d), x))
  {
    hide CellProgress, CellRedone, LogWritten;
    assert CellProgress(cat, base, log, n, e, x, Lookup(m, x));
    assert CellRedone(cat, base, log, n, e, d, x);
    CellMoves(cat, base, log, n, e, d, x, Lookup(m, x));
  }

  /** Once every record is replayed, the engine holds exactly the tables of all records. */
  lemma ProgressEnd(cat: Catalog, base: Tables, log: seq<Record>, e: EngineId, m: Engine)
    requires LogWritten(cat, base, log) && IsEngine(cat, e) && Progress(cat, base, log, |log|, e, m)
    ensures TablesOk(cat, TablesAt(base, log, |log|))
    ensures m == Contents(cat, TablesAt(base, log, |log|), e)
  {
    TablesAtOk(cat, base, log, |log|);
    forall x ensures Lookup(m, x) == Lookup(Contents(cat, TablesAt(base, log, |log|), e), x) {
      assert CellProgress(cat, base, log, |log|, e, x, Lookup(m, x));
      CellEnd(cat, base, log, e, x, Lookup(m, x));
    }
    MapsEqual(m, Contents(cat, TablesAt(base, log, |log|), e));
  }

  lemma CellEnd(cat: Catalog, base: Tables, log: seq<Record>, e: EngineId, x: DbKey, v: Option<Stored>)
    requires IsEngine(cat, e) && CellProgress(cat, base, log, |log|, e, x, v)
    requires TablesOk(cat, TablesAt(base, log, |log|))
    ensures v == Lookup(Contents(cat, TablesAt(base, log, |log|), e), x)
  {
    hide Contents, CellAt, PkIn, TablesAt, TouchedIn;
    ContentsAt(cat, TablesAt(base, log, |log|), e, x);
  }

  // ---------- Surviving engines ----------

  ghost predicate CellAdmissible(cat: Catalog, base: Tables, log: seq<Record>, e: EngineId, d: Delta, x: DbKey)
    requires IsEngine(cat, e)
  {
    x in d ==>
      TouchedIn(log, 0, |log|, e.table, PkIn(e, x)) && (d[x].Some? ==> Possible(cat, base, log, 0, e, x))
  }

  /** A batch that only touches rows of the log and only puts entries of logged versions. */
  ghost predicate Admissible(cat: Catalog, base: Tables, log: seq<Record>, e: EngineId, d: Delta)
    requires IsEngine(cat, e)
  {
    forall x {:trigger CellAdmissible(cat, base, log, e, d, x)} :: CellAdmissible(cat, base, log, e, d, x)
  }

  lemma RedoesAdmissible(cat: Catalog, base: Tables, log: seq<Record>, n: nat, e: EngineId, d: Delta)
    requires n < |log| && IsEngine(cat, e) && Redoes(cat, base, log, n, e, d)
    ensures Admissible(cat, base, log, e, d)
  {
    forall x ensures CellAdmissible(cat, base, log, e, d, x) {
      assert CellRedone(cat, base, log, n, e, d, x);
      if x in d {
        var k := PkIn(e, x);
        var m :| n <= m < n + 1 && e.table in log[m].changes && k in log[m].changes[e.table];
        assert 0 <= m < |log|;
      }
    }
  }

  /** No batch, new or replayed, leads outside the engines that replay can repair. */
  lemma AdmissibleKeepsStart(cat: Catalog, base: Tables, log: seq<Record>, e: EngineId, m: Engine, d: Delta)
    requires IsEngine(cat, e) && Progress(cat, base, log, 0, e, m) && Admissible(cat, base, log, e, d)
    ensures Progress(cat, base, log, 0, e, Patch(m, d))
  {
    forall x ensures CellProgress(cat, base, log, 0, e, x, Lookup(Patch(m, d), x)) {
      assert CellProgress(cat, base, log, 0, e, x, Lookup(m, x));
      assert CellAdmissible(cat, base, log, e, d, x);
    }
  }

  lemma FreshStart(cat: Catalog, base: Tables, e: EngineId)
    requires CatalogOk(cat) && TablesOk(cat, base) && IsEngine(cat, e)
    ensures Progress(cat, base, [], 0, e, Contents(cat, base, e))
  {
    forall x ensures CellProgress(cat, base, [], 0, e, x, Lookup(Contents(cat, base, e), x)) {
      ContentsAt(cat, base, e, x);
    }
  }

  /** Appending a record to the log widens what may survive. */
  lemma LogGrows(cat: Catalog, base: Tables, log: seq<Record>, r: Record, e: EngineId, m: Engine)
    requires IsEngine(cat, e) && Progress(cat, base, log, 0, e, m)
    ensures Progress(cat, base, log + [r], 0, e, m)
  {
    forall x ensures CellProgress(cat, base, log + [r], 0, e, x, Lookup(m, x)) {
      assert CellProgress(cat, base, log, 0, e, x, Lookup(m, x));
      if Possible(cat, base, log, 0, e, x) {
        PossibleGrows(cat, base, log, r, e, x);
      }
      if TouchedIn(log, 0, |log|, e.table, PkIn(e, x)) {
        TouchedGrows(log, r, e.table, PkIn(e, x));
      }
    }
  }

  lemma PossibleGrows(cat: Catalog, base: Tables, log: seq<Record>, r: Record, e: EngineId, x: DbKey)
    requires IsEngine(cat, e) && Possible(cat, base, log, 0, e, x)
    ensures Possible(cat, base, log + [r], 0, e, x)
  {
    var j :| 0 <= j <= |log| && CellAt(cat, e, RowAt(base, log, j, e.table, PkIn(e, x)), x).Some?;
    TablesAtPrefix(base, log, [r], j);
    assert RowAt(base, log + [r], j, e.table, PkIn(e, x)) == RowAt(base, log, j, e.table, PkIn(e, x));
  }

  lemma TouchedGrows(log: seq<Record>, r: Record, t: string, k: DbKey)
    requires TouchedIn(log, 0, |log|, t, k)
    ensures TouchedIn(log + [r], 0, |log| + 1, t, k)
  {
    var m :| 0 <= m < |log| && t in log[m].changes && k in log[m].changes[t];
    assert (log + [r])[m] == log[m];
  }

  lemma AdmissibleGrows(cat: Catalog, base: Tables, log: seq<Record>, r: Record, e: EngineId, d: Delta)
    requires IsEngine(cat, e) && Admissible(cat, base, log, e, d)
    ensures Admissible(cat, base, log + [r], e, d)
  {
    forall x ensures CellAdmissible(cat, base, log + [r], e, d, x) {
      assert CellAdmissible(cat, base, log, e, d, x);
      if x in d {
        TouchedGrows(log, r, e.table, PkIn(e, x));
        if d[x].Some? {
          PossibleGrows(cat, base, log, r, e, x);
        }
      }
    }
  }

  // ---------- Batches built by write_batch ----------

  /** The old rows that write_batch works from: the logged ones, or whatever the live engines hold now. */
  function PriorsFor(cat: Catalog, r: Record, t: string, live: Fetch): Table
    requires t in cat && t in r.changes
  {
    if r.prior.Some? && t in r.prior.value then r.prior.value[t]
    else FetchedTable(cat, live, t, r.changes[t])
  }

  /** The batch that write_batch sends to one engine of a table for the given changes and old rows. */
  function TableBatch(cat: Catalog, e: EngineId, ch: Changes, prior: Table): Delta
    requires IsEngine(cat, e) && forall k :: k in ch && ch[k].Some? ==> |ch[k].value| == |cat[e.table].columns|
  {
    match e
    case Group(t, g) => GroupDelta(cat[t].columns, g, ch)
    case Index(t, i) => IndexDelta(cat[t].indexes[i], ch, prior)
  }

  /** The batch for engine e when record r's changes to e's table are written with the given old rows. */
  function RedoBatch(cat: Catalog, r: Record, e: EngineId, prior: Table): Delta
    requires BufferOk(cat, r.changes) && IsEngine(cat, e)
  {
    if e.table !in r.changes then map[] else TableBatch(cat, e, r.changes[e.table], prior)
  }

  /**
   Old rows are either the logged pre-images, or they were refetched because the record found no
   old row at all in that table; then they may come from any newer mixture of engines.
   */
  ghost predicate PriorsUsable(base: Tables, log: seq<Record>, n: nat, t: string, prior: Table)
    requires n < |log|
  {
    t in log[n].changes ==>
      forall k :: k in log[n].changes[t] && RowAt(base, log, n, t, k).Some? ==> Lookup(prior, k) == RowAt(base, log, n, t, k)
  }

  lemma PriorsForUsable(cat: Catalog, base: Tables, log: seq<Record>, n: nat, t: string, live: Fetch)
    requires LogWritten(cat, base, log) && n < |log| && log[n].prior.Some? && t in cat && t in log[n].changes
    ensures PriorsUsable(base, log, n, t, PriorsFor(cat, log[n], t, live))
  {
    var ts := TablesAt(base, log, n);
    TablesAtOk(cat, base, log, n);
    forall k | k in log[n].changes[t] && RowAt(base, log, n, t, k).Some?
      ensures Lookup(PriorsFor(cat, log[n], t, live), k) == RowAt(base, log, n, t, k)
    {
      var pre := Preimages(ts[t], log[n].changes[t]);
      assert k in pre;
      assert t in LoggedPriors(ts, log[n].changes);
    }
  }

  /** The old rows tell an index which entries to drop: those that no later version has again. */
  ghost predicate PriorsServe(cat: Catalog, base: Tables, log: seq<Record>, n: nat, e: EngineId, prior: Table)
    requires n < |log| && IsEngine(cat, e)
  {
    forall x :: CellServed(cat, base, log, n, e, prior, x)
  }

  ghost predicate CellServed(cat: Catalog, base: Tables, log: seq<Record>, n: nat, e: EngineId, prior: Table, x: DbKey)
    requires n < |log| && IsEngine(cat, e)
  {
    var k := PkIn(e, x);
    && e.Index? && TouchedIn(log, n, n + 1, e.table, k)
    && CellAt(cat, e, RowAt(base, log, n, e.table, k), x).Some?
    && !Possible(cat, base, log, n + 1, e, x)
    ==> Lookup(prior, k) == RowAt(base, log, n, e.table, k)
  }

  /** With old rows that serve, the batch redoes its record. */
  lemma ServedBatchRedoes(cat: Catalog, base: Tables, log: seq<Record>, n: nat, e: EngineId, prior: Table)
    requires LogWritten(cat, base, log) && n < |log| && IsEngine(cat, e)
    requires PriorsServe(cat, base, log, n, e, prior)
    ensures Redoes(cat, base, log, n, e, RedoBatch(cat, log[n], e, prior))
  {
    hide Possible;
    var d := RedoBatch(cat, log[n], e, prior);
    TablesAtOk(cat, base, log, n);
    forall x ensures CellRedone(cat, base, log, n, e, d, x)
    {
      RowStep(base, log, n, e.table, PkIn(e, x));
      TouchStep(log, n, e.table, PkIn(e, x));
      assert CellServed(cat, base, log, n, e, prior, x);
    }
  }

  /** With usable old rows the batch redoes its record. */
  lemma BatchRedoes(cat: Catalog, base: Tables, log: seq<Record>, n: nat, e: EngineId, prior: Table)
    requires LogWritten(cat, base, log) && n < |log| && IsEngine(cat, e)
    requires PriorsUsable(base, log, n, e.table, prior)
    ensures Redoes(cat, base, log, n, e, RedoBatch(cat, log[n], e, prior))
  {
    forall x ensures CellServed(cat, base, log, n, e, prior, x) {
      TouchStep(log, n, e.table, PkIn(e, x));
    }
    ServedBatchRedoes(cat, base, log, n, e, prior);
  }

  /** A record that does not touch an engine's table moves that engine on for free. */
  lemma UntouchedProgress(cat: Catalog, base: Tables, log: seq<Record>, n: nat, e: EngineId, m: Engine)
    requires LogWritten(cat, base, log) && n < |log| && IsEngine(cat, e) && e.table !in log[n].changes
    requires Progress(cat, base, log, n, e, m)
    ensures Progress(cat, base, log, n + 1, e, m)
  {
    BatchRedoes(cat, base, log, n, e, map[]);
    ProgressStep(cat, base, log, n, e, m, map[]);
    MapsEqual(Patch(m, map[]), m);
  }
}
