/**
 Replaying a log as a function of the engines it starts from. A record without old rows is replayed
 from whatever the live groups hold; exactly when that can leave an index entry behind is shown here.
 */
module Replay {
  import opened Values
  import opened Schemas
  import opened Indexes
  import opened Stores
  import opened RedoLog

  type Engines = map<EngineId, Engine>

  predicate LogFits(cat: Catalog, log: seq<Record>)
  {
    forall i :: 0 <= i < |log| ==> BufferOk(cat, log[i].changes)
  }

  /** Every engine takes its batch of the record, built from the logged old rows or the live ones. */
  function ReplayOne(cat: Catalog, r: Record, engines: Engines): (after: Engines)
    requires BufferOk(cat, r.changes)
    ensures after.Keys == engines.Keys
  {
    map e | e in engines ::
      if IsEngine(cat, e) && e.table in r.changes
      then Patch(engines[e], RedoBatch(cat, r, e, PriorsFor(cat, r, e.table, engines)))
      else engines[e]
  }

  function Replayed(cat: Catalog, log: seq<Record>, n: nat, engines: Engines): (after: Engines)
    requires LogFits(cat, log) && n <= |log|
    ensures after.Keys == engines.Keys
  {
    if n == 0 then engines else ReplayOne(cat, log[n - 1], Replayed(cat, log, n - 1, engines))
  }

  /** Engines that a crash may leave: each survived at some point of its own. */
  ghost predicate Survivors(cat: Catalog, base: Tables, log: seq<Record>, engines: Engines)
  {
    && (forall e :: e in engines <==> IsEngine(cat, e))
    && forall e :: e in engines ==> Progress(cat, base, log, 0, e, engines[e])
  }

  /** Whatever survived, replaying the log gives the tables and indexes of all its records. */
  ghost predicate Recovers(cat: Catalog, base: Tables, log: seq<Record>)
    requires LogWritten(cat, base, log)
  {
    TablesOk(cat, TablesAt(base, log, |log|)) &&
    forall engines, e :: Survivors(cat, base, log, engines) && IsEngine(cat, e) ==>
      e in engines && Replayed(cat, log, |log|, engines)[e] == Contents(cat, TablesAt(base, log, |log|), e)
  }

  /** Record n has no old rows and is the first to change a row; the row had an index entry at x that no
      later version of it has. */
  ghost predicate Exposed(cat: Catalog, base: Tables, log: seq<Record>, n: nat, e: EngineId, x: DbKey)
  {
    && n < |log| && IsEngine(cat, e) && e.Index? && log[n].prior.None?
    && TouchedIn(log, n, n + 1, e.table, PkIn(e, x)) && !TouchedIn(log, 0, n, e.table, PkIn(e, x))
    && CellAt(cat, e, RowAt(base, log, n, e.table, PkIn(e, x)), x).Some?
    && !Possible(cat, base, log, n + 1, e, x)
  }

  // ---------- Without exposed entries every survivor is repaired ----------

  /** A row written by a replayed record is read back from its groups. */
  lemma LiveRow(cat: Catalog, base: Tables, log: seq<Record>, n: nat, engines: Engines, t: string, k: DbKey)
    requires LogWritten(cat, base, log) && n <= |log| && t in cat
    requires forall g :: g in Groups(cat[t].columns) ==>
      Group(t, g) in engines && Progress(cat, base, log, n, Group(t, g), engines[Group(t, g)])
    requires TouchedIn(log, 0, n, t, k) && RowAt(base, log, n, t, k).Some?
    ensures FetchedRow(cat, engines, t, k) == RowAt(base, log, n, t, k)
  {
    var ts := TablesAt(base, log, n);
    TablesAtOk(cat, base, log, n);
    forall g | g in Groups(cat[t].columns)
      ensures Group(t, g) in engines && Lookup(engines[Group(t, g)], k) == Lookup(Contents(cat, ts, Group(t, g)), k)
    {
      var e := Group(t, g);
      ContentsAt(cat, ts, e, k);
      assert CellProgress(cat, base, log, n, e, k, Lookup(engines[e], k));
    }
    FetchedOne(cat, ts, engines, t, k);
  }

  lemma PriorsForServe(cat: Catalog, base: Tables, log: seq<Record>, n: nat, engines: Engines, e: EngineId)
    requires LogWritten(cat, base, log) && n < |log| && IsEngine(cat, e) && e.table in log[n].changes
    requires forall d :: IsEngine(cat, d) ==> d in engines && Progress(cat, base, log, n, d, engines[d])
    requires forall x :: !Exposed(cat, base, log, n, e, x)
    ensures PriorsServe(cat, base, log, n, e, PriorsFor(cat, log[n], e.table, engines))
  {
    hide Possible, FetchedRow, Groups, Progress, LogWritten;
    var prior := PriorsFor(cat, log[n], e.table, engines);
    forall x ensures CellServed(cat, base, log, n, e, prior, x) {
      ServedOne(cat, base, log, n, engines, e, x);
    }
  }

  lemma ServedOne(cat: Catalog, base: Tables, log: seq<Record>, n: nat, engines: Engines, e: EngineId, x: DbKey)
    requires LogWritten(cat, base, log) && n < |log| && IsEngine(cat, e) && e.table in log[n].changes
    requires forall d :: IsEngine(cat, d) ==> d in engines && Progress(cat, base, log, n, d, engines[d])
    requires !Exposed(cat, base, log, n, e, x)
    ensures CellServed(cat, base, log, n, e, PriorsFor(cat, log[n], e.table, engines), x)
  {
    hide Possible, FetchedRow, Groups, Progress, LogWritten;
    var k := PkIn(e, x);
    TouchStep(log, n, e.table, k);
    if log[n].prior.Some? {
      PriorsForUsable(cat, base, log, n, e.table, engines);
    } else if e.Index? && TouchedIn(log, n, n + 1, e.table, k) && TouchedIn(log, 0, n, e.table, k) && RowAt(base, log, n, e.table, k).Some? {
      LiveRow(cat, base, log, n, engines, e.table, k);
    }
  }

  lemma {:induction false} ReplayProgresses(cat: Catalog, base: Tables, log: seq<Record>, n: nat, engines: Engines)
    requires LogWritten(cat, base, log) && n <= |log| && Survivors(cat, base, log, engines)
    requires forall i: nat, e, x :: !Exposed(cat, base, log, i, e, x)
    ensures forall e :: IsEngine(cat, e) ==>
      e in Replayed(cat, log, n, engines) && Progress(cat, base, log, n, e, Replayed(cat, log, n, engines)[e])
    decreases n
  {
    hide Progress, LogWritten, Exposed, IsEngine, PriorsFor, RedoBatch;
    Fits(cat, base, log);
    if n > 0 {
      ReplayProgresses(cat, base, log, n - 1, engines);
      var live := Replayed(cat, log, n - 1, engines);
      forall e | IsEngine(cat, e)
        ensures e in live && Progress(cat, base, log, n, e, ReplayOne(cat, log[n - 1], live)[e])
      {
        if e.table in log[n - 1].changes {
          PriorsForServe(cat, base, log, n - 1, live, e);
          ServedBatchRedoes(cat, base, log, n - 1, e, PriorsFor(cat, log[n - 1], e.table, live));
          ProgressStep(cat, base, log, n - 1, e, live[e], RedoBatch(cat, log[n - 1], e, PriorsFor(cat, log[n - 1], e.table, live)));
        } else {
          UntouchedProgress(cat, base, log, n - 1, e, live[e]);
        }
      }
    }
  }

  lemma Fits(cat: Catalog, base: Tables, log: seq<Record>)
    requires LogWritten(cat, base, log)
    ensures LogFits(cat, log)
  {
  }

  lemma UnexposedRecovers(cat: Catalog, base: Tables, log: seq<Record>)
    requires LogWritten(cat, base, log) && forall i: nat, e, x :: !Exposed(cat, base, log, i, e, x)
    ensures Recovers(cat, base, log)
  {
    hide Progress, LogWritten, Exposed, Replayed, TablesAt, Contents, Survivors;
    TablesAtOk(cat, base, log, |log|);
    Fits(cat, base, log);
    forall engines, e | Survivors(cat, base, log, engines) && IsEngine(cat, e)
      ensures e in engines && Replayed(cat, log, |log|, engines)[e] == Contents(cat, TablesAt(base, log, |log|), e)
    {
      ReplayProgresses(cat, base, log, |log|, engines);
      ProgressEnd(cat, base, log, e, Replayed(cat, log, |log|, engines)[e]);
    }
  }

  // ---------- An exposed entry is left behind by some survivor ----------

  function AllEngines(cat: Catalog): (es: set<EngineId>)
    ensures forall e :: e in es <==> IsEngine(cat, e)
  {
    (set t, g | t in cat && g in Groups(cat[t].columns) :: Group(t, g)) +
    (set t, i | t in cat && i in cat[t].indexes :: Index(t, i))
  }

  /** The groups kept everything, the indexes nothing since the start of the log. */
  ghost function Mixed(cat: Catalog, base: Tables, log: seq<Record>): Engines
    requires TablesOk(cat, base) && TablesOk(cat, TablesAt(base, log, |log|))
  {
    map e | e in AllEngines(cat) :: Contents(cat, if e.Group? then TablesAt(base, log, |log|) else base, e)
  }

  lemma {:induction false} UntouchedRow(cat: Catalog, base: Tables, log: seq<Record>, n: nat, t: string, k: DbKey)
    requires LogWritten(cat, base, log) && n <= |log| && t in cat && !TouchedIn(log, 0, n, t, k)
    ensures RowAt(base, log, n, t, k) == RowAt(base, log, 0, t, k)
    decreases n
  {
    hide LogWritten, TablesAt;
    if n > 0 {
      TablesKnown(cat, base, log, n - 1, t);
      TouchStep(log, n - 1, t, k);
      RowStep(base, log, n - 1, t, k);
      UntouchedRow(cat, base, log, n - 1, t, k);
    }
  }

  lemma TablesKnown(cat: Catalog, base: Tables, log: seq<Record>, n: nat, t: string)
    requires LogWritten(cat, base, log) && n <= |log| && t in cat
    ensures t in TablesAt(base, log, n)
  {
    TablesAtOk(cat, base, log, n);
  }

  ghost predicate Ready(cat: Catalog, base: Tables, log: seq<Record>)
  {
    LogWritten(cat, base, log) && LogFits(cat, log) && TablesOk(cat, base) && TablesOk(cat, TablesAt(base, log, |log|))
  }

  /** The mixed survivor after n records were replayed over it. */
  ghost function MixedAt(cat: Catalog, base: Tables, log: seq<Record>, n: nat): Engines
    requires Ready(cat, base, log) && n <= |log|
  {
    Replayed(cat, log, n, Mixed(cat, base, log))
  }

  lemma PossibleFrom(cat: Catalog, base: Tables, log: seq<Record>, j: nat, e: EngineId, x: DbKey)
    requires j <= |log| && IsEngine(cat, e) && CellAt(cat, e, RowAt(base, log, j, e.table, PkIn(e, x)), x).Some?
    ensures Possible(cat, base, log, 0, e, x)
  {
  }

  lemma VersionCell(cat: Catalog, base: Tables, log: seq<Record>, j: nat, e: EngineId, x: DbKey)
    requires LogWritten(cat, base, log) && (j == 0 || j == |log|) && IsEngine(cat, e)
    ensures CellProgress(cat, base, log, 0, e, x, CellAt(cat, e, RowAt(base, log, j, e.table, PkIn(e, x)), x))
  {
    hide CellAt, RowAt, Possible, LogWritten;
    if CellAt(cat, e, RowAt(base, log, j, e.table, PkIn(e, x)), x).Some? {
      PossibleFrom(cat, base, log, j, e, x);
    }
    if !TouchedIn(log, 0, |log|, e.table, PkIn(e, x)) {
      UntouchedRow(cat, base, log, |log|, e.table, PkIn(e, x));
    }
  }

  lemma VersionContents(cat: Catalog, base: Tables, log: seq<Record>, j: nat, e: EngineId, x: DbKey)
    requires j <= |log| && TablesOk(cat, TablesAt(base, log, j)) && IsEngine(cat, e)
    ensures Lookup(Contents(cat, TablesAt(base, log, j), e), x) == CellAt(cat, e, RowAt(base, log, j, e.table, PkIn(e, x)), x)
  {
    ContentsAt(cat, TablesAt(base, log, j), e, x);
  }

  lemma MixedSurvives(cat: Catalog, base: Tables, log: seq<Record>)
    requires Ready(cat, base, log)
    ensures Survivors(cat, base, log, Mixed(cat, base, log))
  {
    hide LogWritten, Contents, TablesOk, CellProgress, CellAt, RowAt, IsEngine;
    var engines := Mixed(cat, base, log);
    forall e | e in engines ensures Progress(cat, base, log, 0, e, engines[e]) {
      var j := if e.Group? then |log| else 0;
      forall x ensures CellProgress(cat, base, log, 0, e, x, Lookup(engines[e], x)) {
        VersionContents(cat, base, log, j, e, x);
        VersionCell(cat, base, log, j, e, x);
      }
    }
  }

  /** What one record does to one group cell. */
  lemma GroupCell(cat: Catalog, r: Record, live: Engines, e: EngineId, k: DbKey)
    requires BufferOk(cat, r.changes) && e.Group? && IsEngine(cat, e) && e in live
    ensures Lookup(ReplayOne(cat, r, live)[e], k) ==
            if e.table in r.changes && k in r.changes[e.table] then CellAt(cat, e, r.changes[e.table][k], k) else Lookup(live[e], k)
  {
    hide PriorsFor, Split, Groups;
  }

  /** Group cells under replay: exact once a record wrote them, unchanged before. */
  lemma {:induction false} GroupReplayed(cat: Catalog, base: Tables, log: seq<Record>, n: nat, engines: Engines, e: EngineId, k: DbKey)
    requires LogWritten(cat, base, log) && LogFits(cat, log) && n <= |log| && e.Group? && IsEngine(cat, e) && e in engines
    ensures Lookup(Replayed(cat, log, n, engines)[e], k) ==
            if TouchedIn(log, 0, n, e.table, k) then CellAt(cat, e, RowAt(base, log, n, e.table, k), k) else Lookup(engines[e], k)
    decreases n
  {
    hide LogWritten, TablesAt, ReplayOne, CellAt, RowAt, IsEngine;
    if n > 0 {
      InCatalog(cat, e);
      TablesKnown(cat, base, log, n - 1, e.table);
      TouchStep(log, n - 1, e.table, k);
      RowStep(base, log, n - 1, e.table, k);
      GroupReplayed(cat, base, log, n - 1, engines, e, k);
      GroupCell(cat, log[n - 1], Replayed(cat, log, n - 1, engines), e, k);
    }
  }

  lemma InCatalog(cat: Catalog, e: EngineId)
    requires IsEngine(cat, e)
    ensures e.table in cat
  {
  }

  /** The row that the live groups give while the mixed survivor is replayed. */
  lemma MixedLive(cat: Catalog, base: Tables, log: seq<Record>, n: nat, t: string, k: DbKey)
    requires Ready(cat, base, log) && n <= |log| && t in cat
    ensures FetchedRow(cat, MixedAt(cat, base, log, n), t, k) ==
            RowAt(base, log, if TouchedIn(log, 0, n, t, k) then n else |log|, t, k)
  {
    hide LogWritten, Contents, TablesAt, FetchedRow, Replayed, TablesOk, Groups;
    var j := if TouchedIn(log, 0, n, t, k) then n else |log|;
    var live, ts := MixedAt(cat, base, log, n), TablesAt(base, log, j);
    TablesAtOk(cat, base, log, j);
    forall g | g in Groups(cat[t].columns)
      ensures Group(t, g) in live && Lookup(live[Group(t, g)], k) == Lookup(Contents(cat, ts, Group(t, g)), k)
    {
      var e := Group(t, g);
      assert e in Mixed(cat, base, log);
      GroupReplayed(cat, base, log, n, Mixed(cat, base, log), e, k);
      ContentsAt(cat, ts, e, k);
      TablesKnown(cat, base, log, j, t);
    }
    CatalogKnown(cat, base, log, j, t);
    FetchedOne(cat, ts, live, t, k);
  }

  lemma CatalogKnown(cat: Catalog, base: Tables, log: seq<Record>, n: nat, t: string)
    requires LogWritten(cat, base, log) && n <= |log| && t in cat
    ensures CatalogOk(cat) && t in TablesAt(base, log, n)
  {
    TablesAtOk(cat, base, log, n);
  }

  /** The old row that a record works from: the version before it, or the one the live groups give. */
  lemma PriorAt(cat: Catalog, base: Tables, log: seq<Record>, i: nat, t: string, k: DbKey, live: Engines)
    requires LogWritten(cat, base, log) && i < |log| && t in cat && t in log[i].changes && k in log[i].changes[t]
    ensures var prior := Lookup(PriorsFor(cat, log[i], t, live), k);
            (log[i].prior.Some? && prior == RowAt(base, log, i, t, k)) || prior == FetchedRow(cat, live, t, k)
  {
    hide FetchedRow, BufferOk, TablesOk, CatalogOk;
    TablesKnown(cat, base, log, i, t);
  }

  lemma TouchedAfter(log: seq<Record>, n: nat, i: nat, t: string, k: DbKey)
    requires n < i <= |log| && TouchedIn(log, n, n + 1, t, k)
    ensures TouchedIn(log, 0, i, t, k)
  {
    assert t in log[n].changes && k in log[n].changes[t];
  }

  lemma NoEntryLater(cat: Catalog, base: Tables, log: seq<Record>, n: nat, e: EngineId, x: DbKey, j: nat)
    requires IsEngine(cat, e) && n < j <= |log| && !Possible(cat, base, log, n + 1, e, x)
    ensures CellAt(cat, e, RowAt(base, log, j, e.table, PkIn(e, x)), x).None?
  {
    hide CellAt, RowAt;
  }

  /** Replaying any record from n on over the mixed survivor works from a row without the exposed entry. */
  lemma MixedPrior(cat: Catalog, base: Tables, log: seq<Record>, n: nat, i: nat, e: EngineId, x: DbKey)
    requires Ready(cat, base, log) && Exposed(cat, base, log, n, e, x) && n <= i < |log|
    requires e.table in log[i].changes && PkIn(e, x) in log[i].changes[e.table]
    ensures CellAt(cat, e, Lookup(PriorsFor(cat, log[i], e.table, MixedAt(cat, base, log, i)), PkIn(e, x)), x).None?
  {
    hide LogWritten, LogFits, TablesOk, FetchedRow, MixedAt, Possible, CellAt, RowAt, PriorsFor, TablesAt;
    var t, k := e.table, PkIn(e, x);
    InCatalog(cat, e);
    PriorAt(cat, base, log, i, t, k, MixedAt(cat, base, log, i));
    MixedLive(cat, base, log, i, t, k);
    if i > n {
      TouchedAfter(log, n, i, t, k);
      NoEntryLater(cat, base, log, n, e, x, i);
    } else {
      NoEntryLater(cat, base, log, n, e, x, |log|);
    }
  }

  lemma NewRow(cat: Catalog, base: Tables, log: seq<Record>, i: nat, t: string, k: DbKey)
    requires LogWritten(cat, base, log) && i < |log| && t in cat && t in log[i].changes && k in log[i].changes[t]
    ensures RowAt(base, log, i + 1, t, k) == log[i].changes[t][k]
  {
    TablesKnown(cat, base, log, i, t);
    RowStep(base, log, i, t, k);
  }

  /** An index batch leaves an entry alone when neither the old row nor the new one has it. */
  lemma BatchLeaves(cat: Catalog, r: Record, e: EngineId, prior: Table, x: DbKey)
    requires BufferOk(cat, r.changes) && IsEngine(cat, e) && e.Index? && e.table in r.changes
    requires PkIn(e, x) in r.changes[e.table] ==>
      CellAt(cat, e, Lookup(prior, PkIn(e, x)), x).None? && CellAt(cat, e, r.changes[e.table][PkIn(e, x)], x).None?
    ensures x !in RedoBatch(cat, r, e, prior)
  {
  }

  /** No batch of the replay reaches the exposed entry. */
  lemma EntryMissed(cat: Catalog, base: Tables, log: seq<Record>, n: nat, i: nat, e: EngineId, x: DbKey)
    requires Ready(cat, base, log) && Exposed(cat, base, log, n, e, x) && i < |log| && e.table in log[i].changes
    ensures x !in RedoBatch(cat, log[i], e, PriorsFor(cat, log[i], e.table, MixedAt(cat, base, log, i)))
  {
    hide LogWritten, TablesOk, FetchedRow, MixedAt, Possible, CellAt, RowAt, PriorsFor, TablesAt, RedoBatch;
    var t, k := e.table, PkIn(e, x);
    InCatalog(cat, e);
    if k in log[i].changes[t] {
      TouchStep(log, i, t, k);
      TouchedBefore(log, i, n, t, k);
      MixedPrior(cat, base, log, n, i, e, x);
      NewRow(cat, base, log, i, t, k);
      NoEntryLater(cat, base, log, n, e, x, i + 1);
    }
    BatchLeaves(cat, log[i], e, PriorsFor(cat, log[i], t, MixedAt(cat, base, log, i)), x);
  }

  lemma TouchedBefore(log: seq<Record>, i: nat, n: nat, t: string, k: DbKey)
    requires i < |log| && n <= |log| && TouchedIn(log, i, i + 1, t, k) && !TouchedIn(log, 0, n, t, k)
    ensures n <= i
  {
    assert t in log[i].changes && k in log[i].changes[t];
  }

  lemma CellUntouched(cat: Catalog, r: Record, live: Engines, e: EngineId, x: DbKey)
    requires BufferOk(cat, r.changes) && IsEngine(cat, e) && e in live
    requires e.table in r.changes ==> x !in RedoBatch(cat, r, e, PriorsFor(cat, r, e.table, live))
    ensures Lookup(ReplayOne(cat, r, live)[e], x) == Lookup(live[e], x)
  {
    hide RedoBatch, PriorsFor;
  }

  lemma {:induction false} EntryStays(cat: Catalog, base: Tables, log: seq<Record>, n: nat, i: nat, e: EngineId, x: DbKey)
    requires Ready(cat, base, log) && Exposed(cat, base, log, n, e, x) && i <= |log|
    ensures e in MixedAt(cat, base, log, i) && Lookup(MixedAt(cat, base, log, i)[e], x).Some?
    decreases i
  {
    hide *;
    if i == 0 {
      EntryStarts(cat, base, log, n, e, x);
    } else {
      EntryStays(cat, base, log, n, i - 1, e, x);
      EntryStep(cat, base, log, n, i - 1, e, x);
    }
  }

  lemma EntryStarts(cat: Catalog, base: Tables, log: seq<Record>, n: nat, e: EngineId, x: DbKey)
    requires Ready(cat, base, log) && Exposed(cat, base, log, n, e, x)
    ensures e in MixedAt(cat, base, log, 0) && Lookup(MixedAt(cat, base, log, 0)[e], x).Some?
  {
    hide LogWritten, Contents, TablesAt, TablesOk, Possible, CellAt, RowAt, IsEngine;
    InCatalog(cat, e);
    UntouchedRow(cat, base, log, n, e.table, PkIn(e, x));
    BaseEntry(cat, base, log, e, x);
  }

  lemma EntryStep(cat: Catalog, base: Tables, log: seq<Record>, n: nat, i: nat, e: EngineId, x: DbKey)
    requires Ready(cat, base, log) && Exposed(cat, base, log, n, e, x) && i < |log|
    requires e in MixedAt(cat, base, log, i) && Lookup(MixedAt(cat, base, log, i)[e], x).Some?
    ensures e in MixedAt(cat, base, log, i + 1) && Lookup(MixedAt(cat, base, log, i + 1)[e], x).Some?
  {
    hide LogWritten, TablesAt, TablesOk, Possible, PriorsFor, RedoBatch, ReplayOne, CellAt, RowAt, IsEngine, Mixed;
    if e.table in log[i].changes {
      EntryMissed(cat, base, log, n, i, e, x);
    }
    CellUntouched(cat, log[i], MixedAt(cat, base, log, i), e, x);
  }

  lemma BaseEntry(cat: Catalog, base: Tables, log: seq<Record>, e: EngineId, x: DbKey)
    requires TablesOk(cat, base) && IsEngine(cat, e)
    ensures Lookup(Contents(cat, base, e), x) == CellAt(cat, e, RowAt(base, log, 0, e.table, PkIn(e, x)), x)
  {
    ContentsAt(cat, base, e, x);
  }

  lemma ExposedBreaks(cat: Catalog, base: Tables, log: seq<Record>, n: nat, e: EngineId, x: DbKey)
    requires LogWritten(cat, base, log) && Exposed(cat, base, log, n, e, x)
    ensures !Recovers(cat, base, log)
  {
    TablesAtOk(cat, base, log, |log|);
    TablesAtOk(cat, base, log, 0);
    Fits(cat, base, log);
    hide LogWritten, Contents, TablesAt, TablesOk, Possible, Replayed, CellAt, RowAt, TouchedIn;
    MixedSurvives(cat, base, log);
    EntryStays(cat, base, log, n, |log|, e, x);
    NoEntryLater(cat, base, log, n, e, x, |log|);
    VersionContents(cat, base, log, |log|, e, x);
  }

  /** Exact: replay repairs every survivor just when no entry is exposed. */
  lemma RecoversExactly(cat: Catalog, base: Tables, log: seq<Record>)
    requires LogWritten(cat, base, log)
    ensures Recovers(cat, base, log) <==> forall n: nat, e, x :: !Exposed(cat, base, log, n, e, x)
  {
    hide LogWritten, Recovers, Exposed;
    if n: nat, e, x :| Exposed(cat, base, log, n, e, x) {
      ExposedBreaks(cat, base, log, n, e, x);
    } else {
      UnexposedRecovers(cat, base, log);
    }
  }

  /** Logs whose records all carry their old rows recover every survivor. */
  lemma LoggedRecovers(cat: Catalog, base: Tables, log: seq<Record>)
    requires LogWritten(cat, base, log) && PriorsLogged(log)
    ensures Recovers(cat, base, log)
  {
    hide LogWritten, Recovers;
    UnexposedRecovers(cat, base, log);
  }

  /** Enough for that: whatever a record without old rows changes had no row before it. */
  ghost predicate FreshWithoutPriors(base: Tables, log: seq<Record>)
  {
    forall n, t, k :: 0 <= n < |log| && log[n].prior.None? && t in log[n].changes && k in log[n].changes[t] ==>
      RowAt(base, log, n, t, k).None?
  }

  lemma FreshRecovers(cat: Catalog, base: Tables, log: seq<Record>)
    requires LogWritten(cat, base, log) && FreshWithoutPriors(base, log)
    ensures Recovers(cat, base, log)
  {
    hide LogWritten, Recovers, Possible, RowAt;
    forall n: nat, e, x ensures !Exposed(cat, base, log, n, e, x) {
      if n < |log| {
        TouchStep(log, n, e.table, PkIn(e, x));
      }
    }
    UnexposedRecovers(cat, base, log);
  }

  // ---------- The smallest log that does not recover ----------

  function IndexedTable(): Catalog
  {
    map["t" := TableDef([Column(0, "k", TInt, true, false, "", None), Column(1, "a", TInt, false, true, "", None)],
                        map["a" := BTree([1])])]
  }

  function OneRow(a: int): Tables
  {
    map["t" := map[KInt(1) := [Int(1), Int(a)]]]
  }

  /** One update of an indexed column, logged without the old row. */
  function BareUpdate(): seq<Record>
  {
    [Prepared(map["t" := map[KInt(1) := Some([Int(1), Int(2)])]], None)]
  }

  lemma EntryOf(a: int)
    ensures Entries(BTree([1]), KInt(1), [Int(1), Int(a)]).Keys == {KComposite([KInt(a), KInt(1)])}
  {
    assert [1][..0] == [];
    assert KeyParts([1], [Int(1), Int(a)]) == [KInt(a)];
    assert [KInt(a)] + [KInt(1)] == [KInt(a), KInt(1)];
  }

  lemma BareUpdateWritten()
    ensures LogWritten(IndexedTable(), OneRow(1), BareUpdate())
  {
  }

  /** The group took the update and the index did not: the old entry is never removed. */
  lemma BareUpdateExposed()
    ensures LogWritten(IndexedTable(), OneRow(1), BareUpdate())
    ensures Exposed(IndexedTable(), OneRow(1), BareUpdate(), 0, Index("t", "a"), KComposite([KInt(1), KInt(1)]))
    ensures !Recovers(IndexedTable(), OneRow(1), BareUpdate())
  {
    BareUpdateWritten();
    hide LogWritten;
    var cat, base, log, e, x := IndexedTable(), OneRow(1), BareUpdate(), Index("t", "a"), KComposite([KInt(1), KInt(1)]);
    assert "t" in log[0].changes && KInt(1) in log[0].changes["t"];
    TouchStep(log, 0, "t", KInt(1));
    EntryOf(1);
    EntryOf(2);
    assert RowAt(base, log, 0, "t", KInt(1)) == Some([Int(1), Int(1)]);
    RowStep(base, log, 0, "t", KInt(1));
    assert CellAt(cat, e, RowAt(base, log, 1, "t", KInt(1)), x).None?;
    assert !Possible(cat, base, log, 1, e, x);
    ExposedBreaks(cat, base, log, 0, e, x);
  }
}
