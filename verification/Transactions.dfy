/**
 Transactions as an interleaving of atomic steps over shared engines and the commit history.
 Reads go to live engines, also while another commit has reached only some of them.
 */
module Transactions {
  import opened Values
  import opened Indexes
  import opened Stores
  import opened Occ

  // ---------- State ----------

  /** What one engine read asked for: some keys, or a closed key range. */
  datatype Selection = Points(keys: set<DbKey>) | Span(lo: DbKey, hi: DbKey)

  predicate Selects(sel: Selection, k: DbKey)
  {
    match sel
    case Points(keys) => k in keys
    case Span(lo, hi) => InRange(k, lo, hi)
  }

  function Restrict(m: Engine, sel: Selection): (r: Engine)
    ensures forall k :: Lookup(r, k) == if Selects(sel, k) then Lookup(m, k) else None
  {
    map k | k in m && Selects(sel, k) :: m[k]
  }

  /** One engine read and everything it returned. */
  datatype Observation = Observation(engine: EngineId, sel: Selection, seen: Engine)

  /** What commit() assembles before validating: old cells, old rows, declared keys. */
  datatype Plan = Plan(fetch: Fetch, prior: Tables, keys: KeySets)

  datatype Phase =
    | Running
    | Fetching(fetch: Fetch)
    | Prepared(plan: Plan)
    | Checked(plan: Plan, snapshot: nat)
    | Limited(plan: Plan, snapshot: nat, limit: Option<nat>)
    | Applying(plan: Plan, limit: Option<nat>, pending: set<EngineId>)

  datatype Tx = Tx(
    start: nat,
    buf: Buffer,
    tracked: KeySets,
    ranges: Ranges,
    seen: seq<Observation>,
    phase: Phase)

  /** A commit that passed validation, with the reads it rests on. */
  datatype Commit = Commit(tx: nat, buf: Buffer, prior: Tables, keys: KeySets, seen: seq<Observation>)

  /** A read-only commit that passed validation when the given number of commits had been applied. */
  datatype Audit = Audit(seen: seq<Observation>, at: nat)

  /** An unregistering transaction after it left the active set: it found none left, it took the least
      start version left as its limit, or it loaded the version as its limit. */
  datatype Leaving = FoundNone | Least(limit: nat) | Loaded(limit: nat)

  /** `commits` and `audits` only record what happened; no step looks at them. */
  datatype State = State(
    version: nat,
    history: seq<CommitRecord>,
    engines: map<EngineId, Engine>,
    writer: Option<nat>,
    txs: map<nat, Tx>,
    leaving: map<nat, Leaving>,
    commits: seq<Commit>,
    audits: seq<Audit>)

  function Active(txs: map<nat, Tx>): map<nat, nat>
  {
    map t | t in txs :: txs[t].start
  }

  function AddKey(m: KeySets, space: string, k: DbKey): KeySets
  {
    m[space := (if space in m then m[space] else {}) + {k}]
  }

  function AddRange(m: Ranges, space: string, lo: DbKey, hi: DbKey): Ranges
  {
    m[space := (if space in m then m[space] else []) + [(lo, hi)]]
  }

  function Buffered(buf: Buffer, table: string, k: DbKey, change: Option<Row>): Buffer
  {
    buf[table := (if table in buf then buf[table] else map[])[k := change]]
  }

  function CommitFootprint(tx: Tx, keys: KeySets): Footprint
  {
    Footprint(tx.tracked, tx.ranges, keys)
  }

  // ---------- Steps ----------

  datatype Step =
    | Register(t: nat)
    | Leave(t: nat, m: Option<nat>)
    | LoadVersion(t: nat)
    | Prune(t: nat)
    | Write(t: nat, table: string, key: DbKey, change: Option<Row>)
    | Rollback(t: nat)
    | TrackKey(t: nat, space: string, key: DbKey)
    | TrackRange(t: nat, space: string, lo: DbKey, hi: DbKey)
    | Read(t: nat, engine: EngineId, sel: Selection)
    | BeginCommit(t: nat)
    | FetchOld(t: nat, engine: EngineId)
    | Prepare(t: nat)
    | CheckReadOnly(t: nat)
    | CheckSnapshot(t: nat)
    | TakeLimit(t: nat, m: Option<nat>)
    | CheckDelta(t: nat)
    | ApplyBatch(t: nat, engine: EngineId)
    | Finish(t: nat)

  ghost predicate Tracks(tracked: KeySets, ranges: Ranges, space: string, k: DbKey)
  {
    Touches(tracked, space, k) || Scans(ranges, space, k)
  }

  ghost predicate Enabled(cat: Catalog, s: State, step: Step)
  {
    && (step.Register? ==> step.t !in s.txs && step.t !in s.leaving && s.writer.None?)
    && (step.LoadVersion? || step.Prune? ==> step.t in s.leaving)
    && (!step.Register? && !step.LoadVersion? && !step.Prune? ==> step.t in s.txs)
    && match step
       case Register(_) => true
       case Leave(t, m) => s.txs[t].phase.Running? && IsMinStart(Active(s.txs - {t}), m)
       case LoadVersion(t) => s.leaving[t].FoundNone?
       case Prune(t) => !s.leaving[t].FoundNone? && s.writer.None?
       case Write(t, table, _, change) =>
         && s.txs[t].phase.Running? && table in cat
         && (change.Some? ==> |change.value| == |cat[table].columns|)
       case Rollback(t) => s.txs[t].phase.Running?
       case TrackKey(t, _, _) => s.txs[t].phase.Running?
       case TrackRange(t, _, _, _) => s.txs[t].phase.Running?
       case Read(t, e, sel) =>
         && s.txs[t].phase.Running? && e in s.engines
         && forall k :: Selects(sel, k) ==> Tracks(s.txs[t].tracked, s.txs[t].ranges, SpaceOf(e), k)
       case BeginCommit(t) => s.txs[t].phase.Running? && s.txs[t].buf != map[]
       case FetchOld(t, e) =>
         s.txs[t].phase.Fetching? && e.Group? && e.table in s.txs[t].buf && e in s.engines
       case Prepare(t) =>
         s.txs[t].phase.Fetching? && s.txs[t].buf.Keys <= cat.Keys &&
         FetchComplete(cat, s.txs[t].buf, s.txs[t].phase.fetch)
       case CheckReadOnly(t) => s.txs[t].phase.Running? && s.txs[t].buf == map[] && s.writer.None?
       case CheckSnapshot(t) => s.txs[t].phase.Prepared? && s.writer.None?
       case TakeLimit(t, m) => s.txs[t].phase.Checked? && IsMinStart(Active(s.txs), m)
       case CheckDelta(t) => s.txs[t].phase.Limited? && s.writer.None?
       case ApplyBatch(t, e) => s.txs[t].phase.Applying? && e in s.txs[t].phase.pending && e in s.engines
       case Finish(t) => s.txs[t].phase.Applying? && s.txs[t].phase.pending == {}
  }

  function SetTx(s: State, t: nat, tx: Tx): State
  {
    s.(txs := s.txs[t := tx])
  }

  /** The commit point: the writer holds the history lock and owes a batch to every engine. */
  function Accepted(s: State, t: nat): State
    requires t in s.txs && s.txs[t].phase.Limited?
  {
    var tx := s.txs[t];
    var plan := tx.phase.plan;
    SetTx(s, t, tx.(phase := Applying(plan, tx.phase.limit, s.engines.Keys)))
      .(writer := Some(t), commits := s.commits + [Commit(t, tx.buf, plan.prior, plan.keys, tx.seen)])
  }

  function Applied(cat: Catalog, s: State, t: nat, e: EngineId): State
    requires t in s.txs && s.txs[t].phase.Applying? && e in s.engines
  {
    var tx := s.txs[t];
    SetTx(s, t, tx.(phase := tx.phase.(pending := tx.phase.pending - {e})))
      .(engines := s.engines[e := Patch(s.engines[e], Batch(cat, tx.buf, tx.phase.plan.prior, e))])
  }

  function Finished(s: State, t: nat): State
    requires t in s.txs && s.txs[t].phase.Applying?
  {
    var tx := s.txs[t];
    var record := CommitRecord(s.version + 1, tx.phase.plan.keys);
    SetTx(s, t, tx.(phase := Running, buf := map[]))
      .(writer := None, version := s.version + 1,
        history := Retain(s.history + [record], LimitOr(tx.phase.limit, s.version + 1)))
  }

  /** Unregistering takes three steps, and the locks are released between them. */
  function Left(s: State, t: nat, m: Option<nat>): State
  {
    s.(txs := s.txs - {t}, leaving := s.leaving[t := if m.Some? then Least(m.value) else FoundNone])
  }

  function Pruned(s: State, t: nat): State
    requires t in s.leaving && !s.leaving[t].FoundNone?
  {
    s.(leaving := s.leaving - {t}, history := Retain(s.history, s.leaving[t].limit))
  }

  /** The state after an enabled step. A rejected commit leaves its transaction running, buffer intact. */
  ghost function Next(cat: Catalog, s: State, step: Step): State
    requires Enabled(cat, s, step)
  {
    if step.Register? then
      SetTx(s, step.t, Tx(s.version, map[], map[], map[], [], Running))
    else if step.LoadVersion? then
      s.(leaving := s.leaving[step.t := Loaded(s.version)])
    else if step.Prune? then
      Pruned(s, step.t)
    else
      var tx := s.txs[step.t];
      match step
      case Register(_) | LoadVersion(_) | Prune(_) => s
      case Leave(t, m) => Left(s, t, m)
      case Write(t, table, k, change) => SetTx(s, t, tx.(buf := Buffered(tx.buf, table, k, change)))
      case Rollback(t) => SetTx(s, t, tx.(buf := map[]))
      case TrackKey(t, space, k) => SetTx(s, t, tx.(tracked := AddKey(tx.tracked, space, k)))
      case TrackRange(t, space, lo, hi) => SetTx(s, t, tx.(ranges := AddRange(tx.ranges, space, lo, hi)))
      case Read(t, e, sel) =>
        SetTx(s, t, tx.(seen := tx.seen + [Observation(e, sel, Restrict(s.engines[e], sel))]))
      case BeginCommit(t) => SetTx(s, t, tx.(phase := Fetching(map[])))
      case FetchOld(t, e) =>
        SetTx(s, t, tx.(phase := Fetching(tx.phase.fetch[e := Restrict(s.engines[e], Points(tx.buf[e.table].Keys))])))
      case Prepare(t) =>
        var prior := FetchedRows(cat, tx.buf, tx.phase.fetch);
        SetTx(s, t, tx.(phase := Prepared(Plan(tx.phase.fetch, prior, WriteKeys(cat, tx.buf, prior)))))
      case CheckReadOnly(t) =>
        if Rejects(s.history, tx.start, Footprint(tx.tracked, tx.ranges, map[])) then s
        else s.(audits := s.audits + [Audit(tx.seen, |s.commits|)])
      case CheckSnapshot(t) =>
        if Rejects(s.history, tx.start, CommitFootprint(tx, tx.phase.plan.keys))
        then SetTx(s, t, tx.(phase := Running))
        else SetTx(s, t, tx.(phase := Checked(tx.phase.plan, NewestVersion(s.history, tx.start))))
      case TakeLimit(t, m) => SetTx(s, t, tx.(phase := Limited(tx.phase.plan, tx.phase.snapshot, m)))
      case CheckDelta(t) =>
        if Rejects(s.history, tx.phase.snapshot, CommitFootprint(tx, tx.phase.plan.keys))
        then SetTx(s, t, tx.(phase := Running))
        else Accepted(s, t)
      case ApplyBatch(t, e) => Applied(cat, s, t, e)
      case Finish(t) => Finished(s, t)
  }

  // ---------- The serial meaning ----------

  /** The logical tables after running the given commits one after another, alone. */
  function Logical(base: Tables, commits: seq<Commit>): Tables
  {
    if commits == [] then base
    else ApplyBuffer(Logical(base, commits[..|commits| - 1]), commits[|commits| - 1].buf)
  }

  /** What engine e holds after the first n commits have run serially. */
  ghost function Serial(cat: Catalog, base: Tables, commits: seq<Commit>, n: nat, e: EngineId): Engine
    requires n <= |commits|
  {
    var ts := Logical(base, commits[..n]);
    if TablesOk(cat, ts) && IsEngine(cat, e) then Contents(cat, ts, e) else map[]
  }

  /** Commit i wrote true changes: its old rows are pre-images and its declared keys follow from them. */
  ghost predicate CommitTrue(cat: Catalog, base: Tables, commits: seq<Commit>, i: nat)
    requires i < |commits|
  {
    var c := commits[i];
    && BufferOk(cat, c.buf)
    && c.prior == AllPreimages(Logical(base, commits[..i]), c.buf)
    && c.buf.Keys <= c.prior.Keys
    && c.keys == WriteKeys(cat, c.buf, c.prior)
  }

  /** Everything in `seen` is what the serial state after n commits answers. */
  ghost predicate SeenAt(cat: Catalog, base: Tables, commits: seq<Commit>, n: nat, seen: seq<Observation>)
    requires n <= |commits|
  {
    forall i :: 0 <= i < |seen| ==>
      seen[i].seen == Restrict(Serial(cat, base, commits, n, seen[i].engine), seen[i].sel)
  }

  ghost predicate LogOk(cat: Catalog, base: Tables, commits: seq<Commit>)
  {
    && CatalogOk(cat) && TablesOk(cat, base)
    && forall i :: 0 <= i < |commits| ==> CommitTrue(cat, base, commits, i)
  }

  lemma {:induction false} LogicalOk(cat: Catalog, base: Tables, commits: seq<Commit>, n: nat)
    requires LogOk(cat, base, commits) && n <= |commits|
    ensures TablesOk(cat, Logical(base, commits[..n]))
  {
    if n > 0 {
      LogicalOk(cat, base, commits, n - 1);
      assert commits[..n][..n - 1] == commits[..n - 1];
      assert CommitTrue(cat, base, commits, n - 1);
      ApplyBufferOk(cat, Logical(base, commits[..n - 1]), commits[n - 1].buf);
    }
  }

  /** One commit, seen by one engine: the batch it sends leads from one serial state to the next. */
  lemma SerialStep(cat: Catalog, base: Tables, commits: seq<Commit>, n: nat, e: EngineId)
    requires LogOk(cat, base, commits) && n < |commits| && IsEngine(cat, e)
    ensures var c := commits[n];
            Serial(cat, base, commits, n + 1, e) ==
            Patch(Serial(cat, base, commits, n, e), Batch(cat, c.buf, c.prior, e))
  {
    LogicalOk(cat, base, commits, n);
    LogicalOk(cat, base, commits, n + 1);
    assert CommitTrue(cat, base, commits, n);
    assert commits[..n + 1][..n] == commits[..n];
    StoreStep(cat, Logical(base, commits[..n]), commits[n].buf, commits[n].prior, e);
  }

  ghost predicate TouchedBetween(commits: seq<Commit>, m: nat, n: nat, space: string, k: DbKey)
    requires m <= n <= |commits|
  {
    exists j :: m <= j < n && Touches(commits[j].keys, space, k)
  }

  /** A cell keeps its serial value as long as no commit declares its key. */
  lemma {:induction false} Stable(cat: Catalog, base: Tables, commits: seq<Commit>, m: nat, n: nat, e: EngineId,
      k: DbKey)
    requires LogOk(cat, base, commits) && m <= n <= |commits| && IsEngine(cat, e)
    requires !TouchedBetween(commits, m, n, SpaceOf(e), k)
    ensures Lookup(Serial(cat, base, commits, m, e), k) == Lookup(Serial(cat, base, commits, n, e), k)
  {
    hide LogOk, Serial, Touches;
    if m < n {
      assert !TouchedBetween(commits, m, n - 1, SpaceOf(e), k);
      Stable(cat, base, commits, m, n - 1, e, k);
      StableStep(cat, base, commits, n - 1, e, k);
    }
  }

  lemma StableStep(cat: Catalog, base: Tables, commits: seq<Commit>, n: nat, e: EngineId, k: DbKey)
    requires LogOk(cat, base, commits) && n < |commits| && IsEngine(cat, e)
    requires !Touches(commits[n].keys, SpaceOf(e), k)
    ensures Lookup(Serial(cat, base, commits, n, e), k) == Lookup(Serial(cat, base, commits, n + 1, e), k)
  {
    hide Serial, Touches, EngineDelta, WriteKeys;
    var c := commits[n];
    SerialStep(cat, base, commits, n, e);
    assert CommitTrue(cat, base, commits, n);
    if k in Batch(cat, c.buf, c.prior, e) {
      WriteKeysCover(cat, c.buf, c.prior, e, k);
    }
  }

  lemma SerialAppend(cat: Catalog, base: Tables, commits: seq<Commit>, c: Commit, n: nat, e: EngineId)
    requires n <= |commits|
    ensures Serial(cat, base, commits + [c], n, e) == Serial(cat, base, commits, n, e)
  {
    assert (commits + [c])[..n] == commits[..n];
  }
}
