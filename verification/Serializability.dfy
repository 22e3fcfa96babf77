/**
 The invariant behind serializability: the committed transactions are equivalent to running alone,
 in commit-version order; the history holds what a registered transaction needs, which a prune
 keeps exactly when it is harmless; and the physical engines follow the logical tables.
 */
module Serializability {
  import opened Values
  import opened Schemas
  import opened Indexes
  import opened Stores
  import opened Occ
  import opened Transactions

  // ---------- The invariant ----------

  /** The history is the unpruned tail of the finished commits. */
  ghost predicate HistoryOk(version: nat, history: seq<CommitRecord>, commits: seq<Commit>)
  {
    && |history| <= version <= |commits|
    && forall i :: 0 <= i < |history| ==>
         history[i] == CommitRecord(version - |history| + i + 1, commits[version - |history| + i].keys)
  }

  /** Every record newer than a registered transaction's start version is still in the history. */
  ghost predicate PruningSafe(s: State)
  {
    forall t :: t in s.txs ==> s.version - |s.history| <= s.txs[t].start <= s.version
  }

  ghost predicate WriterOk(s: State)
  {
    && |s.commits| == s.version + (if s.writer.Some? then 1 else 0)
    && (forall t :: t in s.txs ==> (s.txs[t].phase.Applying? <==> s.writer == Some(t)))
    && (s.writer.Some? ==> s.writer.value in s.txs)
    && (s.writer.Some? ==>
          var tx, c := s.txs[s.writer.value], s.commits[|s.commits| - 1];
          c.tx == s.writer.value && c.buf == tx.buf && c.seen == tx.seen && c.prior == tx.phase.plan.prior && c.keys == tx.phase.plan.keys)
  }

  /** How many commits engine e reflects: a commit being applied has not reached its pending engines. */
  function Reached(s: State, e: EngineId): nat
  {
    if s.writer.Some? && s.writer.value in s.txs && s.txs[s.writer.value].phase.Applying? &&
       e in s.txs[s.writer.value].phase.pending && |s.commits| > 0
    then |s.commits| - 1 else |s.commits|
  }

  ghost predicate EnginesOk(cat: Catalog, base: Tables, s: State)
  {
    && (forall e :: e in s.engines <==> IsEngine(cat, e))
    && forall e :: e in s.engines ==> s.engines[e] == Serial(cat, base, s.commits, Reached(s, e), e)
  }

  /** A cell read by a transaction is the serial one at its start, unless a later commit declared its key. */
  ghost predicate CellOk(cat: Catalog, base: Tables, commits: seq<Commit>, start: nat, e: EngineId, k: DbKey,
      v: Option<Stored>)
    requires start <= |commits|
  {
    v == Lookup(Serial(cat, base, commits, start, e), k) || TouchedBetween(commits, start, |commits|, SpaceOf(e), k)
  }

  ghost predicate ObservationOk(cat: Catalog, base: Tables, commits: seq<Commit>, start: nat, o: Observation)
    requires start <= |commits|
  {
    && IsEngine(cat, o.engine)
    && (forall k :: Selects(o.sel, k) ==> CellOk(cat, base, commits, start, o.engine, k, Lookup(o.seen, k)))
    && (forall k :: k in o.seen ==> Selects(o.sel, k))
  }

  /** What a transaction read is tracked. */
  ghost predicate Tracked(tracked: KeySets, ranges: Ranges, o: Observation)
  {
    forall k :: Selects(o.sel, k) ==> Tracks(tracked, ranges, SpaceOf(o.engine), k)
  }

  ghost predicate FetchOk(cat: Catalog, base: Tables, commits: seq<Commit>, start: nat, buf: Buffer, fetch: Fetch)
    requires start <= |commits|
  {
    forall e :: e in fetch ==>
      && e.Group? && e.table in buf && IsEngine(cat, e)
      && forall k :: k in buf[e.table] ==> CellOk(cat, base, commits, start, e, k, Lookup(fetch[e], k))
  }

  ghost predicate PlanOk(cat: Catalog, base: Tables, commits: seq<Commit>, start: nat, buf: Buffer, plan: Plan)
    requires start <= |commits|
  {
    && FetchOk(cat, base, commits, start, buf, plan.fetch)
    && BufferOk(cat, buf)
    && FetchComplete(cat, buf, plan.fetch)
    && plan.prior == FetchedRows(cat, buf, plan.fetch)
    && plan.keys == WriteKeys(cat, buf, plan.prior)
  }

  ghost predicate ClearUpTo(commits: seq<Commit>, start: nat, n: nat, f: Footprint)
    requires n <= |commits|
  {
    forall j :: start <= j < n ==> !Conflict(commits[j].keys, f)
  }

  ghost predicate LimitOk(txs: map<nat, Tx>, limit: Option<nat>)
  {
    limit.Some? && forall t :: t in txs ==> limit.value <= txs[t].start
  }

  ghost predicate PhaseOk(cat: Catalog, base: Tables, commits: seq<Commit>, version: nat, tx: Tx)
    requires tx.start <= version <= |commits|
  {
    match tx.phase
    case Running => true
    case Fetching(fetch) => FetchOk(cat, base, commits, tx.start, tx.buf, fetch)
    case Prepared(plan) => PlanOk(cat, base, commits, tx.start, tx.buf, plan)
    case Checked(plan, snapshot) =>
      && PlanOk(cat, base, commits, tx.start, tx.buf, plan) && tx.start <= snapshot <= version
      && ClearUpTo(commits, tx.start, snapshot, CommitFootprint(tx, plan.keys))
    case Limited(plan, snapshot, _) =>
      && PlanOk(cat, base, commits, tx.start, tx.buf, plan) && tx.start <= snapshot <= version
      && ClearUpTo(commits, tx.start, snapshot, CommitFootprint(tx, plan.keys))
    case Applying(_, _, _) => true
  }

  ghost predicate TxOk(cat: Catalog, base: Tables, commits: seq<Commit>, version: nat, tx: Tx)
  {
    && tx.start <= version <= |commits|
    && BufferOk(cat, tx.buf)
    && (forall i :: 0 <= i < |tx.seen| ==> ObservationOk(cat, base, commits, tx.start, tx.seen[i]))
    && (forall i :: 0 <= i < |tx.seen| ==> Tracked(tx.tracked, tx.ranges, tx.seen[i]))
    && PhaseOk(cat, base, commits, version, tx)
  }

  ghost predicate LimitsOk(txs: map<nat, Tx>)
  {
    forall t :: t in txs ==>
      && (txs[t].phase.Limited? ==> LimitOk(txs, txs[t].phase.limit))
      && (txs[t].phase.Applying? ==> LimitOk(txs, txs[t].phase.limit))
  }

  /** A limit taken from the least start version stays below every registered start version. */
  ghost predicate LeavingOk(s: State)
  {
    forall t :: t in s.leaving && s.leaving[t].Least? ==>
      && s.leaving[t].limit <= s.version
      && forall u :: u in s.txs ==> s.leaving[t].limit <= s.txs[u].start
  }

  /** Each commit and each read-only commit rests on reads that its own serial position would answer. */
  ghost predicate Serializable(cat: Catalog, base: Tables, commits: seq<Commit>, audits: seq<Audit>)
  {
    && (forall i :: 0 <= i < |commits| ==> SeenAt(cat, base, commits, i, commits[i].seen))
    && (forall i :: 0 <= i < |audits| ==>
          audits[i].at <= |commits| && SeenAt(cat, base, commits, audits[i].at, audits[i].seen))
  }

  ghost predicate Inv(cat: Catalog, base: Tables, s: State)
  {
    && LogOk(cat, base, s.commits)
    && HistoryOk(s.version, s.history, s.commits)
    && PruningSafe(s)
    && WriterOk(s)
    && EnginesOk(cat, base, s)
    && LimitsOk(s.txs)
    && LeavingOk(s)
    && (forall t :: t in s.txs ==> TxOk(cat, base, s.commits, s.version, s.txs[t]))
    && Serializable(cat, base, s.commits, s.audits)
  }

  // ---------- What validation establishes ----------

  /** A live cell, read at any moment, also between two batches of another commit. */
  lemma LiveCell(cat: Catalog, base: Tables, s: State, start: nat, e: EngineId, k: DbKey)
    requires LogOk(cat, base, s.commits) && EnginesOk(cat, base, s) && WriterOk(s)
    requires start <= s.version && e in s.engines
    ensures CellOk(cat, base, s.commits, start, e, k, Lookup(s.engines[e], k))
  {
    var n := Reached(s, e);
    if TouchedBetween(s.commits, start, n, SpaceOf(e), k) {
      var j :| start <= j < n && Touches(s.commits[j].keys, SpaceOf(e), k);
    } else {
      Stable(cat, base, s.commits, start, n, e, k);
    }
  }

  /** A clear footprint pins every covered cell to the serial state of the present. */
  lemma ClearCell(cat: Catalog, base: Tables, commits: seq<Commit>, start: nat, f: Footprint, e: EngineId, k: DbKey,
      v: Option<Stored>)
    requires LogOk(cat, base, commits) && start <= |commits| && IsEngine(cat, e)
    requires ClearUpTo(commits, start, |commits|, f) && Covers(f, SpaceOf(e), k)
    requires CellOk(cat, base, commits, start, e, k, v)
    ensures v == Lookup(Serial(cat, base, commits, |commits|, e), k)
  {
    forall j | start <= j < |commits| ensures !Touches(commits[j].keys, SpaceOf(e), k) {
      assert !Conflict(commits[j].keys, f);
    }
    Stable(cat, base, commits, start, |commits|, e, k);
  }

  lemma ClearSeen(cat: Catalog, base: Tables, commits: seq<Commit>, version: nat, tx: Tx, keys: KeySets)
    requires LogOk(cat, base, commits) && TxOk(cat, base, commits, version, tx)
    requires ClearUpTo(commits, tx.start, |commits|, Footprint(tx.tracked, tx.ranges, keys))
    ensures SeenAt(cat, base, commits, |commits|, tx.seen)
  {
    forall i | 0 <= i < |tx.seen|
      ensures tx.seen[i].seen == Restrict(Serial(cat, base, commits, |commits|, tx.seen[i].engine), tx.seen[i].sel)
    {
      var o := tx.seen[i];
      var r := Restrict(Serial(cat, base, commits, |commits|, o.engine), o.sel);
      assert ObservationOk(cat, base, commits, tx.start, o) && Tracked(tx.tracked, tx.ranges, o);
      forall k ensures Lookup(o.seen, k) == Lookup(r, k) {
        if Selects(o.sel, k) {
          assert Tracks(tx.tracked, tx.ranges, SpaceOf(o.engine), k);
          ClearCell(cat, base, commits, tx.start, Footprint(tx.tracked, tx.ranges, keys), o.engine, k, Lookup(o.seen, k));
        }
      }
      MapsEqual(o.seen, r);
    }
  }

  /** A clear plan holds true pre-images: this is what write-write validation is for. */
  lemma ClearPlan(cat: Catalog, base: Tables, commits: seq<Commit>, tx: Tx, plan: Plan)
    requires LogOk(cat, base, commits) && tx.start <= |commits| && PlanOk(cat, base, commits, tx.start, tx.buf, plan)
    requires ClearUpTo(commits, tx.start, |commits|, CommitFootprint(tx, plan.keys))
    ensures plan.prior == AllPreimages(Logical(base, commits), tx.buf)
  {
    forall t, k | t in tx.buf && k in tx.buf[t] ensures Covers(CommitFootprint(tx, plan.keys), t, k) {
      assert Touches(plan.keys, t, k);
    }
    ClearKeys(cat, base, commits, tx, plan, CommitFootprint(tx, plan.keys));
  }

  /** It is enough that no commit since the start touched a written primary key. */
  lemma ClearKeys(cat: Catalog, base: Tables, commits: seq<Commit>, tx: Tx, plan: Plan, f: Footprint)
    requires LogOk(cat, base, commits) && tx.start <= |commits| && PlanOk(cat, base, commits, tx.start, tx.buf, plan)
    requires ClearUpTo(commits, tx.start, |commits|, f) && forall t, k :: t in tx.buf && k in tx.buf[t] ==> Covers(f, t, k)
    ensures plan.prior == AllPreimages(Logical(base, commits), tx.buf)
  {
    var ts := Logical(base, commits);
    LogicalOk(cat, base, commits, |commits|);
    assert commits[..|commits|] == commits;
    forall t, g, k | t in tx.buf && g in Groups(cat[t].columns) && k in tx.buf[t]
      ensures Lookup(plan.fetch[Group(t, g)], k) == Lookup(Contents(cat, ts, Group(t, g)), k)
    {
      var e := Group(t, g);
      assert e in plan.fetch;
      ClearCell(cat, base, commits, tx.start, f, e, k, Lookup(plan.fetch[e], k));
    }
    FetchedArePreimages(cat, ts, tx.buf, plan.fetch);
  }

  /** Scanning a safe history sees every finished commit after the given version. */
  lemma HistoryScan(version: nat, history: seq<CommitRecord>, commits: seq<Commit>, after: nat, f: Footprint)
    requires HistoryOk(version, history, commits) && version - |history| <= after <= version
    ensures !Rejects(history, after, f) <==> ClearUpTo(commits, after, version, f)
  {
    if !Rejects(history, after, f) {
      forall j | after <= j < version ensures !Conflict(commits[j].keys, f) {
        var i := j - (version - |history|);
        assert history[i].version > after;
      }
    } else {
      var i :| 0 <= i < |history| && history[i].version > after && Conflict(history[i].keys, f);
      assert !ClearUpTo(commits, after, version, f) by {
        var j := version - |history| + i;
        assert after <= j < version && Conflict(commits[j].keys, f);
      }
    }
  }

  lemma NewestIsVersion(version: nat, history: seq<CommitRecord>, commits: seq<Commit>, start: nat)
    requires HistoryOk(version, history, commits) && version - |history| <= start <= version
    ensures NewestVersion(history, start) == version
  {
    if history != [] {
      assert history[|history| - 1].version == version;
    }
  }

  /**
   Two scans are as good as one: at the second check a transaction is accepted exactly when no
   commit since its start, pruned or not, conflicts with it.
   */
  lemma TwoPhaseIsOneScan(cat: Catalog, base: Tables, s: State, t: nat)
    requires Inv(cat, base, s) && t in s.txs && s.txs[t].phase.Limited? && s.writer.None?
    ensures var tx := s.txs[t]; var f := CommitFootprint(tx, tx.phase.plan.keys);
            !Rejects(s.history, tx.phase.snapshot, f) <==> ClearUpTo(s.commits, tx.start, |s.commits|, f)
  {
    var tx := s.txs[t];
    var f := CommitFootprint(tx, tx.phase.plan.keys);
    assert TxOk(cat, base, s.commits, s.version, tx);
    HistoryScan(s.version, s.history, s.commits, tx.phase.snapshot, f);
  }

  // ---------- Pruning ----------

  function Cut(n: nat, first: nat, limit: nat): nat
  {
    if limit <= first then 0 else if limit - first <= n then limit - first else n
  }

  lemma {:induction false} RetainTail(history: seq<CommitRecord>, first: nat, limit: nat)
    requires forall i :: 0 <= i < |history| ==> history[i].version == first + i
    ensures Retain(history, limit) == history[Cut(|history|, first, limit)..]
  {
    if history != [] {
      var n := |history| - 1;
      RetainTail(history[..n], first, limit);
      var cut := Cut(n, first, limit);
      if history[n].version >= limit {
        assert history[..n][cut..] + [history[n]] == history[cut..];
      } else {
        assert history[..n][cut..] == [];
        assert history[Cut(n + 1, first, limit)..] == [];
      }
    }
  }

  /**
   Pruning a history at a limit keeps what a transaction started at `start` needs exactly when
   the limit is at most one past its start version, or there is nothing newer than `start`.
   */
  lemma RetainSafe(version: nat, history: seq<CommitRecord>, commits: seq<Commit>, start: nat, limit: nat)
    requires HistoryOk(version, history, commits) && version - |history| <= start <= version
    ensures HistoryOk(version, Retain(history, limit), commits)
    ensures version - |Retain(history, limit)| <= start <==> limit <= start + 1 || start == version
  {
    RetainTail(history, version - |history| + 1, limit);
  }

  /** Whoever is registered when t prunes starts at most one version below the limit, or has nothing newer. */
  ghost predicate PrunesHarmlessly(s: State, t: nat)
    requires t in s.leaving && !s.leaving[t].FoundNone?
  {
    forall u :: u in s.txs ==> s.leaving[t].limit <= s.txs[u].start + 1 || s.txs[u].start == s.version
  }

  /** Exact: a prune keeps every record a registered transaction may need just when it is harmless. */
  lemma PruneSafeExactly(s: State, t: nat)
    requires HistoryOk(s.version, s.history, s.commits) && PruningSafe(s) && t in s.leaving && !s.leaving[t].FoundNone?
    ensures HistoryOk(s.version, Pruned(s, t).history, s.commits)
    ensures PruningSafe(Pruned(s, t)) <==> PrunesHarmlessly(s, t)
  {
    hide HistoryOk;
    var limit := s.leaving[t].limit;
    VersionSafe(s);
    RetainSafe(s.version, s.history, s.commits, s.version, limit);
    forall u | u in s.txs
      ensures s.version - |Pruned(s, t).history| <= s.txs[u].start <==> limit <= s.txs[u].start + 1 || s.txs[u].start == s.version
    {
      RetainSafe(s.version, s.history, s.commits, s.txs[u].start, limit);
    }
  }

  lemma VersionSafe(s: State)
    requires HistoryOk(s.version, s.history, s.commits)
    ensures s.version - |s.history| <= s.version
  {
  }

  /** A limit taken from a transaction that was still registered is always harmless. */
  lemma LeastIsHarmless(s: State, t: nat)
    requires LeavingOk(s) && t in s.leaving && s.leaving[t].Least?
    ensures PrunesHarmlessly(s, t)
  {
  }
}
